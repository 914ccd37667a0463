/**
 What each call of the client does, as its caller sees it: the packets, the code, the callbacks and the
 change of state, for every input.
 */
module Calls {
  import opened Engine
  import opened Mqtt
  import MessageIds
  import Topics
  import Window

  // ---- Publishing --------------------------------------------------------------------------------------

  /** The arguments pass the checks of `mosquitto_publish`. */
  predicate ArgumentsPass(app: AppMessage, qos: int) {
    0 <= qos <= 2 && app.topic != [] && |app.payload| <= 268435455 && Topics.ValidTopic(app.topic)
  }

  /** The remaining length of the PUBLISH takes at most four bytes. */
  predicate Short(app: AppMessage, qos: int) {
    2 + |app.topic| + |app.payload| + (if qos > 0 then 2 else 0) < 0x1000_0000
  }

  /** Arguments that do not pass change nothing; the payload is checked before the wildcards. */
  lemma BadPublish(c: Client, app: AppMessage, qos: int, now: int)
    requires !ArgumentsPass(app, qos)
    ensures var o := DoPublish(c, app, qos, now);
            && o.c == c && o.sent == [] && o.onPublish == [] && o.onMessage == []
            && o.rc == if 0 <= qos <= 2 && app.topic != [] && |app.payload| > 268435455 then PayloadSize else Inval
  {
  }

  /** A QoS 0 publish takes an id, and sends one PUBLISH or says why not. The list is left alone. */
  lemma PublishWithoutAck(c: Client, app: AppMessage, now: int)
    requires ArgumentsPass(app, 0)
    ensures var o := DoPublish(c, app, 0, now); var mid := MessageIds.Next(c.lastMid);
            && o.c == c.(lastMid := mid, published := c.published + 1) && o.onPublish == [] && o.onMessage == []
            && (c.connected && Short(app, 0) ==>
                  o.sent == [Publish(c.published, mid, 0, false, app)] && o.rc == Success)
            && (!c.connected ==> o.sent == [] && o.rc == NoConn)
            && (c.connected && !Short(app, 0) ==> o.sent == [] && o.rc == PayloadSize)
  {
    hide Topics.ValidTopic, MessageIds.Next;
  }

  /**
   A publish above QoS 0 takes an id and appends its message. With room in the window the message waits
   for its first acknowledgement and is sent once, with the dup flag clear, or the code says why not;
   without room it is queued unsent.
   */
  lemma PublishWithAck(c: Client, app: AppMessage, qos: int, now: int)
    requires ArgumentsPass(app, qos) && qos > 0
    ensures var o := DoPublish(c, app, qos, now); var mid := MessageIds.Next(c.lastMid);
            var room := c.max == 0 || c.inflight < c.max;
            var state := if !room then Invalid else if qos == 1 then WaitForPuback else WaitForPubrec;
            && o.c == c.(lastMid := mid, published := c.published + 1, inflight := c.inflight + (if room then 1 else 0),
                         out := c.out + [Msg(c.published, mid, qos, app, state, false, now)])
            && o.onPublish == [] && o.onMessage == []
            && (room && c.connected && Short(app, qos) ==>
                  o.sent == [Publish(c.published, mid, qos, false, app)] && o.rc == Success)
            && (room && !c.connected ==> o.sent == [] && o.rc == NoConn)
            && (room && c.connected && !Short(app, qos) ==> o.sent == [] && o.rc == PayloadSize)
            && (!room ==> o.sent == [] && o.rc == Success)
  {
    hide Topics.ValidTopic, MessageIds.Next;
  }

  // ---- Subscribing -------------------------------------------------------------------------------------

  /** A subscribe with a valid filter takes an id and sends one SUBSCRIBE with it, filter and QoS. */
  lemma SubscribeSends(c: Client, filter: cstring, qos: int)
    ensures var o := DoRequest(c, ToSubscribe(filter, qos)); var mid := MessageIds.Next(c.lastMid);
            if !c.connected then o == Outcome(c, [], [], [], NoConn)
            else if !Topics.ValidFilter(filter) then o == Outcome(c, [], [], [], Inval)
            else o.c == c.(lastMid := mid) && o.rc == Success && o.onPublish == [] && o.onMessage == []
                 && |o.sent| == 1 && o.sent[0].Subscribe? && o.sent[0].mid == mid && o.sent[0].filter == filter
                 && (0 <= qos <= 255 ==> o.sent[0].wanted == qos)
  {
    hide Topics.ValidFilter, MessageIds.Next;
  }

  /** The same for unsubscribe. */
  lemma UnsubscribeSends(c: Client, filter: cstring)
    ensures var o := DoRequest(c, ToUnsubscribe(filter)); var mid := MessageIds.Next(c.lastMid);
            if !c.connected then o == Outcome(c, [], [], [], NoConn)
            else if !Topics.ValidFilter(filter) then o == Outcome(c, [], [], [], Inval)
            else o.c == c.(lastMid := mid) && o.rc == Success && o.onPublish == [] && o.onMessage == []
                 && |o.sent| == 1 && o.sent[0].Unsubscribe? && o.sent[0].mid == mid && o.sent[0].filter == filter
  {
    hide Topics.ValidFilter, MessageIds.Next;
  }

  // ---- Acknowledgements ----------------------------------------------------------------------------------

  predicate Names(ms: seq<Msg>, k: nat, mid: uint16) {
    k < |ms| && ms[k].mid == mid && forall i :: 0 <= i < k ==> ms[i].mid != mid
  }

  predicate Unknown(ms: seq<Msg>, mid: uint16) {
    forall i :: 0 <= i < |ms| ==> ms[i].mid != mid
  }

  lemma NamesIs(ms: seq<Msg>, k: nat, mid: uint16)
    requires Names(ms, k, mid)
    ensures Find(ms, mid) == k
  {
  }

  /** A PUBREC is answered with one PUBREL of the same id and the flags of section 3.6.1 of MQTT 3.1.1. */
  lemma PubrecAnswered(c: Client, k: nat, mid: uint16, now: int)
    requires Names(c.out, k, mid)
    ensures var o := DoPubrec(c, mid, now); var m := c.out[k];
            && o.sent == [Pubrel(m.serial, mid, 2)] && o.rc == Success && o.onPublish == [] && o.onMessage == []
            && o.c == c.(out := o.c.out) && |o.c.out| == |c.out|
            && o.c.out[k] == Msg(m.serial, mid, m.qos, m.app, WaitForPubcomp, m.dup, now)
            && forall i :: 0 <= i < |c.out| && i != k ==> o.c.out[i] == c.out[i]
  {
    NamesIs(c.out, k, mid);
  }

  /** A PUBREC that names nothing is an error; a PUBACK or PUBCOMP that names nothing is ignored. */
  lemma UnknownAcks(c: Client, mid: uint16, now: int)
    requires Unknown(c.out, mid)
    ensures DoPubrec(c, mid, now) == Outcome(c, [], [], [], NotFound)
    ensures DoPubackcomp(c, mid) == Outcome(c, [], [], [], Success)
  {
  }

  // ---- Incoming packets ----------------------------------------------------------------------------------

  /** What becomes of a received PUBLISH, by its QoS. */
  lemma PublishReceived(c: Client, p: Packet, now: int)
    requires p.Publish?
    ensures var o := DoReceive(c, p, now); var m := Msg(p.serial, p.mid, p.qos, p.app, Invalid, p.dup, now);
            && o.onPublish == [] && o.c == c.(inq := o.c.inq)
            && (p.app.topic == [] ==> o == Outcome(c, [], [], [], Protocol))
            && (p.app.topic != [] ==> o.rc == Success)
            && (p.app.topic != [] && p.qos == 0 ==> o.c == c && o.sent == [] && o.onMessage == [m])
            && (p.app.topic != [] && p.qos == 1 ==> o.c == c && o.sent == [Puback(p.mid)] && o.onMessage == [m])
            && (p.app.topic != [] && p.qos == 2 ==>
                  o.c.inq == c.inq + [m.(state := WaitForPubrel)] && o.sent == [Pubrec(p.mid)] && o.onMessage == [])
  {
  }

  /** A PUBREL hands over the first held message with its id; flags that are not 2 are an error under MQTT 3.1.1. */
  lemma PubrelReceived(c: Client, flags: byte, serial: nat, mid: uint16, now: int)
    ensures var o := DoReceive(c, Pubrel(serial, mid, flags), now);
            && o.onPublish == [] && o.c == c.(inq := o.c.inq)
            && (c.mqtt311 && flags != 2 ==> o == Outcome(c, [], [], [], Protocol))
            && (!(c.mqtt311 && flags != 2) ==>
                  && o.sent == [Pubcomp(mid)] && o.rc == Success
                  && (Unknown(c.inq, mid) ==> o.c == c && o.onMessage == [])
                  && forall k: nat :: Names(c.inq, k, mid) ==>
                       o.onMessage == [c.inq[k]] && |o.c.inq| == |c.inq| - 1
                       && forall i :: 0 <= i < |o.c.inq| ==> o.c.inq[i] == c.inq[if i < k then i else i + 1])
  {
    forall k: nat | Names(c.inq, k, mid) ensures Find(c.inq, mid) == k {
      NamesIs(c.inq, k, mid);
    }
  }

  // ---- Reconnects ----------------------------------------------------------------------------------------

  /**
   A reset of any list of messages above QoS 0, whatever state they are in: as many as the window holds
   come first, in list order; a QoS 1 message among them waits for its PUBACK, a QoS 2 message stays where
   it was; all others are queued. Every timestamp is cleared.
   */
  lemma {:induction false} ResetRefills(ms: seq<Msg>, inflight: nat, max: nat)
    requires (forall i :: 0 <= i < |ms| ==> ms[i].qos > 0) && (max > 0 ==> inflight <= max)
    ensures var n := if max == 0 then |ms| else Min(max - inflight, |ms|);
            var (r, count) := ResetOut(ms, inflight, max);
            && count == inflight + n && |r| == |ms|
            && (forall i :: 0 <= i < n ==>
                  r[i] == ms[i].(timestamp := 0, state := if ms[i].qos == 1 then WaitForPuback else ms[i].state))
            && (forall i :: n <= i < |ms| ==> r[i] == ms[i].(timestamp := 0, state := Invalid))
    decreases |ms|
  {
    if ms != [] {
      if max == 0 || inflight < max {
        ResetRefills(ms[1..], inflight + 1, max);
      } else {
        ResetRefills(ms[1..], inflight, max);
      }
    }
  }

  // ---- Retries -------------------------------------------------------------------------------------------

  /** The messages of a list that have waited for more than the retry time. */
  function Due(ms: seq<Msg>, retry: nat, now: int): seq<Msg> {
    if ms == [] then []
    else (if now - ms[0].timestamp > retry then [ms[0]] else []) + Due(ms[1..], retry, now)
  }

  /** A retry pass over a list in window shape sends exactly the reminders of the started messages that are due. */
  lemma {:induction false} RetrySendsTheDue(ms: seq<Msg>, n: nat, retry: nat, now: int)
    requires Window.Shape(ms, n)
    ensures RetryAll(ms, true, retry, now).1 == Window.Reminders(Due(ms[..n], retry, now))
    decreases |ms|
  {
    hide RetryOne, Window.Reminder, Window.CanRemind, Window.Started, Window.Queued;
    if ms != [] {
      RetryOneIfDue(ms[0], true, retry, now);
      Window.RetryOneReminds(ms[0], retry, now);
      if n == 0 {
        assert Window.Queued(ms[0]);
        RetrySendsTheDue(ms[1..], 0, retry, now);
        assert ms[1..][..0] == ms[..0];
      } else {
        assert Window.Started(ms[0]);
        RetrySendsTheDue(ms[1..], n - 1, retry, now);
        assert ms[..n][1..] == ms[1..][..n - 1];
        var rest := Due(ms[1..][..n - 1], retry, now);
        assert ([ms[0]] + rest)[1..] == rest && [] + rest == rest;
      }
    }
  }

  /** And PUBRECs again for the incoming messages that are due. */
  lemma {:induction false} RetryRecsTheDue(ms: seq<Msg>, retry: nat, now: int)
    requires Window.InHeld(ms)
    ensures var due := Due(ms, retry, now);
            RetryAll(ms, true, retry, now).1 == seq(|due|, i requires 0 <= i < |due| => Pubrec(due[i].mid))
  {
    if ms != [] {
      RetryRecsTheDue(ms[1..], retry, now);
    }
  }

  /** A message that is not due is left alone; one that is due and sent again starts to wait again. */
  lemma RetryOneIfDue(m: Msg, connected: bool, retry: nat, now: int)
    ensures var (m1, sent) := RetryOne(m, connected, retry, now);
            && (now - m.timestamp <= retry ==> m1 == m && sent == [])
            && (sent != [] ==> m1.timestamp == now && m1.dup && m1.state == m.state)
            && forall p :: p in sent ==> p.mid == m.mid
  {
  }

  /** A packet that a retry pass sends belongs to a message of the list that has waited for more than the retry time. */
  predicate FromDue(ms: seq<Msg>, retry: nat, now: int, p: Packet) {
    exists i :: 0 <= i < |ms| && ms[i].mid == p.mid && now - ms[i].timestamp > retry
  }

  lemma {:induction false} RetryOnlyDue(ms: seq<Msg>, connected: bool, retry: nat, now: int)
    ensures forall p :: p in RetryAll(ms, connected, retry, now).1 ==> FromDue(ms, retry, now, p)
  {
    if ms != [] {
      RetryOneIfDue(ms[0], connected, retry, now);
      hide RetryOne;
      RetryOnlyDue(ms[1..], connected, retry, now);
      forall p | p in RetryAll(ms, connected, retry, now).1 ensures FromDue(ms, retry, now, p) {
        if p !in RetryOne(ms[0], connected, retry, now).1 {
          assert FromDue(ms[1..], retry, now, p);
          var j :| 0 <= j < |ms[1..]| && ms[1..][j].mid == p.mid && now - ms[1..][j].timestamp > retry;
          assert ms[j + 1].mid == p.mid;
        } else {
          assert ms[0].mid == p.mid;
        }
      }
    }
  }

  /** No packet of a retry pass carries this id. */
  predicate Silent(c: Client, mid: uint16, now: int) {
    forall p :: p in DoRetry(c, now).sent ==> p.mid != mid
  }

  /** All messages with this id, in either list, have been sent or heard of lately. */
  predicate Recent(c: Client, mid: uint16, now: int) {
    && (forall i :: 0 <= i < |c.out| && c.out[i].mid == mid ==> now - c.out[i].timestamp <= c.retry)
    && (forall i :: 0 <= i < |c.inq| && c.inq[i].mid == mid ==> now - c.inq[i].timestamp <= c.retry)
  }

  lemma RecentIsSilent(c: Client, mid: uint16, now: int)
    requires Recent(c, mid, now)
    ensures Silent(c, mid, now)
  {
    RetryOnlyDue(c.out, c.connected, c.retry, now);
    RetryOnlyDue(c.inq, c.connected, c.retry, now);
    hide RetryAll;
    forall p | p in DoRetry(c, now).sent ensures p.mid != mid {
      assert FromDue(c.out, c.retry, now, p) || FromDue(c.inq, c.retry, now, p);
    }
  }

  /**
   Nothing is sent again too soon: for an id that is in no other message, no retry pass at most the retry
   time after a publish, a PUBREC or a received QoS 2 PUBLISH sends anything with that id.
   */
  lemma NoRetrySoonAfterPublish(c: Client, app: AppMessage, qos: int, now: int, later: int)
    requires later - now <= c.retry
    requires var mid := MessageIds.Next(c.lastMid); Unknown(c.out, mid) && Unknown(c.inq, mid)
    ensures Silent(DoPublish(c, app, qos, now).c, MessageIds.Next(c.lastMid), later)
  {
    hide MessageIds.Next, RetryAll, Topics.ValidTopic, SendPublish, Silent;
    RecentIsSilent(DoPublish(c, app, qos, now).c, MessageIds.Next(c.lastMid), later);
  }

  lemma NoRetrySoonAfterPubrec(c: Client, k: nat, mid: uint16, now: int, later: int)
    requires later - now <= c.retry && Names(c.out, k, mid) && Unknown(c.inq, mid)
    requires forall i :: 0 <= i < |c.out| && i != k ==> c.out[i].mid != mid
    ensures Silent(DoPubrec(c, mid, now).c, mid, later)
  {
    hide Silent;
    PubrecAnswered(c, k, mid, now);
    RecentIsSilent(DoPubrec(c, mid, now).c, mid, later);
  }

  lemma NoRetrySoonAfterReceipt(c: Client, p: Packet, now: int, later: int)
    requires later - now <= c.retry && p.Publish? && p.qos == 2 && Unknown(c.out, p.mid) && Unknown(c.inq, p.mid)
    ensures Silent(DoReceive(c, p, now).c, p.mid, later)
  {
    hide Silent;
    PublishReceived(c, p, now);
    RecentIsSilent(DoReceive(c, p, now).c, p.mid, later);
  }

  /** And no retry pass at most the retry time after another one sends anything that one has sent. */
  lemma NoRetrySoonAfterRetry(c: Client, now: int, later: int, p: Packet)
    requires later - now <= c.retry && p in DoRetry(c, now).sent
    requires forall i, j :: 0 <= i < j < |c.out| ==> c.out[i].mid != c.out[j].mid
    requires forall i, j :: 0 <= i < j < |c.inq| ==> c.inq[i].mid != c.inq[j].mid
    requires Unknown(c.out, p.mid) || Unknown(c.inq, p.mid)
    ensures Silent(DoRetry(c, now).c, p.mid, later)
  {
    hide Silent;
    RetryRefreshes(c.out, c.connected, c.retry, now);
    RetryRefreshes(c.inq, c.connected, c.retry, now);
    RetryKeepsMids(c, now);
    hide RetryAll;
    RecentIsSilent(DoRetry(c, now).c, p.mid, later);
  }

  lemma RetryKeepsMids(c: Client, now: int)
    ensures var d := DoRetry(c, now).c;
            && d.retry == c.retry && |d.out| == |c.out| && |d.inq| == |c.inq|
            && (forall i :: 0 <= i < |c.out| ==> d.out[i].mid == c.out[i].mid)
            && (forall i :: 0 <= i < |c.inq| ==> d.inq[i].mid == c.inq[i].mid)
  {
  }

  /** Each packet sent belongs to a message that now waits from this moment. */
  lemma {:induction false} RetryRefreshes(ms: seq<Msg>, connected: bool, retry: nat, now: int)
    ensures var (r, sent) := RetryAll(ms, connected, retry, now);
            forall p :: p in sent ==> exists i :: 0 <= i < |ms| && ms[i].mid == p.mid && r[i].timestamp == now
  {
    if ms != [] {
      RetryOneIfDue(ms[0], connected, retry, now);
      hide RetryOne;
      RetryRefreshes(ms[1..], connected, retry, now);
      var (r, sent) := RetryAll(ms[1..], connected, retry, now);
      forall p | p in sent
        ensures exists i :: 0 <= i < |ms| && ms[i].mid == p.mid
                            && RetryAll(ms, connected, retry, now).0[i].timestamp == now
      {
        var i :| 0 <= i < |ms| - 1 && ms[1..][i].mid == p.mid && r[i].timestamp == now;
        assert ms[i + 1].mid == p.mid && RetryAll(ms, connected, retry, now).0[i + 1] == r[i];
      }
    }
  }
}
