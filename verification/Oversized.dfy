/**
 Messages whose packet would be too long. `mosquitto_publish` checks the payload alone, so topic and
 payload together can need a remaining length of 2^28 or more: the message is queued before its packet
 is found to be too large.
 */
module Oversized {
  import opened Calls
  import opened Delivery
  import opened Draining
  import opened Engine
  import opened Mqtt
  import SendOrder
  import Topics
  import Window

  // ---- One call --------------------------------------------------------------------------------------

  /**
   Exactly when a publish that returns an error has nevertheless queued its message: above QoS 0, with
   arguments that pass and room in the window, if there is no connection or the packet is too long. The
   message then has a place in the window, and nothing has been sent.
   */
  lemma FailedPublishIsQueuedIff(c: Client, app: AppMessage, qos: int, now: int)
    requires Window.Holds(c)
    ensures var o := DoPublish(c, app, qos, now);
            && (o.rc != Success && o.c.out != c.out <==>
                  && qos > 0 && ArgumentsPass(app, qos) && Room(c.max, c.inflight)
                  && (!c.connected || !Fits(app, qos)))
            && (o.rc != Success && o.c.out != c.out ==>
                  && |o.c.out| == |c.out| + 1 && o.c.out[..|c.out|] == c.out && Window.Started(o.c.out[|c.out|])
                  && o.c.inflight == |o.c.out| && o.sent == [])
  {
    hide Topics.ValidTopic;
  }

  /**
   Exactly when an acknowledged message is reported through on_publish: if no message is waiting behind
   the window, or the packet of the first one waiting is not too long. Either way the message has left
   the list and the one behind the window has taken its place; if it is too long, nothing is sent.
   */
  lemma AckReportsIff(c: Client, k: nat)
    requires Window.Holds(c) && c.connected && k < c.inflight && Find(c.out, c.out[k].mid) == k
    ensures var o := DoPubackcomp(c, c.out[k].mid);
            && o.onPublish == (if c.inflight == |c.out| || Fits(c.out[c.inflight].app, c.out[c.inflight].qos)
                               then [c.out[k]] else [])
            && o.rc == Success && Window.Holds(o.c) && o.c.out == Slid(c, k)
            && (o.onPublish == [] ==> o.sent == [] && o.c.inflight == c.inflight)
  {
    WindowAck(c, c.out[k].mid);
    Window.RemoveSlidesWindow(c, k);
    hide Window.Holds, Without, Promote;
  }

  /** A retry sends nothing for a message that is too long, however often it runs. */
  lemma RetryIgnoresTooLong(m: Msg, connected: bool, retry: nat, now: int)
    requires Window.Started(m) && m.state != WaitForPubcomp && !Fits(m.app, m.qos)
    ensures var (m1, sent) := RetryOne(m, connected, retry, now);
            sent == [] && m1.state == m.state && Window.Started(m1)
  {
  }

  /** With a window of one: the second of two accepted publishes is too long, and the first is never reported. */
  lemma AckedButNotReported(small: AppMessage, big: AppMessage, now: int)
    requires ArgumentsPass(small, 1) && Fits(small, 1) && ArgumentsPass(big, 1) && |big.payload| == MQTT_MAX_PAYLOAD
    ensures var c := Client(1, 20, true, true, 0, 0, 0, [], []);
            var a := DoPublish(c, small, 1, now);
            var b := DoPublish(a.c, big, 1, now);
            var o := DoPubackcomp(b.c, 1);
            && a.rc == Success && b.rc == Success && !Fits(big, 1)
            && o.onPublish == [] && o.sent == [] && o.c.inflight == 1 && |o.c.out| == 1 && o.c.out[0].app == big
  {
    hide Topics.ValidTopic;
    var c := Client(1, 20, true, true, 0, 0, 0, [], []);
    var b := DoPublish(DoPublish(c, small, 1, now).c, big, 1, now).c;
    assert b.out[0].mid == 1 && b.out[1].app == big;
    AckReportsIff(b, 0);
    assert Without(b.out, 0) == [b.out[1]];
  }

  // ---- Whole runs ------------------------------------------------------------------------------------

  predicate OnlyFitting(ch: seq<Packet>) {
    forall i :: 0 <= i < |ch| && ch[i].Publish? ==> Fits(ch[i].app, ch[i].qos)
  }

  /** The publish with this serial was accepted above QoS 0, but its packet is too long. */
  predicate TooLong(s: Sys, n: nat) {
    n < |s.issued| && 1 <= s.issued[n].qos <= 2 && !Fits(s.issued[n].app, s.issued[n].qos)
  }

  lemma SendFits(m: Msg, connected: bool)
    ensures OnlyFitting(SendPublish(connected, m).0)
  {
  }

  lemma {:induction false} RetryFits(ms: seq<Msg>, connected: bool, retry: nat, now: int)
    ensures OnlyFitting(RetryAll(ms, connected, retry, now).1)
  {
    if ms != [] {
      var (m, one) := RetryOne(ms[0], connected, retry, now);
      var (rest, more) := RetryAll(ms[1..], connected, retry, now);
      RetryOneFits(ms[0], connected, retry, now);
      hide RetryOne, Fits;
      RetryFits(ms[1..], connected, retry, now);
      FittingAppend(one, more);
    }
  }

  lemma RetryOneFits(m: Msg, connected: bool, retry: nat, now: int)
    ensures OnlyFitting(RetryOne(m, connected, retry, now).1)
  {
  }

  lemma FittingAppend(a: seq<Packet>, b: seq<Packet>)
    requires OnlyFitting(a) && OnlyFitting(b)
    ensures OnlyFitting(a + b)
  {
    hide Fits;
    assert forall i :: 0 <= i < |a + b| ==> (a + b)[i] == if i < |a| then a[i] else b[i - |a|];
  }

  lemma {:induction false} PromoteFits(ms: seq<Msg>, n: int, max: nat, connected: bool)
    ensures OnlyFitting(Promote(ms, n, max, connected).sent)
  {
    if ms != [] && Room(max, n) {
      var m := ms[0].(state := FirstState(ms[0].qos, Invalid));
      SendFits(m, connected);
      hide SendPublish, Fits;
      PromoteFits(ms[1..], n + 1, max, connected);
      PromoteFits(ms[1..], n, max, connected);
      FittingAppend(SendPublish(connected, m).0, Promote(ms[1..], n + 1, max, connected).sent);
    }
  }

  lemma PublishFits(c: Client, app: AppMessage, qos: int, now: int)
    ensures OnlyFitting(DoPublish(c, app, qos, now).sent)
  {
    hide Topics.ValidTopic;
  }

  lemma ReceiveFits(c: Client, p: Packet, now: int)
    ensures OnlyFitting(DoReceive(c, p, now).sent)
  {
    var k := Find(c.out, p.mid);
    if (p.Puback? || p.Pubcomp?) && k < |c.out| {
      PromoteFits(Without(c.out, k), c.inflight - (if c.out[k].qos > 0 then 1 else 0), c.max, c.connected);
    }
    hide Promote;
  }

  /** Whatever the client sends fits into a packet. */
  lemma StepSendsFitting(s: Sys, a: Action) returns (sent: seq<Packet>)
    requires Enabled(s, a)
    ensures Next(s, a).log == s.log + sent && OnlyFitting(sent)
    ensures Next(s, a).up == if a.Reconnect? then [] else if a.BrokerTake? then s.up[1..] else s.up + sent
  {
    hide DoPublish, DoReceive, RetryAll, Fits;
    sent := [];
    match a {
      case AppPublish(app, qos, now) =>
        PublishFits(s.c, app, qos, now);
        sent := DoPublish(s.c, app, qos, now).sent;
      case AppRequest(r) => sent := DoRequest(s.c, r).sent;
      case Retry(now) =>
        RetryFits(s.c.out, s.c.connected, s.c.retry, now);
        RetryFits(s.c.inq, s.c.connected, s.c.retry, now);
        sent := DoRetry(s.c, now).sent;
        FittingAppend(RetryAll(s.c.out, s.c.connected, s.c.retry, now).1,
          RetryAll(s.c.inq, s.c.connected, s.c.retry, now).1);
      case Deliver(now) =>
        ReceiveFits(s.c, s.down[0], now);
        sent := DoReceive(s.c, s.down[0], now).sent;
      case _ =>
        assert s.log + [] == s.log && s.up + [] == s.up;
    }
  }

  /** Everything sent or accepted fits, and is what was published under its serial. */
  ghost predicate TrafficFits(s: Sys) {
    && OnlyFitting(s.up) && OnlyFitting(s.accepted) && OnlyFitting(s.log) && SendOrder.AllKnown(s.issued, s.log)
  }

  lemma NextKeepsTraffic(s: Sys, a: Action)
    requires SendOrder.All(s) && TrafficFits(s) && Enabled(s, a)
    ensures TrafficFits(Next(s, a))
  {
    hide Inv, Next, Fits, SendOrder.Known, SendOrder.KnownMsg, SendOrder.LogInv, SendOrder.Legit;
    var t := Next(s, a);
    var sent := StepSendsFitting(s, a);
    var c1, sent1 := SendOrder.NextIsLegit(s, a);
    assert sent1 == t.log[|s.log|..] == sent;
    NextKeepsInv(s, a);
    SendOrder.NextKeepsKnownMsg(s, a, c1, sent);
    SendOrder.SentIsKnown(t.issued, s.c, c1, sent);
    SendOrder.KnownGrows(s.issued, t.issued, s.log, []);
    SendOrder.AcceptedGrows(s, a);
    FittingAppend(s.log, sent);
    FittingAppend(s.up, sent);
    if s.up != [] {
      FittingAppend(s.accepted, [s.up[0]]);
    }
  }

  /** An accepted message has been published, and fits. */
  lemma AcceptedFits(s: Sys, n: nat)
    requires SendOrder.All(s) && TrafficFits(s) && Has(s.accepted, n)
    ensures !TooLong(s, n)
  {
    hide Inv, SendOrder.LogInv, Fits;
    InvIsCore(s);
    var i :| 0 <= i < |s.accepted| && s.accepted[i].Publish? && s.accepted[i].serial == n;
    assert SendOrder.Known(s.issued, s.accepted[i]);
  }

  lemma InvIsCore(s: Sys)
    requires Inv(s)
    ensures Core(s)
  {
  }

  /** A message that is too long stays in the list. */
  lemma NextKeepsTooLong(s: Sys, a: Action, n: nat)
    requires SendOrder.All(s) && TrafficFits(s) && Enabled(s, a) && TooLong(s, n) && Listed(s, n)
    ensures Listed(Next(s, a), n)
  {
    InvHasBase(s);
    var t := Next(s, a);
    if a.Deliver? && (s.down[0].Puback? || s.down[0].Pubcomp?) {
      var k := Find(s.c.out, s.down[0].mid);
      AckIsExpected(s);
      AckOutcome(s);
      if k < |s.c.out| {
        AcceptedFits(s, s.c.out[k].serial);
      }
      hide Inv, SendOrder.All, TrafficFits, TooLong, DoPubackcomp;
      AckKeepsOthers(s.c, k, t.c.out, n);
    } else {
      QuietKeepsSerials(s, a);
      hide Inv, Next, SendOrder.All, TrafficFits;
      var j :| 0 <= j < |s.c.out| && s.c.out[j].serial == n;
      assert t.c.out[j].serial == n;
    }
  }

  lemma AckKeepsOthers(c: Client, k: nat, ms: seq<Msg>, n: nat)
    requires Window.Holds(c) && (k < |c.out| ==> k < c.inflight && c.out[k].serial != n)
    requires ms == if k < |c.out| then Slid(c, k) else c.out
    requires exists j :: 0 <= j < |c.out| && c.out[j].serial == n
    ensures exists j :: 0 <= j < |ms| && ms[j].serial == n
  {
    var j :| 0 <= j < |c.out| && c.out[j].serial == n;
    if k < |c.out| {
      SlidList(c, k, ms);
      assert ms[if j < k then j else j - 1].serial == n;
    }
  }

  ghost predicate Stuck(s: Sys) {
    SendOrder.All(s) && TrafficFits(s) && forall n: nat :: TooLong(s, n) ==> Listed(s, n)
  }

  lemma NextKeepsStuck(s: Sys, a: Action)
    requires Stuck(s) && Enabled(s, a)
    ensures Stuck(Next(s, a))
  {
    hide Inv, TrafficFits, Listed, Fits, DoPublish, DoReceive;
    var t := Next(s, a);
    SendOrder.RunKeepsAll(s, [a], t);
    NextKeepsTraffic(s, a);
    forall n: nat | TooLong(t, n) ensures Listed(t, n) {
      if n < |s.issued| {
        assert TooLong(s, n);
        NextKeepsTooLong(s, a, n);
      } else {
        NewIsListed(s, a);
      }
    }
  }

  lemma {:induction false} RunKeepsStuck(s: Sys, acts: seq<Action>, t: Sys)
    requires Stuck(s) && Run(s, acts, t)
    ensures Stuck(t)
    decreases |acts|
  {
    hide Stuck, Next, Enabled;
    if acts != [] {
      NextKeepsStuck(s, acts[0]);
      RunKeepsStuck(Next(s, acts[0]), acts[1..], t);
    }
  }

  /**
   In every run, a message that is too long is never sent and never reported, and stays in the list for
   ever; and it never reaches the state in which its PUBLISH has been received.
   */
  lemma TooLongIsForever(s: Sys, acts: seq<Action>, t: Sys, n: nat)
    requires Init(s) && Run(s, acts, t) && TooLong(t, n)
    ensures exists j :: 0 <= j < |t.c.out| && t.c.out[j].serial == n && t.c.out[j].state != WaitForPubcomp
    ensures forall i :: 0 <= i < |t.done| ==> t.done[i].serial != n
    ensures forall i :: 0 <= i < |t.log| && t.log[i].Publish? && t.log[i].qos > 0 ==> t.log[i].serial != n
  {
    SendOrder.Reach(s, [], s);
    RunKeepsStuck(s, acts, t);
    InvIsCore(t);
    assert Listed(t, n);
    var j :| 0 <= j < |t.c.out| && t.c.out[j].serial == n;
    OwnerState(t, j);
    hide Inv, SendOrder.LogInv, Fits;
    if Has(t.accepted, n) {
      AcceptedFits(t, n);
    }
    forall i | 0 <= i < |t.log| && t.log[i].Publish? && t.log[i].qos > 0 ensures t.log[i].serial != n {
      assert SendOrder.Known(t.issued, t.log[i]);
    }
  }

  /** A message waits for its PUBCOMP only after it has been accepted. */
  lemma OwnerState(s: Sys, j: nat)
    requires Inv(s) && j < |s.c.out|
    ensures s.c.out[j].state == WaitForPubcomp ==> Has(s.accepted, s.c.out[j].serial)
  {
    InvHasBase(s);
    FindAt(s.c.out, j);
    assert MidHolds(s, s.c.out[j].mid);
  }

  /** And once let in, it keeps its place in the window, whatever else leaves. */
  lemma TooLongKeepsItsPlace(s: Sys, a: Action, j: nat)
    requires SendOrder.All(s) && TrafficFits(s) && Enabled(s, a) && j < s.c.inflight && TooLong(s, s.c.out[j].serial)
    ensures var t := Next(s, a);
            exists i :: 0 <= i < t.c.inflight <= |t.c.out| && t.c.out[i].serial == s.c.out[j].serial
  {
    var t := Next(s, a);
    var n := s.c.out[j].serial;
    NextKeepsInv(s, a);
    InvHasBase(s);
    InvHasBase(t);
    NextKeepsTooLong(s, a, n);
    var i :| 0 <= i < |t.c.out| && t.c.out[i].serial == n;
    StartedStaysStarted(s, a, j, i);
  }

  lemma StartedStaysStarted(s: Sys, a: Action, j: nat, i: nat)
    requires Inv(s) && Enabled(s, a) && Inv(Next(s, a)) && j < s.c.inflight
    requires i < |Next(s, a).c.out| && Next(s, a).c.out[i].serial == s.c.out[j].serial
    ensures i < Next(s, a).c.inflight
  {
    hide Inv, Next, Enabled, SendOrder.Legit, SendOrder.From, Base;
    InvHasBase(s);
    InvHasBase(Next(s, a));
    var c1, sent := SendOrder.NextIsLegit(s, a);
    GrowsFrom(s.c, c1, sent, i);
    GrownStaysStarted(s.c, Next(s, a).c, j, i);
  }

  lemma GrowsFrom(c: Client, c1: Client, sent: seq<Packet>, i: nat)
    requires SendOrder.Legit(c, c1, sent) && i < |c1.out|
    ensures SendOrder.From(c, c1.out[i])
  {
  }

  lemma GrownStaysStarted(c: Client, c1: Client, j: nat, i: nat)
    requires Base(c) && Base(c1) && j < c.inflight && i < |c1.out|
    requires c1.out[i].serial == c.out[j].serial && SendOrder.From(c, c1.out[i])
    ensures i < c1.inflight
  {
    hide Window.InHeld, DistinctMids;
    assert Window.Started(c.out[j]);
    var k :| 0 <= k < |c.out| && SendOrder.Grows(c.out[k], c1.out[i]);
    assert k == j;
    assert i >= c1.inflight ==> Window.Queued(c1.out[i]);
  }
}
