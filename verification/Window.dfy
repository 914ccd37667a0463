/**
 The in-flight window: which messages of the outgoing list are on the wire.

 With a constant `max_inflight_messages` and acknowledgements that name in-flight
 messages, the list is always a prefix of waiting messages followed by a suffix of
 queued ones, and `inflight_messages` is the length of the prefix.
 */
module Window {
  import opened Mqtt
  import opened Engine

  /** State of a message that has been let into the window. */
  predicate Started(m: Msg) {
    if m.qos == 1 then m.state == WaitForPuback
    else m.qos == 2 && (m.state == WaitForPubrec || m.state == WaitForPubcomp)
  }

  /** State of a message still waiting for room. */
  predicate Queued(m: Msg) {
    m.qos > 0 && m.state == Invalid && !m.dup
  }

  predicate Shape(ms: seq<Msg>, n: int) {
    && 0 <= n <= |ms|
    && (forall i :: 0 <= i < n ==> Started(ms[i]))
    && (forall i :: n <= i < |ms| ==> Queued(ms[i]))
  }

  function Width(max: nat, len: nat): nat {
    if max == 0 then len else Min(max, len)
  }

  predicate Holds(c: Client) {
    Shape(c.out, c.inflight) && c.inflight == Width(c.max, |c.out|)
  }

  function Promoted(m: Msg): Msg {
    m.(state := FirstState(m.qos, Invalid))
  }

  /** With room for one more, promotion lets in exactly the first queued message, if there is one. */
  lemma {:induction false} PromoteExactlyOne(ms: seq<Msg>, k: nat, n: nat, max: nat)
    requires Shape(ms, k) && (k < |ms| ==> n + 1 == max)
    ensures var p := Promote(ms, n, max, true);
            if k < |ms| then
              var m := Promoted(ms[k]);
              var (sent, rc) := SendPublish(true, m);
              p == Promotion(ms[k := m], n + 1, sent, rc)
            else p == Promotion(ms, n, [], Success)
    decreases |ms|
  {
    hide SendPublish;
    if ms == [] || !Room(max, n) {
    } else if k == 0 {
      var rest := Promote(ms[1..], n + 1, max, true);
      assert rest == Promotion(ms[1..], n + 1, [], Success);
      assert ms[0 := Promoted(ms[0])] == [Promoted(ms[0])] + ms[1..];
      assert SendPublish(true, Promoted(ms[0])).0 + [] == SendPublish(true, Promoted(ms[0])).0;
    } else {
      assert Started(ms[0]);
      PromoteExactlyOne(ms[1..], k - 1, n, max);
      assert ms == [ms[0]] + ms[1..];
      if k < |ms| {
        assert ms[k := Promoted(ms[k])] == [ms[0]] + ms[1..][k - 1 := Promoted(ms[k])];
      }
    }
  }

  lemma WithoutAt(ms: seq<Msg>, k: nat)
    requires k < |ms|
    ensures |Without(ms, k)| == |ms| - 1
    ensures forall i :: 0 <= i < |ms| - 1 ==> Without(ms, k)[i] == ms[if i < k then i else i + 1]
  {
  }

  lemma WithoutShape(ms: seq<Msg>, n: int, k: nat)
    requires Shape(ms, n) && k < |ms|
    ensures Shape(Without(ms, k), if k < n then n - 1 else n)
  {
    hide Without, Started, Queued;
    WithoutAt(ms, k);
  }

  lemma PromotedShape(ms: seq<Msg>, n: nat)
    requires Shape(ms, n) && n < |ms|
    ensures Shape(ms[n := Promoted(ms[n])], n + 1)
  {
    assert Queued(ms[n]) && Started(Promoted(ms[n]));
    hide Started, Queued;
  }

  /** What `_mosquitto_message_remove` does to a list in window shape, in closed form. */
  lemma RemoveSlidesWindow(c: Client, k: nat)
    requires Holds(c) && c.connected && k < c.inflight && Find(c.out, c.out[k].mid) == k
    ensures var (c1, sent, rc) := RemoveOut(c, c.out[k].mid);
            && Holds(c1)
            && (if c.inflight < |c.out| then
                  var m := Promoted(c.out[c.inflight]);
                  c1 == c.(out := Without(c.out, k)[c.inflight - 1 := m]) && (sent, rc) == SendPublish(true, m)
                else c1 == c.(out := Without(c.out, k), inflight := c.inflight - 1) && (sent, rc) == ([], Success))
  {
    hide Promote, Without, Queued, SendPublish, FirstState;
    var rest := Without(c.out, k);
    WithoutAt(c.out, k);
    WithoutShape(c.out, c.inflight, k);
    assert Started(c.out[k]);
    PromoteExactlyOne(rest, c.inflight - 1, c.inflight - 1, c.max);
    if c.inflight < |c.out| {
      PromotedShape(rest, c.inflight - 1);
    }
  }

  /**
   An acknowledgement keeps the window exactly if it names an in-flight message. One that names a
   queued message lets one message too many in, or leaves `inflight_messages` one too small.
   */
  lemma RemoveKeepsWindowIff(c: Client, k: nat)
    requires Holds(c) && c.connected && k < |c.out| && Find(c.out, c.out[k].mid) == k
    ensures Holds(RemoveOut(c, c.out[k].mid).0) <==> k < c.inflight
  {
    if k < c.inflight {
      RemoveSlidesWindow(c, k);
    } else {
      var rest := Without(c.out, k);
      WithoutAt(c.out, k);
      WithoutShape(c.out, c.inflight, k);
      PromoteExactlyOne(rest, c.inflight, c.inflight - 1, c.max);
      var c1 := RemoveOut(c, c.out[k].mid).0;
      if c.inflight < |rest| {
        assert c1.inflight == c.inflight && !Queued(c1.out[c.inflight]);
      } else {
        assert c1.inflight == c.inflight - 1 && |c1.out| == c.inflight == c.max;
      }
    }
  }

  lemma PublishKeepsWindow(c: Client, app: AppMessage, qos: int, now: int)
    requires Holds(c)
    ensures Holds(DoPublish(c, app, qos, now).c)
  {
  }

  lemma PubrecKeepsWindow(c: Client, k: nat, now: int)
    requires Holds(c) && k < c.inflight && c.out[k].qos == 2 && Find(c.out, c.out[k].mid) == k
    ensures Holds(DoPubrec(c, c.out[k].mid, now).c)
  {
  }

  lemma RetryOneKeepsPlace(m: Msg, connected: bool, retry: nat, now: int)
    ensures var m1 := RetryOne(m, connected, retry, now).0;
            (Started(m) ==> Started(m1)) && (Queued(m) ==> m1 == m) && m1.app == m.app && m1.qos == m.qos
  {
  }

  lemma RetryKeepsWindow(c: Client, now: int)
    requires Holds(c)
    ensures Holds(DoRetry(c, now).c)
  {
    hide RetryOne, Started, Queued;
    forall i | 0 <= i < |c.out|
      ensures var m1 := DoRetry(c, now).c.out[i];
              (Started(c.out[i]) ==> Started(m1)) && (Queued(c.out[i]) ==> m1 == c.out[i])
              && m1.app == c.out[i].app && m1.qos == c.out[i].qos
    {
      RetryOneKeepsPlace(c.out[i], c.connected, c.retry, now);
    }
  }

  lemma {:induction false} ResetShape(ms: seq<Msg>, n: nat, inflight: nat, max: nat)
    requires Shape(ms, n)
    requires if max == 0 then n == |ms| else inflight <= max && n == Min(max - inflight, |ms|)
    ensures ResetOut(ms, inflight, max) == (Untimed(ms), inflight + n)
    decreases |ms|
  {
    if ms != [] {
      if Room(max, inflight) {
        assert Started(ms[0]);
        ResetShape(ms[1..], n - 1, inflight + 1, max);
      } else {
        assert Queued(ms[0]);
        ResetShape(ms[1..], 0, inflight, max);
      }
      assert Untimed(ms) == [ms[0].(timestamp := 0)] + Untimed(ms[1..]);
    }
  }

  /** A reconnect leaves the outgoing list as it was, apart from the timestamps. */
  lemma ReconnectOnlyClearsTimestamps(c: Client, ok: bool)
    requires Holds(c)
    ensures DoReconnect(c, ok) == c.(out := Untimed(c.out), inq := Untimed(c.inq), connected := ok)
    ensures Holds(DoReconnect(c, ok))
  {
    ResetShape(c.out, c.inflight, 0, c.max);
  }

  /** The packet that asks the broker again about a message in the window. */
  function Reminder(m: Msg): Packet {
    if m.state == WaitForPubcomp then Pubrel(m.serial, m.mid, 2) else ToPublish(m.(dup := true))
  }

  /** A PUBREL can always be sent, a PUBLISH only if its length can be encoded. */
  predicate CanRemind(m: Msg) {
    m.state == WaitForPubcomp || Fits(m.app, m.qos)
  }

  function Reminders(ms: seq<Msg>): seq<Packet> {
    if ms == [] then [] else (if CanRemind(ms[0]) then [Reminder(ms[0])] else []) + Reminders(ms[1..])
  }

  lemma RetryOneReminds(m: Msg, retry: nat, now: int)
    ensures Started(m) && m.timestamp + retry < now ==>
              RetryOne(m, true, retry, now).1 == if CanRemind(m) then [Reminder(m)] else []
    ensures Queued(m) ==> RetryOne(m, true, retry, now).1 == []
  {
  }

  lemma {:induction false} RemindersUntimed(ms: seq<Msg>)
    ensures Reminders(Untimed(ms)) == Reminders(ms)
  {
    if ms != [] {
      assert Untimed(ms)[1..] == Untimed(ms[1..]);
      RemindersUntimed(ms[1..]);
    }
  }

  lemma {:induction false} RetryAllReminds(ms: seq<Msg>, n: nat, retry: nat, now: int)
    requires Shape(ms, n)
    requires forall i :: 0 <= i < n ==> ms[i].timestamp + retry < now
    ensures RetryAll(ms, true, retry, now).1 == Reminders(ms[..n])
    decreases |ms|
  {
    hide RetryOne, Reminder, CanRemind, Started, Queued;
    if ms != [] {
      RetryOneReminds(ms[0], retry, now);
      if n == 0 {
        assert Queued(ms[0]);
        RetryAllReminds(ms[1..], 0, retry, now);
        assert ms[1..][..0] == ms[..0];
      } else {
        assert Started(ms[0]);
        RetryAllReminds(ms[1..], n - 1, retry, now);
        assert ms[..n][1..] == ms[1..][..n - 1];
      }
    }
  }

  /** The incoming list holds nothing but QoS 2 messages that wait for their PUBREL. */
  predicate InHeld(ms: seq<Msg>) {
    forall i :: 0 <= i < |ms| ==> ms[i].qos == 2 && ms[i].state == WaitForPubrel
  }

  lemma {:induction false} RetryAllIn(ms: seq<Msg>, retry: nat, now: int)
    requires InHeld(ms) && forall i :: 0 <= i < |ms| ==> ms[i].timestamp + retry < now
    ensures RetryAll(ms, true, retry, now).1 == seq(|ms|, i requires 0 <= i < |ms| => Pubrec(ms[i].mid))
  {
    if ms != [] {
      RetryAllIn(ms[1..], retry, now);
    }
  }

  /**
   After a reconnect, the first retry pass late enough sends one packet per in-flight message
   in publish order, except for a PUBLISH too long to be sent; nothing for queued messages; and one
   PUBREC per incoming message.
   */
  lemma FirstRetryAfterReconnect(c: Client, now: int)
    requires Holds(c) && InHeld(c.inq) && c.retry < now
    ensures var r := DoRetry(DoReconnect(c, true), now);
            r.sent == Reminders(c.out[..c.inflight]) + seq(|c.inq|, i requires 0 <= i < |c.inq| => Pubrec(c.inq[i].mid))
  {
    ReconnectOnlyClearsTimestamps(c, true);
    var c1 := DoReconnect(c, true);
    RetryAllReminds(c1.out, c1.inflight, c.retry, now);
    RetryAllIn(c1.inq, c.retry, now);
    assert c1.out[..c1.inflight] == Untimed(c.out[..c.inflight]);
    RemindersUntimed(c.out[..c.inflight]);
    assert seq(|c.inq|, i requires 0 <= i < |c.inq| => Pubrec(c.inq[i].mid))
      == seq(|c1.inq|, i requires 0 <= i < |c1.inq| => Pubrec(c1.inq[i].mid));
  }
}
