/**
 Keepalive: pings, idle gaps and the two places that close a silent connection.

 `clock`, `requests` and `responses` are history: the last clock reading, and the PINGREQs sent and
 PINGRESPs received on this connection. The clock is positive and never runs backwards.
 */
module Keepalive {
  import opened Mqtt

  datatype Link = Link(
    keepalive: uint16,
    open: bool,        // sock != INVALID_SOCKET
    connected: bool,   // state == mosq_cs_connected
    lastIn: int,       // last_msg_in
    lastOut: int,      // last_msg_out
    pingT: int,        // ping_t
    lastRetry: int,    // last_retry_check
    clock: int,
    requests: nat,
    responses: nat)

  /** What can happen. The readings of one call are in the order in which it takes them. */
  datatype Event =
    | Reconnect(now: int, ok: bool)
    | Connack
    | Disconnect
    | Close
    | Input(now: int)
    | Output(now: int)
    | Pingresp
    | Misc(t0: int, t1: int, t2: int, sent: bool)  // a loop; `sent` says whether a PINGREQ could be queued

  predicate Enabled(k: Link, e: Event) {
    match e
    case Reconnect(now, _) => k.clock <= now
    case Input(now) => k.clock <= now
    case Output(now) => k.clock <= now
    case Misc(t0, t1, t2, _) => k.clock <= t0 <= t1 <= t2
    case _ => true
  }

  /** `_mosquitto_check_keepalive`, with `_mosquitto_send_pingreq`. */
  function CheckKeepalive(k: Link, t0: int, t1: int, sent: bool): Link {
    if k.keepalive == 0 || !k.open || (t0 - k.lastOut < k.keepalive && t0 - k.lastIn < k.keepalive) then k
    else if !k.connected || k.pingT != 0 then k.(open := false)
    else if sent then k.(pingT := t1, requests := k.requests + 1, lastIn := t0, lastOut := t0)
    else k.(lastIn := t0, lastOut := t0)
  }

  /** `mosquitto_loop_misc`. */
  function LoopMisc(k: Link, t0: int, t1: int, t2: int, sent: bool): (Link, Rc) {
    if !k.open then (k, NoConn)
    else
      var a := CheckKeepalive(k, t0, t1, sent);
      var b := if a.lastRetry + 1 < t2 then a.(lastRetry := t2) else a;
      if b.pingT != 0 && t2 - b.pingT >= b.keepalive then (b.(open := false), ConnLost) else (b, Success)
  }

  function Step(k: Link, e: Event): Link {
    match e
    case Reconnect(now, ok) =>
      k.(lastIn := now, lastOut := now, pingT := 0, connected := false, open := ok, clock := now, requests := 0,
        responses := 0)
    case Connack => k.(connected := true)
    case Disconnect => k.(connected := false)
    case Close => k.(open := false)
    case Input(now) => k.(lastIn := now, clock := now)
    case Output(now) => k.(lastOut := now, clock := now)
    case Pingresp => k.(pingT := 0, responses := k.responses + 1)
    case Misc(t0, t1, t2, sent) => LoopMisc(k, t0, t1, t2, sent).0.(clock := t2)
  }

  /** `es` is a run from `k` to `l`. */
  predicate Run(k: Link, es: seq<Event>, l: Link)
    decreases |es|
  {
    if es == [] then k == l else Enabled(k, es[0]) && Run(Step(k, es[0]), es[1..], l)
  }

  // ---- The calls, in place -----------------------------------------------------------------------------

  class Client {
    var keepalive: uint16
    var open: bool
    var connected: bool
    var lastIn: int
    var lastOut: int
    var pingT: int
    var lastRetry: int
    ghost var clock: int
    ghost var requests: nat
    ghost var responses: nat

    ghost function Abs(): Link
      reads this
    {
      Link(keepalive, open, connected, lastIn, lastOut, pingT, lastRetry, clock, requests, responses)
    }

    constructor (keepalive: uint16, now: int)
      ensures Abs() == Link(keepalive, false, false, now, now, 0, 0, now, 0, 0)
    {
      this.keepalive, open, connected := keepalive, false, false;
      lastIn, lastOut, pingT, lastRetry := now, now, 0, 0;
      clock, requests, responses := now, 0, 0;
    }

    /** The part of `_mosquitto_reconnect` that concerns the timers. */
    method Reconnect(now: int, ok: bool)
      modifies this
      ensures Abs() == Step(old(Abs()), Event.Reconnect(now, ok))
    {
      connected := false;
      lastIn := now;
      lastOut := now;
      pingT := 0;
      open := ok;
      clock, requests, responses := now, 0, 0;
    }

    /** `_mosquitto_send_pingreq`; `sent` says whether the packet could be queued. */
    method SendPingreq(now: int, sent: bool)
      modifies this`pingT, this`requests
      ensures if sent then pingT == now && requests == old(requests) + 1
              else pingT == old(pingT) && requests == old(requests)
    {
      if sent {
        pingT := now;
        requests := requests + 1;
      }
    }

    /** `_mosquitto_handle_pingresp`. */
    method HandlePingresp()
      modifies this
      ensures Abs() == Step(old(Abs()), Pingresp)
    {
      pingT := 0;
      responses := responses + 1;
    }

    /** `_mosquitto_check_keepalive`. */
    method KeepaliveCheck(t0: int, t1: int, sent: bool)
      modifies this
      ensures Abs() == CheckKeepalive(old(Abs()), t0, t1, sent)
      ensures open <==> old(open && (Idle(Abs(), t0) ==> connected && pingT == 0))
      ensures old(open && Idle(Abs(), t0) && connected && pingT == 0) && sent ==>
                requests == old(requests) + 1 && pingT == t1 && lastIn == lastOut == t0
      ensures !old(open && Idle(Abs(), t0)) ==> Abs() == old(Abs())
    {
      var now := t0;
      var lastMsgOut := lastOut;
      var lastMsgIn := lastIn;
      if keepalive != 0 && open && (now - lastMsgOut >= keepalive || now - lastMsgIn >= keepalive) {
        if connected && pingT == 0 {
          SendPingreq(t1, sent);
          lastIn := now;
          lastOut := now;
        } else {
          open := false;
        }
      }
    }

    /** `mosquitto_loop_misc`; `retried` says whether it ran a retry pass. */
    method Misc(t0: int, t1: int, t2: int, sent: bool) returns (rc: Rc, retried: bool)
      modifies this
      ensures Abs() == LoopMisc(old(Abs()), t0, t1, t2, sent).0 && rc == LoopMisc(old(Abs()), t0, t1, t2, sent).1
      ensures retried <==> old(open) && old(lastRetry) + 1 < t2
      ensures Answers(old(Abs()), t0, t1, t2, sent, Abs(), rc)
    {
      retried := false;
      if !open {
        return NoConn, false;
      }
      KeepaliveCheck(t0, t1, sent);
      if lastRetry + 1 < t2 {
        retried := true;
        lastRetry := t2;
      }
      if pingT != 0 && t2 - pingT >= keepalive {
        open := false;
        return ConnLost, retried;
      }
      return Success, retried;
    }
  }

  // ---- Results -----------------------------------------------------------------------------------------

  /** Nothing has been sent, or nothing has been received, for the keepalive time. */
  predicate Idle(k: Link, now: int) {
    k.keepalive > 0 && (now >= k.lastOut + k.keepalive || now >= k.lastIn + k.keepalive)
  }

  /**
   What a periodic call does, by cases. An idle, established connection with no open ping gets a PINGREQ,
   and both gaps start again; any other idle connection is closed; and so is one whose ping is too old.
   */
  predicate Answers(k: Link, t0: int, t1: int, t2: int, sent: bool, l: Link, rc: Rc) {
    var probed := Idle(k, t0) && k.connected && k.pingT == 0;
    var overdue := l.pingT != 0 && t2 >= l.pingT + k.keepalive;
    if !k.open then l == k && rc == NoConn
    else
      && l.requests == k.requests + (if probed && sent then 1 else 0)
      && l.pingT == (if probed && sent then t1 else k.pingT)
      && (if probed then l.lastIn == l.lastOut == t0 else l.lastIn == k.lastIn && l.lastOut == k.lastOut)
      && (l.open <==> (Idle(k, t0) ==> probed) && !overdue)
      && rc == (if overdue then ConnLost else Success)
      && l == k.(open := l.open, lastIn := l.lastIn, lastOut := l.lastOut, pingT := l.pingT, requests := l.requests,
                 lastRetry := if k.lastRetry + 1 < t2 then t2 else k.lastRetry)
  }

  /**
   A loop that leaves the socket open leaves both idle gaps, at its first clock reading, and the age
   of an unanswered ping, at its last one, below the keepalive time.
   */
  lemma OpenMeansFresh(k: Link, t0: int, t1: int, t2: int, sent: bool)
    requires k.keepalive > 0 && t0 <= t1 <= t2 && LoopMisc(k, t0, t1, t2, sent).0.open
    ensures var l := LoopMisc(k, t0, t1, t2, sent).0;
            t0 - l.lastOut < l.keepalive && t0 - l.lastIn < l.keepalive && (l.pingT != 0 ==> t2 - l.pingT < l.keepalive)
  {
  }

  /** An unanswered ping accounts for the one PINGREQ that may be ahead of the PINGRESPs. */
  predicate Balanced(k: Link) {
    k.clock > 0 && k.requests <= k.responses + (if k.pingT != 0 then 1 else 0)
  }

  /** On every connection of every run, PINGREQs are at most one more than PINGRESPs. */
  lemma {:induction false} PingsWaitForAnswers(k: Link, es: seq<Event>, l: Link)
    requires Balanced(k) && Run(k, es, l)
    ensures Balanced(l) && l.requests <= l.responses + 1
    decreases |es|
  {
    if es != [] {
      assert Balanced(Step(k, es[0]));
      PingsWaitForAnswers(Step(k, es[0]), es[1..], l);
    }
  }

  // ---- A silent peer -------------------------------------------------------------------------------------

  /** Nothing arrives, PINGREQs can be queued, and a loop ends at most `d` after the one before. */
  predicate Silent(k: Link, e: Event, last: int, d: int) {
    match e
    case Output(_) => true
    case Close => true
    case Misc(_, _, t2, sent) => sent && t2 <= last + d
    case _ => false
  }

  predicate SilentRun(k: Link, es: seq<Event>, last: int, d: int, l: Link, end: int)
    decreases |es|
  {
    if es == [] then k == l && end == last
    else Enabled(k, es[0]) && Silent(k, es[0], last, d)
         && SilentRun(Step(k, es[0]), es[1..], if es[0].Misc? then es[0].t2 else last, d, l, end)
  }

  /**
   While the peer has been silent since `from`, an open connection is waiting for its ping, or close to
   sending it.
   */
  predicate Waiting(k: Link, from: int, last: int, d: int) {
    k.open ==>
      && k.keepalive > 0 && k.connected
      && if k.pingT == 0 then last < from + k.keepalive + d && k.lastIn <= from
         else k.pingT < from + k.keepalive + 2 * d && last < k.pingT + k.keepalive
  }

  lemma {:induction false} WaitingLasts(k: Link, es: seq<Event>, from: int, last: int, d: int, l: Link, end: int)
    requires Waiting(k, from, last, d) && SilentRun(k, es, last, d, l, end) && 0 < from <= last <= k.clock && d >= 0
    ensures Waiting(l, from, end, d) && l.keepalive == k.keepalive
    decreases |es|
  {
    if es != [] {
      var e := es[0];
      assert Waiting(Step(k, e), from, if e.Misc? then e.t2 else last, d);
      WaitingLasts(Step(k, e), es[1..], from, if e.Misc? then e.t2 else last, d, l, end);
    }
  }

  /**
   A peer that falls silent is noticed: after two keepalive times and two loop periods without a
   packet from it, the socket is closed.
   */
  lemma SilenceIsNoticed(k: Link, es: seq<Event>, d: int, l: Link, end: int)
    requires k.connected && k.keepalive > 0 && k.pingT == 0 && 0 < k.clock && k.lastIn <= k.clock && d >= 0
    requires SilentRun(k, es, k.clock, d, l, end) && end >= k.clock + 2 * k.keepalive + 2 * d
    ensures !l.open
  {
    WaitingLasts(k, es, k.clock, k.clock, d, l, end);
  }

  // ---- A peer that answers -------------------------------------------------------------------------------

  /**
   The connection as its events show it: whether CONNACK has come and no disconnect since; the ping that has
   no answer yet, by the reading that found the gap and the one taken for the ping, or 0; and where the two
   gaps begin.
   */
  datatype Watch = Watch(acked: bool, found: int, asked: int, lastIn: int, lastOut: int)

  predicate Gap(w: Watch, keepalive: uint16, now: int) {
    keepalive > 0 && (now >= w.lastIn + keepalive || now >= w.lastOut + keepalive)
  }

  function Watched(w: Watch, keepalive: uint16, e: Event): Watch {
    match e
    case Connack => w.(acked := true)
    case Disconnect => w.(acked := false)
    case Input(now) => w.(lastIn := now)
    case Output(now) => w.(lastOut := now)
    case Pingresp => w.(found := 0, asked := 0)
    case Misc(t0, t1, _, sent) =>
      if !Gap(w, keepalive, t0) then w
      else if sent then Watch(w.acked, t0, t1, t0, t0)
      else w.(lastIn := t0, lastOut := t0)
    case _ => w
  }

  /** A gap before CONNACK or while a ping is open, or a ping that is too old. */
  predicate Trouble(w: Watch, keepalive: uint16, e: Event) {
    && e.Misc?
    && var v := Watched(w, keepalive, e);
       (Gap(w, keepalive, e.t0) && (!w.acked || w.asked != 0)) || (v.asked != 0 && e.t2 >= v.asked + keepalive)
  }

  predicate NoTrouble(w: Watch, keepalive: uint16, es: seq<Event>)
    decreases |es|
  {
    es == [] || (!Trouble(w, keepalive, es[0]) && NoTrouble(Watched(w, keepalive, es[0]), keepalive, es[1..]))
  }

  /** Nobody closes the socket or starts a new connection. */
  predicate LeftAlone(es: seq<Event>) {
    forall i :: 0 <= i < |es| ==> !es[i].Reconnect? && !es[i].Close?
  }

  /** The gaps that could be answered by a PINGREQ. */
  function Pings(w: Watch, keepalive: uint16, es: seq<Event>): nat
    decreases |es|
  {
    if es == [] then 0
    else (if es[0].Misc? && es[0].sent && Gap(w, keepalive, es[0].t0) then 1 else 0)
         + Pings(Watched(w, keepalive, es[0]), keepalive, es[1..])
  }

  predicate Agrees(k: Link, w: Watch) {
    && k.open && k.connected == w.acked && k.pingT == w.asked && k.lastIn == w.lastIn && k.lastOut == w.lastOut
    && k.clock > 0
  }

  lemma {:induction false} ClosedStaysClosed(k: Link, es: seq<Event>, l: Link)
    requires Run(k, es, l) && LeftAlone(es) && !k.open
    ensures !l.open
    decreases |es|
  {
    if es != [] {
      ClosedStaysClosed(Step(k, es[0]), es[1..], l);
    }
  }

  lemma WatchedStep(k: Link, w: Watch, e: Event)
    requires Agrees(k, w) && Enabled(k, e) && LeftAlone([e])
    ensures var l := Step(k, e);
            && l.keepalive == k.keepalive
            && (if Trouble(w, k.keepalive, e) then !l.open
                else Agrees(l, Watched(w, k.keepalive, e)) && l.requests == k.requests + Pings(w, k.keepalive, [e]))
  {
    assert LeftAlone([e]) ==> ![e][0].Reconnect? && ![e][0].Close?;
  }

  lemma {:induction false} AgreesLasts(k: Link, w: Watch, es: seq<Event>, l: Link)
    requires Agrees(k, w) && Run(k, es, l) && LeftAlone(es)
    ensures l.open <==> NoTrouble(w, k.keepalive, es)
    ensures l.open ==> l.requests == k.requests + Pings(w, k.keepalive, es)
    decreases |es|
  {
    if es != [] {
      WatchedStep(k, w, es[0]);
      assert Pings(w, k.keepalive, [es[0]])
          == if es[0].Misc? && es[0].sent && Gap(w, k.keepalive, es[0].t0) then 1 else 0;
      hide Step, Trouble, Agrees, Watched, Enabled;
      if Trouble(w, k.keepalive, es[0]) {
        ClosedStaysClosed(Step(k, es[0]), es[1..], l);
      } else {
        AgreesLasts(Step(k, es[0]), Watched(w, k.keepalive, es[0]), es[1..], l);
      }
    }
  }

  /**
   A connection that nobody closes stays open exactly if there is no gap before CONNACK or after a disconnect,
   no gap while a ping is open, and no reading finds a ping as old as the keepalive time. Until then it sends
   one PINGREQ for each gap, as far as they can be queued.
   */
  lemma StaysOpenIff(k: Link, now: int, es: seq<Event>, l: Link)
    requires now > 0 && Run(k, [Event.Reconnect(now, true)] + es, l) && LeftAlone(es)
    ensures var w := Watch(false, 0, 0, now, now);
            && (l.open <==> NoTrouble(w, k.keepalive, es))
            && (l.open ==> l.requests == Pings(w, k.keepalive, es))
  {
    var all := [Event.Reconnect(now, true)] + es;
    assert all[0] == Event.Reconnect(now, true) && all[1..] == es;
    AgreesLasts(Step(k, all[0]), Watch(false, 0, 0, now, now), es, l);
  }

  /** CONNACK comes before the first gap, and pings are answered within the keepalive time of finding the gap. */
  predicate Prompt(w: Watch, keepalive: uint16, es: seq<Event>)
    decreases |es|
  {
    if es == [] then true
    else
      var v := Watched(w, keepalive, es[0]);
      && (es[0].Misc? ==>
            && (Gap(w, keepalive, es[0].t0) ==> w.acked)
            && (w.asked != 0 ==> es[0].t2 < w.found + keepalive)
            && (v.asked != 0 ==> es[0].t2 < v.found + keepalive))
      && Prompt(v, keepalive, es[1..])
  }

  lemma {:induction false} PromptIsNoTrouble(k: Link, w: Watch, es: seq<Event>, l: Link)
    requires Run(k, es, l) && LeftAlone(es) && Prompt(w, k.keepalive, es)
    requires w.asked != 0 ==> w.found <= w.asked && w.found <= w.lastIn && w.found <= w.lastOut && w.found <= k.clock
    ensures NoTrouble(w, k.keepalive, es)
    decreases |es|
  {
    if es != [] {
      PromptIsNoTrouble(Step(k, es[0]), Watched(w, k.keepalive, es[0]), es[1..], l);
    }
  }

  /**
   A peer that answers keeps the connection: if CONNACK comes before the first gap, and every PINGREQ is
   answered before a reading comes that is later by the keepalive time than the one that found the gap,
   only a close or a reconnect ends the connection.
   */
  lemma AnsweringKeepsOpen(k: Link, now: int, es: seq<Event>, l: Link)
    requires now > 0 && Run(k, [Event.Reconnect(now, true)] + es, l) && LeftAlone(es)
    requires Prompt(Watch(false, 0, 0, now, now), k.keepalive, es)
    ensures l.open
  {
    var all := [Event.Reconnect(now, true)] + es;
    assert all[0] == Event.Reconnect(now, true) && all[1..] == es;
    PromptIsNoTrouble(Step(k, all[0]), Watch(false, 0, 0, now, now), es, l);
    StaysOpenIff(k, now, es, l);
  }

  /**
   The time of the ping itself is no measure: here keepalive is 10, and the connection is closed 5 after the
   ping, because the next loop finds a gap 10 after the reading that found the first one.
   */
  lemma PingTimeIsNoMeasure()
    ensures var es := [Connack, Misc(100, 105, 105, true), Misc(110, 110, 110, true)];
            var k := Link(10, true, false, 90, 90, 0, 0, 90, 0, 0);
            exists l :: Run(k, es, l) && LeftAlone(es) && !l.open && l.requests == 1 && l.pingT == 105 == l.clock - 5
  {
    var es := [Connack, Misc(100, 105, 105, true), Misc(110, 110, 110, true)];
    var k := Link(10, true, false, 90, 90, 0, 0, 90, 0, 0);
    var a := Step(k, es[0]);
    var b := Step(a, es[1]);
    var l := Step(b, es[2]);
    assert es[1..] == [es[1], es[2]] && es[1..][1..] == [es[2]] && es[1..][1..][1..] == [];
    assert Run(l, [], l) && Run(b, [es[2]], l) && Run(a, [es[1], es[2]], l);
  }
}
