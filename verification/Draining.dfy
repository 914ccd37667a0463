/**
 Schedules that lose nothing: every message gets through, and how soon.

 Messages too long for a packet are excluded here: module Oversized shows what becomes of them.
 */
module Draining {
  import opened Delivery
  import opened Engine
  import opened Mqtt
  import opened Progress
  import MessageIds
  import SendOrder
  import Topics
  import Window

  // ---- Nothing is lost -------------------------------------------------------------------------------

  predicate AllFit(ms: seq<Msg>) {
    forall i :: 0 <= i < |ms| ==> Fits(ms[i].app, ms[i].qos)
  }

  /** A publish above QoS 0 has a packet length that can be encoded. */
  predicate Fitting(a: Action) {
    a.AppPublish? && 1 <= a.qos <= 2 ==> Fits(a.app, a.qos)
  }

  lemma FittingKeepsAllFit(s: Sys, a: Action)
    requires Inv(s) && Enabled(s, a) && Fitting(a) && AllFit(s.c.out)
    ensures AllFit(Next(s, a).c.out)
  {
    hide Inv, Fits, DoPublish, DoReceive, DoRetry, DoReconnect;
    var c1, sent := SendOrder.NextIsLegit(s, a);
    forall j | 0 <= j < |c1.out| ensures Fits(c1.out[j].app, c1.out[j].qos) {
      assert SendOrder.From(s.c, c1.out[j]);
      if c1.out[j].serial == s.c.published {
        NewestIsPublished(s, a, j);
      }
    }
  }

  /** A message with the newest serial is the one just published. */
  lemma NewestIsPublished(s: Sys, a: Action, j: nat)
    requires Inv(s) && Enabled(s, a) && j < |Next(s, a).c.out| && Next(s, a).c.out[j].serial == s.c.published
    ensures var m := Next(s, a).c.out[j];
            a.AppPublish? && 1 <= a.qos <= 2 && m.app == a.app && m.qos == a.qos
  {
    InvHasBase(s);
    NextKeepsInv(s, a);
    InvHasBase(Next(s, a));
    hide Inv, DoPublish, DoReceive, DoRetry, DoReconnect;
    var c1, sent := SendOrder.NextIsLegit(s, a);
    if a.AppPublish? {
      PublishQueuesOne(s.c, a.app, a.qos, a.now);
    }
  }

  /** The message with this serial is still in the list or has been reported through on_publish. */
  ghost predicate Accounted(s: Sys, serial: nat) {
    Listed(s, serial) || Announced(s, serial)
  }

  ghost predicate Listed(s: Sys, serial: nat) {
    exists i :: 0 <= i < |s.c.out| && s.c.out[i].serial == serial
  }

  ghost predicate Announced(s: Sys, serial: nat) {
    exists i :: 0 <= i < |s.done| && s.done[i].serial == serial
  }

  /** Every publish above QoS 0 is accounted for. */
  ghost predicate AllAccounted(s: Sys) {
    forall n :: 0 <= n < |s.issued| && 1 <= s.issued[n].qos <= 2 ==> Accounted(s, n)
  }

  lemma AckKeepsAccounted(s: Sys, k: nat, t: Sys, serial: nat)
    requires Window.Holds(s.c) && Accounted(s, serial) && (k < |s.c.out| ==> k < s.c.inflight) && NextCanBeSent(s.c)
    requires exists o :: AckResult(s.c, k, o) && t.c.out == o.c.out && t.done == s.done + o.onPublish
    ensures Accounted(t, serial)
  {
    var o :| AckResult(s.c, k, o) && t.c.out == o.c.out && t.done == s.done + o.onPublish;
    if j :| 0 <= j < |s.c.out| && s.c.out[j].serial == serial {
      if k >= |s.c.out| {
        assert t.c.out[j].serial == serial;
      } else {
        SlidList(s.c, k, t.c.out);
        if j == k {
          assert t.done[|s.done|].serial == serial;
        } else {
          assert t.c.out[if j < k then j else j - 1].serial == serial;
        }
      }
    } else {
      var i :| 0 <= i < |s.done| && s.done[i].serial == serial;
      assert t.done[i].serial == serial;
    }
  }

  /** Steps other than the handling of a PUBACK or PUBCOMP remove nothing from the list. */
  lemma QuietKeepsListed(s: Sys, a: Action, serial: nat)
    requires Inv(s) && Enabled(s, a) && Accounted(s, serial)
    requires a.Deliver? ==> !s.down[0].Puback? && !s.down[0].Pubcomp?
    ensures Accounted(Next(s, a), serial)
  {
    InvHasBase(s);
    var t := Next(s, a);
    QuietKeepsSerials(s, a);
    hide Inv, Next;
    if j :| 0 <= j < |s.c.out| && s.c.out[j].serial == serial {
      assert t.c.out[j].serial == serial;
    } else {
      var i :| 0 <= i < |s.done| && s.done[i].serial == serial;
      assert t.done[i].serial == serial;
    }
  }

  lemma QuietKeepsSerials(s: Sys, a: Action)
    requires Base(s.c) && Enabled(s, a) && (a.Deliver? ==> !s.down[0].Puback? && !s.down[0].Pubcomp?)
    ensures var t := Next(s, a);
            && |s.c.out| <= |t.c.out| && s.done <= t.done
            && forall i :: 0 <= i < |s.c.out| ==> t.c.out[i].serial == s.c.out[i].serial
  {
    hide DoPublish, RetryAll, ResetOut, Base;
    match a
    case AppPublish(app, qos, now) => PublishQueuesOne(s.c, app, qos, now);
    case Reconnect(ok) => Window.ReconnectOnlyClearsTimestamps(s.c, ok) by { WindowOfBase(s.c); }
    case _ =>
  }

  lemma WindowOfBase(c: Client)
    requires Base(c)
    ensures Window.Holds(c) && DistinctMids(c.out)
  {
  }

  lemma NextKeepsAccounted(s: Sys, a: Action, serial: nat)
    requires Inv(s) && Enabled(s, a) && Accounted(s, serial) && AllFit(s.c.out)
    ensures Accounted(Next(s, a), serial)
  {
    hide Accounted, DoPubackcomp;
    if a.Deliver? && (s.down[0].Puback? || s.down[0].Pubcomp?) {
      InvHasBase(s);
      AckOutcome(s);
      hide Inv;
      AckKeepsAccounted(s, Find(s.c.out, s.down[0].mid), Next(s, a), serial);
    } else {
      QuietKeepsListed(s, a, serial);
    }
  }

  /** A new message is in the list. */
  lemma NewIsListed(s: Sys, a: Action)
    requires Inv(s) && Enabled(s, a) && a.AppPublish? && 1 <= a.qos <= 2 && |s.issued| == s.c.published
    ensures |Next(s, a).issued| == |s.issued| || Listed(Next(s, a), s.c.published)
  {
    hide Inv;
    var t := Next(s, a);
    PublishEnlists(s.c, a.app, a.qos, a.now);
    if |t.issued| > |s.issued| {
      assert t.c.out[|s.c.out|].serial == s.c.published;
    }
  }

  lemma PublishEnlists(c: Client, app: AppMessage, qos: int, now: int)
    requires 1 <= qos <= 2
    ensures var o := DoPublish(c, app, qos, now);
            o.c.published == c.published || (|o.c.out| == |c.out| + 1 && o.c.out[|c.out|].serial == c.published)
  {
    hide Topics.ValidTopic, SendPublish;
  }

  lemma NextKeepsAllAccounted(s: Sys, a: Action)
    requires Inv(s) && Enabled(s, a) && AllAccounted(s) && AllFit(s.c.out) && |s.issued| == s.c.published
    ensures AllAccounted(Next(s, a))
  {
    hide Accounted, Inv, DoPublish;
    var t := Next(s, a);
    forall n | 0 <= n < |t.issued| && 1 <= t.issued[n].qos <= 2 ensures Accounted(t, n) {
      if n < |s.issued| {
        NextKeepsAccounted(s, a, n);
      } else {
        NewIsListed(s, a);
        ListedIsAccounted(t, n);
      }
    }
  }

  lemma ListedIsAccounted(s: Sys, n: nat)
    requires Listed(s, n)
    ensures Accounted(s, n)
  {
  }

  ghost predicate Sane(s: Sys) {
    SendOrder.All(s) && AllFit(s.c.out) && AllAccounted(s)
  }

  lemma {:induction false} RunKeepsSane(s: Sys, acts: seq<Action>, t: Sys)
    requires Sane(s) && Run(s, acts, t) && forall i :: 0 <= i < |acts| ==> Fitting(acts[i])
    ensures Sane(t)
    decreases |acts|
  {
    hide Inv, AllFit, AllAccounted, Next, Fitting, SendOrder.LogInv;
    if acts != [] {
      assert Fitting(acts[0]);
      SendOrder.RunKeepsAll(s, [acts[0]], Next(s, acts[0]));
      FittingKeepsAllFit(s, acts[0]);
      NextKeepsAllAccounted(s, acts[0]);
      RunKeepsSane(Next(s, acts[0]), acts[1..], t);
    }
  }

  /**
   No message is lost, whatever connections do: in every run whose messages fit into packets, each
   publish above QoS 0 is in the list or has been reported.
   */
  lemma NoMessageIsLost(s: Sys, acts: seq<Action>, t: Sys, n: nat)
    requires Init(s) && Run(s, acts, t) && forall i :: 0 <= i < |acts| ==> Fitting(acts[i])
    requires n < |t.issued| && 1 <= t.issued[n].qos <= 2
    ensures (exists i :: 0 <= i < |t.c.out| && t.c.out[i].serial == n)
            || (exists i :: 0 <= i < |t.done| && t.done[i].serial == n)
  {
    SendOrder.Reach(s, [], s);
    RunKeepsSane(s, acts, t);
    assert Accounted(t, n);
  }

  // ---- Potential -------------------------------------------------------------------------------------

  /** Steps that only move packets: the broker takes one, or the client does. */
  predicate Moves(a: Action) {
    a.BrokerTake? || a.Deliver?
  }

  function Weight(p: Packet, toBroker: bool): nat {
    if toBroker then
      match p
      case Publish(_, _, qos, _, _) => if qos == 0 then 1 else 4
      case Pubrel(_, _, _) => 2
      case _ => 1
    else
      match p
      case Pubrec(_) => 3
      case Publish(_, _, _, _, _) => 2
      case Pubrel(_, _, _) => 2
      case _ => 1
  }

  function Load(ch: seq<Packet>, toBroker: bool): nat {
    if ch == [] then 0 else Weight(ch[0], toBroker) + Load(ch[1..], toBroker)
  }

  function Waiting(ms: seq<Msg>, n: int): nat {
    if 0 <= n <= |ms| then |ms| - n else 0
  }

  /** Bounds the number of packet movements still possible if nothing is lost and nothing is added. */
  function Potential(s: Sys): nat {
    5 * Waiting(s.c.out, s.c.inflight) + Load(s.up, true) + Load(s.down, false)
  }

  lemma {:induction false} LoadAppend(a: seq<Packet>, b: seq<Packet>, toBroker: bool)
    ensures Load(a + b, toBroker) == Load(a, toBroker) + Load(b, toBroker)
  {
    if a == [] {
      assert a + b == b;
    } else {
      var ab := a + b;
      assert Load(ab, toBroker) == Weight(a[0], toBroker) + Load(ab[1..], toBroker);
      assert Load(a, toBroker) == Weight(a[0], toBroker) + Load(a[1..], toBroker);
      hide Load, Weight;
      assert ab[1..] == a[1..] + b;
      LoadAppend(a[1..], b, toBroker);
    }
  }

  lemma TakeLowersPotential(s: Sys)
    requires s.up != []
    ensures Potential(Take(s)) < Potential(s)
  {
    var t := Take(s);
    LoadAppend(s.down, t.down[|s.down|..], false);
    assert t.down == s.down + t.down[|s.down|..];
  }

  lemma AckLowersPotential(s: Sys)
    requires Inv(s) && s.c.connected && s.down != [] && (s.down[0].Puback? || s.down[0].Pubcomp?)
    ensures Potential(Delivered(s, DoPubackcomp(s.c, s.down[0].mid))) < Potential(s)
  {
    AckOutcome(s);
    hide DoPubackcomp, MidInv;
    LoadAppend(s.up, DoPubackcomp(s.c, s.down[0].mid).sent, true);
  }

  lemma OtherLowersPotential(s: Sys, now: int)
    requires s.down != [] && !s.down[0].Puback? && !s.down[0].Pubcomp?
    ensures Potential(Delivered(s, DoReceive(s.c, s.down[0], now))) < Potential(s)
  {
    LoadAppend(s.up, DoReceive(s.c, s.down[0], now).sent, true);
  }

  lemma DeliverLowersPotential(s: Sys, now: int)
    requires Inv(s) && Enabled(s, Deliver(now))
    ensures Potential(Next(s, Deliver(now))) < Potential(s)
  {
    if s.down[0].Puback? || s.down[0].Pubcomp? {
      AckLowersPotential(s);
    } else {
      OtherLowersPotential(s, now);
    }
  }

  /** Every message in the window has a packet under way that will bring its exchange forward. */
  ghost predicate Covered(s: Sys) {
    forall mid: uint16 :: CoveredMid(s, mid)
  }

  predicate CoveredMid(s: Sys, mid: uint16) {
    Find(s.c.out, mid) < s.c.inflight ==> Sel(true, mid, s.up) != [] || Sel(false, mid, s.down) != []
  }

  /** A packet of a conforming broker's own flow; it does not close the connection. */
  predicate CleanPacket(p: Packet) {
    && !p.Subscribe? && !p.Unsubscribe?
    && (p.Publish? ==> p.app.topic != []) && (p.Pubrel? ==> p.flags == 2)
  }

  predicate Clean(ch: seq<Packet>) {
    forall i :: 0 <= i < |ch| ==> CleanPacket(ch[i])
  }

  ghost predicate Flowing(s: Sys) {
    Inv(s) && s.c.connected && Covered(s) && Clean(s.down) && AllFit(s.c.out)
  }

  lemma TakeKeepsCovered(s: Sys, mid: uint16)
    requires s.up != [] && CoveredMid(s, mid)
    ensures CoveredMid(Take(s), mid)
  {
    hide Take, Find;
    var answer := TakeAnswers(s);
    SelAppend(false, mid, s.down, answer);
  }

  /** Handling a packet of the flow sends another one for the same id, or removes its message. */
  lemma DeliverKeepsCovered(s: Sys, now: int, mid: uint16)
    requires Inv(s) && Enabled(s, Deliver(now)) && CoveredMid(s, mid) && NextCanBeSent(s.c)
    ensures CoveredMid(Next(s, Deliver(now)), mid)
  {
    if s.down[0].Puback? || s.down[0].Pubcomp? {
      AckOutcome(s);
      AckKeepsCovered(s, DoPubackcomp(s.c, s.down[0].mid), mid);
    } else if s.down[0].Pubrec? {
      PubrecIsExpected(s);
      PubrecKeepsCovered(s, now, mid);
    } else {
      ForeignKeepsCovered(s, now, mid);
    }
  }

  lemma PubrecKeepsCovered(s: Sys, now: int, mid: uint16)
    requires s.down != [] && s.down[0].Pubrec? && CoveredMid(s, mid) && Find(s.c.out, s.down[0].mid) < |s.c.out|
    ensures CoveredMid(Delivered(s, DoPubrec(s.c, s.down[0].mid, now)), mid)
  {
    var o := DoPubrec(s.c, s.down[0].mid, now);
    SelAppend(true, mid, s.up, o.sent);
    LookSame(s.c.out, o.c.out, mid);
  }

  lemma ForeignKeepsCovered(s: Sys, now: int, mid: uint16)
    requires s.down != [] && !IsAck(s.down[0]) && CoveredMid(s, mid)
    ensures CoveredMid(Delivered(s, DoReceive(s.c, s.down[0], now)), mid)
  {
    SelAppend(true, mid, s.up, DoReceive(s.c, s.down[0], now).sent);
  }

  /** A message inside the window after an acknowledgement was inside it before, or has just been sent. */
  lemma AckKeepsPlace(c: Client, k: nat, o: Outcome, mid: uint16)
    requires Window.Holds(c) && DistinctMids(c.out) && k < c.inflight && AckResult(c, k, o) && NextCanBeSent(c)
    ensures Find(o.c.out, mid) < o.c.inflight ==>
              && Find(c.out, mid) != k
              && (Find(c.out, mid) < c.inflight || (o.sent != [] && o.sent[0].mid == mid))
  {
    var j := Find(c.out, mid);
    LookSlid(c, k, o.c.out, mid);
    SlidList(c, k, o.c.out);
    hide Without, Window.Shape;
    if j < |c.out| && j != k {
      FindAt(o.c.out, if j < k then j else j - 1);
    }
  }

  lemma AckKeepsCovered(s: Sys, o: Outcome, mid: uint16)
    requires s.down != [] && (s.down[0].Puback? || s.down[0].Pubcomp?) && CoveredMid(s, mid)
    requires Window.Holds(s.c) && DistinctMids(s.c.out)
    requires NextCanBeSent(s.c)
    requires var k := Find(s.c.out, s.down[0].mid); AckResult(s.c, k, o) && (k < |s.c.out| ==> k < s.c.inflight)
    ensures CoveredMid(Delivered(s, o), mid)
  {
    var k := Find(s.c.out, s.down[0].mid);
    SelAppend(true, mid, s.up, o.sent);
    if k < |s.c.out| {
      AckKeepsPlace(s.c, k, o, mid);
      hide Window.Holds, Window.Shape, DistinctMids;
      assert Find(s.c.out, mid) != k ==> mid != s.down[0].mid;
    }
  }

  lemma FlowingHasInv(s: Sys)
    requires Flowing(s)
    ensures Inv(s)
  {
  }

  /** No packet of a conforming broker makes the client close the connection. */
  lemma DeliverSucceeds(s: Sys, now: int)
    requires Inv(s) && Enabled(s, Deliver(now)) && Clean(s.down)
    ensures var o := DoReceive(s.c, s.down[0], now); o.rc == Success && o.c.connected
  {
    if s.down[0].Pubrec? {
      PubrecIsExpected(s);
    }
    hide Inv, Promote;
  }

  lemma CleanTail(ch: seq<Packet>)
    requires Clean(ch) && ch != []
    ensures Clean(ch[1..])
  {
  }

  // ---- Steps of a lossless schedule ---------------------------------------------------------------------

  /** Anything but a loss: packets move, calls are made, retries run, and the broker sends. */
  predicate Lossless(a: Action) {
    !a.Drop? && !a.Reconnect? && (a.BrokerPush? ==> CleanPacket(a.p)) && Fitting(a)
  }

  /** A bound for what a step other than a packet movement adds to the potential. */
  function Added(s: Sys, a: Action): nat {
    match a
    case AppPublish(_, _, _) => 5
    case AppRequest(_) => 1
    case Retry(_) => 4 * (|s.c.out| + |s.c.inq|)
    case BrokerPush(_) => 2
    case _ => 0
  }

  lemma FitsNext(c: Client)
    requires AllFit(c.out)
    ensures NextCanBeSent(c)
  {
  }

  lemma StaysConnected(s: Sys, a: Action)
    requires Inv(s) && s.c.connected && Clean(s.down) && Lossless(a) && Enabled(s, a)
    ensures Next(s, a).c.connected && Clean(Next(s, a).down)
  {
    hide Inv, DoReceive, DoRetry, DoPublish;
    match a
    case Deliver(now) =>
      DeliverSucceeds(s, now);
      CleanTail(s.down);
    case Retry(now) => RetryKeepsIds(s.c, now);
    case AppPublish(app, qos, now) => PublishKeepsConnection(s.c, app, qos, now);
    case BrokerTake => var answer := TakeAnswers(s);
    case _ =>
  }

  lemma PublishKeepsConnection(c: Client, app: AppMessage, qos: int, now: int)
    ensures DoPublish(c, app, qos, now).c.connected == c.connected
  {
  }

  /** A publish takes its place at the end, and is sent at once if it is let in. */
  lemma PublishPlaces(c: Client, app: AppMessage, qos: int, now: int)
    requires Window.Holds(c) && c.connected && (1 <= qos <= 2 ==> Fits(app, qos))
    ensures var o := DoPublish(c, app, qos, now);
            if o.c.out == c.out then o.c.inflight == c.inflight && Load(o.sent, true) <= 1
            else && |o.c.out| == |c.out| + 1 && o.c.out[..|c.out|] == c.out
                 && if o.c.inflight == c.inflight then o.sent == []
                    else && c.inflight == |c.out| && o.c.inflight == |o.c.out|
                         && o.sent == [ToPublish(o.c.out[|c.out|])] && Load(o.sent, true) == 4
  {
    hide Topics.ValidTopic, Fits;
    var o := DoPublish(c, app, qos, now);
    assert o.sent != [] ==> o.sent == [o.sent[0]] && Load(o.sent[1..], true) == 0;
  }

  lemma PublishKeepsCovered(s: Sys, a: Action, mid: uint16)
    requires Window.Holds(s.c) && s.c.connected && CoveredMid(s, mid) && Enabled(s, a) && a.AppPublish? && Fitting(a)
    ensures CoveredMid(Next(s, a), mid)
  {
    hide DoPublish, Window.Holds, Load;
    var o := DoPublish(s.c, a.app, a.qos, a.now);
    PublishPlaces(s.c, a.app, a.qos, a.now);
    PublishQueuesOne(s.c, a.app, a.qos, a.now);
    SelAppend(true, mid, s.up, o.sent);
    if o.c.out != s.c.out {
      var m :| QueuedAs(s.c, a.app, a.qos, MessageIds.Next(s.c.lastMid), o, m);
      FindAppend(s.c.out, m, mid);
      if mid == m.mid && o.sent != [] {
        SelOne(true, o.sent[0]);
      }
    }
  }

  lemma StepKeepsCovered(s: Sys, a: Action, mid: uint16)
    requires Inv(s) && s.c.connected && CoveredMid(s, mid) && AllFit(s.c.out) && Lossless(a) && Enabled(s, a)
    ensures CoveredMid(Next(s, a), mid)
  {
    InvHasBase(s);
    WindowOfBase(s.c);
    hide Inv, Base, Sel, Find, DoPublish, DoReceive, DoRetry, Take, Window.Holds;
    match a
    case AppPublish(app, qos, now) => PublishKeepsCovered(s, a, mid);
    case AppRequest(r) => SelAppend(true, mid, s.up, DoRequest(s.c, r).sent);
    case Retry(now) =>
      RetryKeepsIds(s.c, now);
      LookSame(s.c.out, DoRetry(s.c, now).c.out, mid);
      SelAppend(true, mid, s.up, DoRetry(s.c, now).sent);
    case Deliver(now) =>
      FitsNext(s.c);
      DeliverKeepsCovered(s, now, mid);
    case BrokerTake => TakeKeepsCovered(s, mid);
    case BrokerPush(p) => SelAppend(false, mid, s.down, [p]);
  }

  lemma {:induction false} RetryLoad(ms: seq<Msg>, connected: bool, retry: nat, now: int)
    ensures Load(RetryAll(ms, connected, retry, now).1, true) <= 4 * |ms|
  {
    if ms != [] {
      var (m, one) := RetryOne(ms[0], connected, retry, now);
      var (rest, more) := RetryAll(ms[1..], connected, retry, now);
      RetryOneLoad(ms[0], connected, retry, now);
      hide RetryOne, Load;
      LoadAppend(one, more, true);
      RetryLoad(ms[1..], connected, retry, now);
    }
  }

  lemma RetryOneLoad(m: Msg, connected: bool, retry: nat, now: int)
    ensures Load(RetryOne(m, connected, retry, now).1, true) <= 4
  {
    var one := RetryOne(m, connected, retry, now).1;
    assert one != [] ==> one[1..] == [];
  }

  lemma RetryAdds(s: Sys, now: int)
    ensures Potential(Next(s, Retry(now))) <= Potential(s) + Added(s, Retry(now))
  {
    hide RetryAll, Load;
    var out, inq := RetryAll(s.c.out, s.c.connected, s.c.retry, now), RetryAll(s.c.inq, s.c.connected, s.c.retry, now);
    LoadAppend(s.up, out.1 + inq.1, true);
    LoadAppend(out.1, inq.1, true);
    RetryLoad(s.c.out, s.c.connected, s.c.retry, now);
    RetryLoad(s.c.inq, s.c.connected, s.c.retry, now);
  }

  lemma PublishAdds(s: Sys, a: Action)
    requires Window.Holds(s.c) && s.c.connected && Enabled(s, a) && a.AppPublish? && Fitting(a)
    ensures Potential(Next(s, a)) <= Potential(s) + 5
  {
    hide DoPublish, Load;
    PublishPlaces(s.c, a.app, a.qos, a.now);
    LoadAppend(s.up, DoPublish(s.c, a.app, a.qos, a.now).sent, true);
    NothingWeighsNothing();
  }

  lemma NothingWeighsNothing()
    ensures Load([], true) == 0
  {
  }

  /** A packet movement lowers the potential; any other lossless step adds no more than stated. */
  lemma StepSettlesPotential(s: Sys, a: Action)
    requires Inv(s) && s.c.connected && AllFit(s.c.out) && Lossless(a) && Enabled(s, a)
    ensures Potential(Next(s, a)) + (if Moves(a) then 1 else 0) <= Potential(s) + Added(s, a)
  {
    InvHasBase(s);
    WindowOfBase(s.c);
    hide Inv, Base, DoPublish, DoReceive, DoRetry, Take, Window.Holds;
    match a
    case AppPublish(app, qos, now) => PublishAdds(s, a);
    case AppRequest(r) => LoadAppend(s.up, DoRequest(s.c, r).sent, true);
    case Retry(now) => RetryAdds(s, now);
    case Deliver(now) => DeliverLowersPotential(s, now);
    case BrokerTake => TakeLowersPotential(s);
    case BrokerPush(p) => LoadAppend(s.down, [p], false);
  }

  lemma LosslessKeepsFlowing(s: Sys, a: Action)
    requires Flowing(s) && Lossless(a) && Enabled(s, a)
    ensures Flowing(Next(s, a))
    ensures Potential(Next(s, a)) + (if Moves(a) then 1 else 0) <= Potential(s) + Added(s, a)
  {
    hide Inv, CoveredMid, Clean, AllFit, Next, Potential, Added;
    NextKeepsInv(s, a);
    StaysConnected(s, a);
    FittingKeepsAllFit(s, a);
    forall mid: uint16 ensures CoveredMid(Next(s, a), mid) {
      assert CoveredMid(s, mid);
      StepKeepsCovered(s, a, mid);
    }
    StepSettlesPotential(s, a);
  }

  /** With nothing under way, a flowing system has nothing outstanding. */
  lemma EmptyChannelsMeanDone(s: Sys)
    requires Flowing(s) && s.up == [] && s.down == []
    ensures s.c.out == []
  {
    assert s.c.out != [] ==> CoveredMid(s, s.c.out[0].mid);
  }

  // ---- Whole schedules -----------------------------------------------------------------------------------

  function MovesIn(acts: seq<Action>): nat {
    if acts == [] then 0 else (if Moves(acts[0]) then 1 else 0) + MovesIn(acts[1..])
  }

  function AddedIn(s: Sys, acts: seq<Action>): nat
    decreases |acts|
  {
    if acts == [] || !Enabled(s, acts[0]) then 0 else Added(s, acts[0]) + AddedIn(Next(s, acts[0]), acts[1..])
  }

  /**
   In a lossless schedule from a flowing state the packet movements are bounded by the potential at the
   start and what the other steps add; it cannot get stuck before both channels are empty; and then
   nothing is outstanding.
   */
  lemma {:induction false} LosslessSchedulesDrain(s: Sys, acts: seq<Action>, t: Sys)
    requires Flowing(s) && Run(s, acts, t) && forall i :: 0 <= i < |acts| ==> Lossless(acts[i])
    ensures Flowing(t) && MovesIn(acts) + Potential(t) <= Potential(s) + AddedIn(s, acts)
    ensures t.up != [] || t.down != [] ==> exists a :: Moves(a) && Enabled(t, a)
    ensures t.up == [] && t.down == [] ==> t.c.out == []
    decreases |acts|
  {
    hide Potential, Added, Lossless;
    if acts != [] {
      assert Lossless(acts[0]);
      LosslessKeepsFlowing(s, acts[0]);
      hide Flowing, Next;
      LosslessSchedulesDrain(Next(s, acts[0]), acts[1..], t);
    } else {
      assert t.up != [] ==> Moves(BrokerTake) && Enabled(t, BrokerTake);
      assert t.down != [] ==> Moves(Deliver(0)) && Enabled(t, Deliver(0));
      if t.up == [] && t.down == [] {
        EmptyChannelsMeanDone(t);
      }
    }
  }

  /** A reconnect followed by a retry pass late enough makes every reachable state flow. */
  lemma ReconnectAndRetryFlow(s: Sys, now: int)
    requires Inv(s) && s.c.retry < now && AllFit(s.c.out)
    ensures var t := Next(Next(s, Reconnect(true)), Retry(now)); Flowing(t) && Rank(t.c.out) == Rank(s.c.out)
  {
    hide Inv, CoveredMid, AllFit, Rank, RetryAll, ResetOut, DoRetry;
    InvHasBase(s);
    var r := Next(s, Reconnect(true));
    NextKeepsInv(s, Reconnect(true));
    NextKeepsInv(r, Retry(now));
    FittingKeepsAllFit(s, Reconnect(true));
    FittingKeepsAllFit(r, Retry(now));
    Window.ReconnectOnlyClearsTimestamps(s.c, true);
    RetryKeepsIds(r.c, now);
    QuietRank(s, Reconnect(true));
    QuietRank(r, Retry(now));
    var t := Next(r, Retry(now));
    forall mid: uint16 ensures CoveredMid(t, mid) {
      RetryCovers(r, now, mid);
    }
  }

  lemma RetryCovers(r: Sys, now: int, mid: uint16)
    requires Inv(r) && r.c.connected && r.c.retry < now && AllFit(r.c.out)
    requires forall i :: 0 <= i < |r.c.out| ==> r.c.out[i].timestamp == 0
    ensures CoveredMid(Next(r, Retry(now)), mid)
  {
    hide MidInv, MidHolds, RetryOne, Sel, RetryAll, Reported, AtMostOnce;
    var out := RetryAll(r.c.out, true, r.c.retry, now);
    var inq := RetryAll(r.c.inq, true, r.c.retry, now);
    var k := Find(r.c.out, mid);
    RetryKeepsIds(r.c, now);
    LookSame(r.c.out, out.0, mid);
    SelAppend(true, mid, r.up, out.1 + inq.1);
    SelAppend(true, mid, out.1, inq.1);
    SelRetry(r.c.out, true, r.c.retry, now, mid);
    if k < r.c.inflight {
      RetrySpeaks(r.c.out[k], r.c.retry, now);
    }
  }

  lemma RetrySpeaks(m: Msg, retry: nat, now: int)
    requires Window.Started(m) && Fits(m.app, m.qos) && m.timestamp == 0 && retry < now
    ensures Sel(true, m.mid, RetryOne(m, true, retry, now).1) != []
  {
  }

  /**
   From any reachable state: reconnect, let one retry pass run late enough, and then lose nothing.
   However publishes, retries, requests and packets of both sides are scheduled after that, the packet
   movements are bounded and cannot get stuck before both channels are empty; and whenever both are
   empty, every message ever published above QoS 0 has been reported, and this took exactly the
   acknowledgements owed at the start and asked for since.
   */
  lemma EveryMessageGetsThrough(s0: Sys, acts: seq<Action>, s: Sys, now: int, more: seq<Action>, t: Sys)
    requires Delivery.Init(s0) && Run(s0, acts, s) && s.c.retry < now
    requires Run(Next(Next(s, Reconnect(true)), Retry(now)), more, t)
    requires forall i :: 0 <= i < |acts| ==> Fitting(acts[i])
    requires forall i :: 0 <= i < |more| ==> Lossless(more[i])
    ensures var r := Next(Next(s, Reconnect(true)), Retry(now));
            && MovesIn(more) <= Potential(r) + AddedIn(r, more)
            && (t.up != [] || t.down != [] ==> exists a :: Moves(a) && Enabled(t, a))
            && (t.up == [] && t.down == [] ==>
                  && t.c.out == []
                  && (forall n :: 0 <= n < |t.issued| && 1 <= t.issued[n].qos <= 2 ==> Announced(t, n))
                  && AcksIn(r, more) == Rank(s.c.out) + AskedIn(r, more) && Rank(s.c.out) <= 2 * |s.c.out|)
  {
    hide Inv, Next, AllFit, Announced, Rank, AcksIn, AskedIn, Potential, Flowing, Fitting, SendOrder.All, Sane,
         AddedIn, MovesIn;
    var q := Next(s, Reconnect(true));
    var r := Next(q, Retry(now));
    SendOrder.Reach(s0, [], s0);
    RunKeepsSane(s0, acts, s) by { StartIsSane(s0); }
    SaneIs(s);
    ReconnectAndRetryFlow(s, now);
    LosslessSchedulesDrain(r, more, t);
    RunKeepsSane(s, [Reconnect(true), Retry(now)] + more, t) by { WholeRunFits(s, now, more, t); }
    FlowingHasInv(r);
    AccountOverRun(r, more, t);
    RankBound(s.c.out);
    RankBound(t.c.out);
    AllReported(t);
  }

  lemma StartIsSane(s: Sys)
    requires Init(s)
    ensures Sane(s)
  {
    SendOrder.Reach(s, [], s);
  }

  lemma SaneIs(s: Sys)
    requires Sane(s)
    ensures Inv(s) && AllFit(s.c.out) && AllAccounted(s)
  {
  }

  lemma WholeRunFits(s: Sys, now: int, more: seq<Action>, t: Sys)
    requires Run(Next(Next(s, Reconnect(true)), Retry(now)), more, t)
    requires forall i :: 0 <= i < |more| ==> Lossless(more[i])
    ensures var all := [Reconnect(true), Retry(now)] + more;
            Run(s, all, t) && forall i :: 0 <= i < |all| ==> Fitting(all[i])
  {
    var all := [Reconnect(true), Retry(now)] + more;
    assert all[1..] == [Retry(now)] + more && all[1..][1..] == more;
    forall i | 0 <= i < |all| ensures Fitting(all[i]) {
      assert i >= 2 ==> Lossless(more[i - 2]);
    }
  }

  /** With an empty list, what is accounted for has been reported. */
  lemma AllReported(t: Sys)
    requires Sane(t)
    ensures t.c.out == [] ==> forall n :: 0 <= n < |t.issued| && 1 <= t.issued[n].qos <= 2 ==> Announced(t, n)
  {
    forall n | t.c.out == [] && 0 <= n < |t.issued| && 1 <= t.issued[n].qos <= 2 ensures Announced(t, n) {
      assert Accounted(t, n);
    }
  }
}
