/**
 The client composed with a broker and two FIFO channels.

 The broker keeps its session across reconnects and follows section 4.3 of MQTT 3.1.1 as a
 receiver: it answers a QoS 1 PUBLISH with PUBACK; it accepts a QoS 2 PUBLISH unless it
 already holds the id, and answers with PUBREC; it drops the id on PUBREL and answers with
 PUBCOMP. As a sender it is arbitrary. A reconnect loses everything in transit.
 */
module Delivery {
  import opened Mqtt
  import opened Engine
  import MessageIds
  import Topics
  import Window

  datatype Sys = Sys(
    c: Client,
    up: seq<Packet>,        // client to broker, including the client's own packet queue
    down: seq<Packet>,      // broker to client
    held: set<uint16>,      // ids of QoS 2 messages accepted and not yet released
    accepted: seq<Packet>,  // QoS 1 and 2 messages the broker has accepted, in order
    done: seq<Msg>,         // messages reported through on_publish, in order
    log: seq<Packet>,       // everything the client has ever sent, in order
    issued: seq<Issue>,     // what the application has published, by serial
    stale: bool)            // the last reconnect left the tail pointer of the outgoing list on an incoming message

  datatype Issue = Issue(app: AppMessage, qos: int)

  datatype Action =
    | AppPublish(app: AppMessage, qos: int, now: int)
    | AppRequest(r: Request)
    | Drop
    | Reconnect(ok: bool)
    | Retry(now: int)
    | Deliver(now: int)
    | BrokerTake
    | BrokerPush(p: Packet)

  // ---- The transition system ---------------------------------------------------------------

  /** The packets of the client's outbound flow that carry this id, in one direction. */
  predicate Keep(toBroker: bool, mid: uint16, p: Packet) {
    p.mid == mid
    && if toBroker then p.Pubrel? || (p.Publish? && p.qos > 0) else IsAck(p)
  }

  predicate IsAck(p: Packet) {
    p.Puback? || p.Pubrec? || p.Pubcomp?
  }

  function Sel(toBroker: bool, mid: uint16, ch: seq<Packet>): seq<Packet> {
    if ch == [] then []
    else if Keep(toBroker, mid, ch[0]) then [ch[0]] + Sel(toBroker, mid, ch[1..])
    else Sel(toBroker, mid, ch[1..])
  }

  function Look(ms: seq<Msg>, mid: uint16): Option<Msg> {
    var k := Find(ms, mid);
    if k < |ms| then Some(ms[k]) else None
  }

  /** The id is neither outstanding at the client nor on any packet in transit. */
  predicate Fresh(s: Sys, mid: uint16) {
    Look(s.c.out, mid) == None && Sel(true, mid, s.up) == [] && Sel(false, mid, s.down) == []
  }

  predicate Enabled(s: Sys, a: Action) {
    match a
    case AppPublish(app, qos, _) =>
      1 <= qos <= 2 ==> !s.stale && Fresh(s, MessageIds.Next(s.c.lastMid))
    case AppRequest(_) => true
    case Drop => true
    case Reconnect(_) => true
    case Retry(_) => true
    case Deliver(_) => s.c.connected && s.down != []
    case BrokerTake => s.up != []
    case BrokerPush(p) => p.Publish? || p.Pubrel?
  }

  /** The client has made a call; an error while handling a packet closes the connection. */
  function After(s: Sys, o: Outcome, handling: bool): Sys {
    s.(c := if handling && o.rc != Success then o.c.(connected := false) else o.c,
       up := s.up + o.sent, done := s.done + o.onPublish, log := s.log + o.sent)
  }

  function Take(s: Sys): Sys
    requires s.up != []
  {
    var p := s.up[0];
    var s1 := s.(up := s.up[1..]);
    if p.Publish? && p.qos == 1 then
      s1.(accepted := s.accepted + [p], down := s.down + [Puback(p.mid)])
    else if p.Publish? && p.qos == 2 then
      if p.mid in s.held then s1.(down := s.down + [Pubrec(p.mid)])
      else s1.(held := s.held + {p.mid}, accepted := s.accepted + [p], down := s.down + [Pubrec(p.mid)])
    else if p.Pubrel? then
      s1.(held := s.held - {p.mid}, down := s.down + [Pubcomp(p.mid)])
    else s1
  }

  function Next(s: Sys, a: Action): Sys
    requires Enabled(s, a)
  {
    match a
    case AppPublish(app, qos, now) =>
      var o := DoPublish(s.c, app, qos, now);
      After(s.(issued := if o.c.published > s.c.published then s.issued + [Issue(app, qos)] else s.issued), o, false)
    case AppRequest(r) => After(s, DoRequest(s.c, r), false)
    case Drop => s.(c := s.c.(connected := false))
    case Reconnect(ok) => s.(c := DoReconnect(s.c, ok), up := [], down := [], stale := s.c.out == [] && s.c.inq != [])
    case Retry(now) => After(s, DoRetry(s.c, now), false)
    case Deliver(now) => After(s.(down := s.down[1..]), DoReceive(s.c, s.down[0], now), true)
    case BrokerTake => Take(s)
    case BrokerPush(p) => s.(down := s.down + [p])
  }

  predicate Init(s: Sys) {
    && s.c.out == [] && s.c.inq == [] && s.c.inflight == 0 && s.c.published == 0 && !s.c.connected
    && s.up == [] && s.down == [] && s.held == {} && s.accepted == [] && s.done == [] && s.log == []
       && s.issued == [] && !s.stale
  }

  /** `acts` is a run from `s` to `t`. */
  predicate Run(s: Sys, acts: seq<Action>, t: Sys)
    decreases |acts|
  {
    if acts == [] then s == t
    else Enabled(s, acts[0]) && Run(Next(s, acts[0]), acts[1..], t)
  }

  // ---- The invariant -----------------------------------------------------------------------

  predicate Has(acc: seq<Packet>, serial: nat) {
    exists i :: 0 <= i < |acc| && acc[i].Publish? && acc[i].serial == serial
  }

  predicate IsPublish(p: Packet, serial: nat, qos: Qos) {
    p.Publish? && p.serial == serial && p.qos == qos
  }

  /**
   What holds of one id: the message that owns it, the packets in transit that carry it, and
   whether the broker holds it.
   */
  predicate MidInv(m: Option<Msg>, u: seq<Packet>, d: seq<Packet>, held: bool, acc: seq<Packet>) {
    match m
    case None =>
      && !held
      && (forall i :: 0 <= i < |u| ==> u[i].Pubrel? || (u[i].Publish? && u[i].qos == 1 && Has(acc, u[i].serial)))
      && (forall i :: 0 <= i < |d| ==> d[i].Puback? || d[i].Pubcomp?)
    case Some(m) =>
      match m.state
      case Invalid => !held && u == [] && d == [] && !Has(acc, m.serial)
      case WaitForPuback =>
        && !held && (d != [] ==> Has(acc, m.serial))
        && (forall i :: 0 <= i < |u| ==> IsPublish(u[i], m.serial, 1))
        && (forall i :: 0 <= i < |d| ==> d[i].Puback?)
      case WaitForPubrec =>
        && (held <==> Has(acc, m.serial)) && (d != [] ==> held)
        && (forall i :: 0 <= i < |u| ==> IsPublish(u[i], m.serial, 2))
        && (forall i :: 0 <= i < |d| ==> d[i].Pubrec?)
      case WaitForPubcomp =>
        && Has(acc, m.serial)
        && (forall i :: 0 <= i < |u| ==> IsPublish(u[i], m.serial, 2) || u[i].Pubrel?)
        && (forall i, j :: 0 <= i < j < |u| && u[i].Pubrel? ==> u[j].Pubrel?)
        && (forall i :: 0 <= i < |d| ==> d[i].Pubrec? || d[i].Pubcomp?)
        && (forall i, j :: 0 <= i < j < |d| && d[i].Pubcomp? ==> d[j].Pubcomp?)
        && (u != [] && u[0].Publish? ==> held)
        && (held ==> forall i :: 0 <= i < |d| ==> d[i].Pubrec?)
      case WaitForPubrel => false
  }

  predicate MidHolds(s: Sys, mid: uint16) {
    MidInv(Look(s.c.out, mid), Sel(true, mid, s.up), Sel(false, mid, s.down), mid in s.held, s.accepted)
  }

  predicate DistinctMids(ms: seq<Msg>) {
    forall i, j :: 0 <= i < j < |ms| ==> ms[i].mid != ms[j].mid
  }

  predicate Increasing(ms: seq<Msg>) {
    forall i, j :: 0 <= i < j < |ms| ==> ms[i].serial < ms[j].serial
  }

  predicate Base(c: Client) {
    && Window.Holds(c) && Window.InHeld(c.inq)
    && DistinctMids(c.out) && Increasing(c.out)
    && (forall i :: 0 <= i < |c.out| ==> c.out[i].serial < c.published)
  }

  /** The broker has accepted no QoS 2 message twice. */
  predicate AtMostOnce(acc: seq<Packet>) {
    && (forall i :: 0 <= i < |acc| ==> acc[i].Publish? && acc[i].qos > 0)
    && (forall i, j :: 0 <= i < j < |acc| && acc[i].qos == 2 && acc[j].qos == 2 ==> acc[i].serial != acc[j].serial)
  }

  /** Every message reported as published was accepted, was reported once, and is gone. */
  predicate Reported(s: Sys) {
    && (forall i :: 0 <= i < |s.done| ==> Has(s.accepted, s.done[i].serial) && s.done[i].serial < s.c.published)
    && (forall i, j :: 0 <= i < j < |s.done| ==> s.done[i].serial != s.done[j].serial)
    && (forall i, j :: 0 <= i < |s.done| && 0 <= j < |s.c.out| ==> s.done[i].serial != s.c.out[j].serial)
  }

  predicate Core(s: Sys) {
    && Base(s.c) && AtMostOnce(s.accepted) && Reported(s)
    && (forall i :: 0 <= i < |s.accepted| ==> s.accepted[i].serial < s.c.published)
  }

  ghost predicate Inv(s: Sys) {
    Core(s) && forall mid: uint16 :: MidHolds(s, mid)
  }

  // ---- Lists and selections ------------------------------------------------------------------

  lemma {:induction false} SelAppend(toBroker: bool, mid: uint16, a: seq<Packet>, b: seq<Packet>)
    ensures Sel(toBroker, mid, a + b) == Sel(toBroker, mid, a) + Sel(toBroker, mid, b)
  {
    if a == [] {
      assert a + b == b;
    } else {
      var ab := a + b;
      var first := if Keep(toBroker, mid, a[0]) then [a[0]] else [];
      assert Sel(toBroker, mid, ab) == first + Sel(toBroker, mid, ab[1..]);
      assert Sel(toBroker, mid, a) == first + Sel(toBroker, mid, a[1..]);
      hide Sel, Keep;
      assert ab[1..] == a[1..] + b;
      SelAppend(toBroker, mid, a[1..], b);
    }
  }

  lemma {:induction false} SelEmpty(toBroker: bool, mid: uint16, a: seq<Packet>)
    requires forall i :: 0 <= i < |a| ==> !Keep(toBroker, mid, a[i])
    ensures Sel(toBroker, mid, a) == []
  {
    if a != [] {
      SelEmpty(toBroker, mid, a[1..]);
    }
  }

  lemma FindAt(ms: seq<Msg>, i: nat)
    requires DistinctMids(ms) && i < |ms|
    ensures Find(ms, ms[i].mid) == i
  {
  }

  lemma FindNone(ms: seq<Msg>, mid: uint16)
    requires forall i :: 0 <= i < |ms| ==> ms[i].mid != mid
    ensures Find(ms, mid) == |ms|
  {
  }

  lemma FindAppend(ms: seq<Msg>, m: Msg, mid: uint16)
    ensures Find(ms + [m], mid) == if Find(ms, mid) < |ms| then Find(ms, mid)
                                   else if m.mid == mid then |ms| else |ms| + 1
  {
    var k, j := Find(ms, mid), Find(ms + [m], mid);
    assert forall i :: 0 <= i < |ms| ==> (ms + [m])[i] == ms[i];
    assert (ms + [m])[|ms|] == m;
  }

  /** Two lists whose messages agree position by position, up to what `Look` may return. */
  lemma LookSame(a: seq<Msg>, b: seq<Msg>, mid: uint16)
    requires |a| == |b| && forall i :: 0 <= i < |a| ==> a[i].mid == b[i].mid
    ensures Find(a, mid) == Find(b, mid)
  {
  }

  // ---- Preservation, one action at a time ------------------------------------------------------

  lemma SelHead(toBroker: bool, ch: seq<Packet>)
    requires ch != [] && Keep(toBroker, ch[0].mid, ch[0])
    ensures var u := Sel(toBroker, ch[0].mid, ch);
            u != [] && u[0] == ch[0] && u[1..] == Sel(toBroker, ch[0].mid, ch[1..])
  {
  }

  /** A publish queues at most one message, and sends at most that one. */
  lemma PublishQueuesOne(c: Client, app: AppMessage, qos: int, now: int)
    ensures var o := DoPublish(c, app, qos, now); var mid := MessageIds.Next(c.lastMid);
            && (o.c.out == c.out || (1 <= qos <= 2 && exists m :: QueuedAs(c, app, qos, mid, o, m)))
            && (o.c.out == c.out ==> forall i :: 0 <= i < |o.sent| ==> o.sent[i].Publish? && o.sent[i].qos == 0)
  {
    var o := DoPublish(c, app, qos, now);
    if o.c.out != c.out {
      assert QueuedAs(c, app, qos, MessageIds.Next(c.lastMid), o, o.c.out[|c.out|]);
    }
  }

  predicate QueuedAs(c: Client, app: AppMessage, qos: int, mid: uint16, o: Outcome, m: Msg) {
    && o.c.out == c.out + [m] && m.mid == mid && m.app == app && m.qos == qos && m.serial == c.published && !m.dup
    && if m.state == Invalid then o.sent == [] else m.state == FirstState(m.qos, Invalid) && o.sent <= [ToPublish(m)]
  }

  lemma PublishKeepsMid(s: Sys, app: AppMessage, qos: int, now: int, mid: uint16)
    requires MidHolds(s, mid) && Enabled(s, AppPublish(app, qos, now))
    requires !Has(s.accepted, s.c.published)
    ensures MidHolds(After(s, DoPublish(s.c, app, qos, now), false), mid)
  {
    var o := DoPublish(s.c, app, qos, now);
    var u := Sel(true, mid, s.up);
    PublishQueuesOne(s.c, app, qos, now);
    SelAppend(true, mid, s.up, o.sent);
    if o.c.out == s.c.out {
      SelEmpty(true, mid, o.sent);
      assert Sel(true, mid, s.up + o.sent) == u;
    } else {
      var m :| QueuedAs(s.c, app, qos, MessageIds.Next(s.c.lastMid), o, m);
      FindAppend(s.c.out, m, mid);
      if mid == m.mid {
        assert Fresh(s, mid);
        assert Look(o.c.out, mid) == Some(m) && Sel(true, mid, s.up + o.sent) <= [ToPublish(m)];
      } else {
        SelEmpty(true, mid, o.sent);
        assert Sel(true, mid, s.up + o.sent) == u;
        assert Look(o.c.out, mid) == Look(s.c.out, mid);
      }
    }
  }

  lemma PublishKeepsCore(s: Sys, app: AppMessage, qos: int, now: int)
    requires Core(s) && Enabled(s, AppPublish(app, qos, now))
    ensures Core(After(s, DoPublish(s.c, app, qos, now), false))
  {
    hide DoPublish, Window.Holds, Window.InHeld, AtMostOnce, Has;
    var o := DoPublish(s.c, app, qos, now);
    Window.PublishKeepsWindow(s.c, app, qos, now);
    PublishQueuesOne(s.c, app, qos, now);
    PublishLeavesRest(s.c, app, qos, now);
    assert s.done + [] == s.done;
    if o.c.out != s.c.out {
      var m :| QueuedAs(s.c, app, qos, MessageIds.Next(s.c.lastMid), o, m);
      assert Fresh(s, m.mid);
    }
  }

  lemma PublishLeavesRest(c: Client, app: AppMessage, qos: int, now: int)
    ensures var o := DoPublish(c, app, qos, now);
            o.c.inq == c.inq && c.published <= o.c.published
              && (o.c.out != c.out ==> o.c.published == c.published + 1) && o.onPublish == []
  {
    hide Topics.ValidTopic;
  }

  lemma PublishKeepsInv(s: Sys, app: AppMessage, qos: int, now: int)
    requires Inv(s) && Enabled(s, AppPublish(app, qos, now))
    ensures Inv(After(s, DoPublish(s.c, app, qos, now), false))
  {
    hide MidInv;
    PublishKeepsCore(s, app, qos, now);
    forall mid: uint16 ensures MidHolds(After(s, DoPublish(s.c, app, qos, now), false), mid) {
      assert MidHolds(s, mid);
      PublishKeepsMid(s, app, qos, now, mid);
    }
  }

  lemma ReconnectKeepsMid(s: Sys, ok: bool, mid: uint16)
    requires Window.Holds(s.c) && MidHolds(s, mid)
    ensures MidHolds(Next(s, Reconnect(ok)), mid)
  {
    Window.ReconnectOnlyClearsTimestamps(s.c, ok);
    LookSame(s.c.out, Untimed(s.c.out), mid);
  }

  lemma ReconnectKeepsInv(s: Sys, ok: bool)
    requires Inv(s)
    ensures Inv(Next(s, Reconnect(ok)))
  {
    hide MidInv;
    var t := Next(s, Reconnect(ok));
    Window.ReconnectOnlyClearsTimestamps(s.c, ok);
    assert Core(t);
    forall mid: uint16 ensures MidHolds(t, mid) {
      assert MidHolds(s, mid);
      ReconnectKeepsMid(s, ok, mid);
    }
  }

  lemma RetryOneSends(m: Msg, connected: bool, retry: nat, now: int)
    ensures var sent := RetryOne(m, connected, retry, now).1;
            forall i :: 0 <= i < |sent| ==> sent[i].mid == m.mid
  {
  }

  lemma {:induction false} SelRetry(ms: seq<Msg>, connected: bool, retry: nat, now: int, mid: uint16)
    requires DistinctMids(ms)
    ensures var k := Find(ms, mid);
            Sel(true, mid, RetryAll(ms, connected, retry, now).1)
            == if k < |ms| then Sel(true, mid, RetryOne(ms[k], connected, retry, now).1) else []
  {
    hide RetryOne;
    if ms == [] {
      SelEmpty(true, mid, []);
    } else {
      hide Sel;
      var one := RetryOne(ms[0], connected, retry, now).1;
      SelAppend(true, mid, one, RetryAll(ms[1..], connected, retry, now).1);
      SelRetry(ms[1..], connected, retry, now, mid);
      RetryOneSends(ms[0], connected, retry, now);
      if ms[0].mid == mid {
        FindNone(ms[1..], mid);
        assert Sel(true, mid, one) + [] == Sel(true, mid, one);
      } else {
        SelEmpty(true, mid, one);
        var rest := Sel(true, mid, RetryAll(ms[1..], connected, retry, now).1);
        assert [] + rest == rest;
      }
    }
  }

  lemma {:induction false} RetryInSendsNoFlow(ms: seq<Msg>, connected: bool, retry: nat, now: int, mid: uint16)
    requires Window.InHeld(ms)
    ensures Sel(true, mid, RetryAll(ms, connected, retry, now).1) == []
  {
    if ms != [] {
      SelAppend(true, mid, RetryOne(ms[0], connected, retry, now).1, RetryAll(ms[1..], connected, retry, now).1);
      RetryInSendsNoFlow(ms[1..], connected, retry, now, mid);
    }
  }

  /** A retry repeats the packet the message is waiting on, behind all earlier packets for its id. */
  lemma RetryPerMid(m: Msg, connected: bool, retry: nat, now: int, u: seq<Packet>, d: seq<Packet>, held: bool,
                    acc: seq<Packet>)
    requires MidInv(Some(m), u, d, held, acc) && (Window.Started(m) || Window.Queued(m))
    ensures var (m1, sent) := RetryOne(m, connected, retry, now);
            MidInv(Some(m1), u + Sel(true, m.mid, sent), d, held, acc)
  {
  }

  lemma RetryKeepsMid(s: Sys, now: int, mid: uint16)
    requires MidHolds(s, mid) && DistinctMids(s.c.out) && Window.InHeld(s.c.inq)
    requires var k := Find(s.c.out, mid); k < |s.c.out| ==> Window.Started(s.c.out[k]) || Window.Queued(s.c.out[k])
    ensures MidHolds(After(s, DoRetry(s.c, now), false), mid)
  {
    hide MidInv;
    var out := RetryAll(s.c.out, s.c.connected, s.c.retry, now);
    var inq := RetryAll(s.c.inq, s.c.connected, s.c.retry, now);
    LookSame(s.c.out, out.0, mid);
    SelAppend(true, mid, s.up, out.1 + inq.1);
    SelAppend(true, mid, out.1, inq.1);
    SelRetry(s.c.out, s.c.connected, s.c.retry, now, mid);
    RetryInSendsNoFlow(s.c.inq, s.c.connected, s.c.retry, now, mid);
    var k := Find(s.c.out, mid);
    var u := Sel(true, mid, s.up);
    if k < |s.c.out| {
      RetryPerMid(s.c.out[k], s.c.connected, s.c.retry, now, u, Sel(false, mid, s.down), mid in s.held,
                  s.accepted);
      var (m1, one) := RetryOne(s.c.out[k], s.c.connected, s.c.retry, now);
      assert Look(out.0, mid) == Some(m1) && Sel(true, mid, s.up + (out.1 + inq.1)) == u + Sel(true, mid, one);
    } else {
      assert Sel(true, mid, s.up + (out.1 + inq.1)) == u;
    }
  }

  lemma RetryKeepsIds(c: Client, now: int)
    ensures var o := DoRetry(c, now);
            && |o.c.out| == |c.out| && o.c == c.(out := o.c.out, inq := o.c.inq) && o.onPublish == []
            && (forall i :: 0 <= i < |c.out| ==> o.c.out[i].serial == c.out[i].serial && o.c.out[i].mid == c.out[i].mid)
            && (Window.InHeld(c.inq) ==> Window.InHeld(o.c.inq))
  {
  }

  lemma RetryKeepsCore(s: Sys, now: int)
    requires Core(s)
    ensures Core(After(s, DoRetry(s.c, now), false))
  {
    hide RetryAll, DoRetry;
    Window.RetryKeepsWindow(s.c, now);
    RetryKeepsIds(s.c, now);
  }

  lemma RetryKeepsInv(s: Sys, now: int)
    requires Inv(s)
    ensures Inv(After(s, DoRetry(s.c, now), false))
  {
    hide MidInv;
    RetryKeepsCore(s, now);
    forall mid: uint16 ensures MidHolds(After(s, DoRetry(s.c, now), false), mid) {
      assert MidHolds(s, mid);
      RetryKeepsMid(s, now, mid);
    }
  }

  /** The state after the client has handled the packet at the head of the channel. */
  function Delivered(s: Sys, o: Outcome): Sys
    requires s.down != []
  {
    After(s.(down := s.down[1..]), o, true)
  }

  /** A packet that is not an acknowledgement does not touch the outgoing list. */
  lemma ForeignKeepsInv(s: Sys, now: int)
    requires Inv(s) && s.down != [] && !IsAck(s.down[0])
    ensures Inv(Delivered(s, DoReceive(s.c, s.down[0], now)))
  {
    hide MidHolds, DoReceive, Core, Delivered;
    InvHasBase(s);
    ForeignOutcome(s.c, s.down[0], now);
    var o := DoReceive(s.c, s.down[0], now);
    ForeignKeepsCore(s, o);
    forall mid: uint16 ensures MidHolds(Delivered(s, o), mid) {
      assert MidHolds(s, mid);
      ForeignKeepsMid(s, o, mid);
    }
  }

  lemma InvHasBase(s: Sys)
    requires Inv(s)
    ensures Base(s.c)
  {
  }

  lemma ForeignOutcome(c: Client, p: Packet, now: int)
    requires !IsAck(p) && Window.InHeld(c.inq)
    ensures var o := DoReceive(c, p, now);
            && o.c == c.(inq := o.c.inq) && o.c.out == c.out && Window.InHeld(o.c.inq) && o.onPublish == []
            && forall i :: 0 <= i < |o.sent| ==> !o.sent[i].Publish? && !o.sent[i].Pubrel?
  {
  }

  lemma ForeignKeepsCore(s: Sys, o: Outcome)
    requires Core(s) && s.down != [] && o.onPublish == []
    requires o.c == s.c.(inq := o.c.inq) && Window.InHeld(o.c.inq)
    ensures Core(Delivered(s, o))
  {
  }

  lemma ForeignKeepsMid(s: Sys, o: Outcome, mid: uint16)
    requires s.down != [] && !IsAck(s.down[0])
    requires MidHolds(s, mid) && o.c.out == s.c.out
    requires forall i :: 0 <= i < |o.sent| ==> !o.sent[i].Publish? && !o.sent[i].Pubrel?
    ensures MidHolds(Delivered(s, o), mid)
  {
    hide MidInv;
    SelAppend(true, mid, s.up, o.sent);
    SelEmpty(true, mid, o.sent);
    assert Sel(true, mid, s.up + o.sent) == Sel(true, mid, s.up);
  }

  /** A PUBREC always finds its message, and finds it inside the window. */
  lemma PubrecIsExpected(s: Sys)
    requires Inv(s) && s.down != [] && s.down[0].Pubrec?
    ensures var k := Find(s.c.out, s.down[0].mid);
            k < s.c.inflight && s.c.out[k].qos == 2
  {
    assert MidHolds(s, s.down[0].mid);
    SelHead(false, s.down);
  }

  lemma PubrecPerMid(m: Msg, now: int, u: seq<Packet>, d: seq<Packet>, held: bool, acc: seq<Packet>, p: Packet)
    requires MidInv(Some(m), u, d, held, acc) && d != [] && d[0].Pubrec? && p.Pubrel?
    ensures MidInv(Some(m.(state := WaitForPubcomp, timestamp := now)), u + [p], d[1..], held, acc)
  {
  }

  lemma PubrecKeepsMid(s: Sys, now: int, mid: uint16)
    requires MidHolds(s, mid) && s.down != [] && s.down[0].Pubrec?
    requires Find(s.c.out, s.down[0].mid) < |s.c.out|
    ensures MidHolds(Delivered(s, DoPubrec(s.c, s.down[0].mid, now)), mid)
  {
    hide MidInv;
    var o := DoPubrec(s.c, s.down[0].mid, now);
    LookSame(s.c.out, o.c.out, mid);
    SelAppend(true, mid, s.up, o.sent);
    if mid == s.down[0].mid {
      SelHead(false, s.down);
      assert Sel(true, mid, o.sent) == o.sent == [o.sent[0]];
      PubrecPerMid(Look(s.c.out, mid).value, now, Sel(true, mid, s.up), Sel(false, mid, s.down), mid in s.held,
        s.accepted, o.sent[0]);
    } else {
      SelEmpty(true, mid, o.sent);
      assert Sel(true, mid, s.up + o.sent) == Sel(true, mid, s.up);
    }
  }

  lemma PubrecKeepsInv(s: Sys, now: int)
    requires Inv(s) && s.down != [] && s.down[0].Pubrec?
    ensures Inv(Delivered(s, DoPubrec(s.c, s.down[0].mid, now)))
  {
    hide MidInv;
    var o := DoPubrec(s.c, s.down[0].mid, now);
    PubrecIsExpected(s);
    assert Core(Delivered(s, o)) by {
      Window.PubrecKeepsWindow(s.c, Find(s.c.out, s.down[0].mid), now);
    }
    forall mid: uint16 ensures MidHolds(Delivered(s, o), mid) {
      assert MidHolds(s, mid);
      PubrecKeepsMid(s, now, mid);
    }
  }

  /** A PUBACK or PUBCOMP that finds a message finds one whose exchange is complete. */
  lemma AckIsExpected(s: Sys)
    requires Inv(s) && s.down != [] && (s.down[0].Puback? || s.down[0].Pubcomp?)
    ensures var k := Find(s.c.out, s.down[0].mid);
            k < |s.c.out| ==>
              && k < s.c.inflight && Has(s.accepted, s.c.out[k].serial)
              && s.c.out[k].state == (if s.down[0].Puback? then WaitForPuback else WaitForPubcomp)
  {
    assert MidHolds(s, s.down[0].mid);
    SelHead(false, s.down);
  }

  lemma AckPerMid(m: Option<Msg>, u: seq<Packet>, d: seq<Packet>, held: bool, acc: seq<Packet>)
    requires MidInv(m, u, d, held, acc) && d != [] && (d[0].Puback? || d[0].Pubcomp?)
    ensures MidInv(None, u, d[1..], held, acc)
  {
  }

  /** The acknowledged id, once its message is out of the list; nothing happens to other ids. */
  lemma AckFreesMid(s: Sys, mid: uint16)
    requires MidHolds(s, mid) && s.down != [] && (s.down[0].Puback? || s.down[0].Pubcomp?)
    ensures if mid == s.down[0].mid
            then MidInv(None, Sel(true, mid, s.up), Sel(false, mid, s.down[1..]), mid in s.held, s.accepted)
            else Sel(false, mid, s.down[1..]) == Sel(false, mid, s.down)
  {
    if mid == s.down[0].mid {
      SelHead(false, s.down);
      AckPerMid(Look(s.c.out, mid), Sel(true, mid, s.up), Sel(false, mid, s.down), mid in s.held, s.accepted);
    }
  }

  /** The list after an in-flight message has left it and the window has moved on. */
  function Slid(c: Client, k: nat): seq<Msg>
    requires k < c.inflight <= |c.out|
  {
    if c.inflight < |c.out| then Without(c.out, k)[c.inflight - 1 := Window.Promoted(c.out[c.inflight])]
    else Without(c.out, k)
  }

  function SlidAt(c: Client, k: nat, i: nat): Msg
    requires k < c.inflight <= |c.out| && i < |c.out| - 1
  {
    if i == c.inflight - 1 then Window.Promoted(c.out[c.inflight]) else c.out[if i < k then i else i + 1]
  }

  lemma SlidIs(c: Client, k: nat)
    requires k < c.inflight <= |c.out|
    ensures |Slid(c, k)| == |c.out| - 1 && forall i :: 0 <= i < |c.out| - 1 ==> Slid(c, k)[i] == SlidAt(c, k, i)
  {
    Window.WithoutAt(c.out, k);
    hide Without, Window.Promoted;
  }

  lemma SlidNames(c: Client, k: nat, i: nat)
    requires k < c.inflight <= |c.out| && i < |c.out| - 1
    ensures var m := c.out[if i < k then i else i + 1];
            SlidAt(c, k, i).serial == m.serial && SlidAt(c, k, i).mid == m.mid
  {
  }

  lemma SlidValue(c: Client, k: nat, j: nat)
    requires k < c.inflight <= |c.out| && j < |c.out| && j != k
    ensures SlidAt(c, k, if j < k then j else j - 1)
         == if j == c.inflight then Window.Promoted(c.out[j]) else c.out[j]
  {
  }

  lemma SlidList(c: Client, k: nat, ms: seq<Msg>)
    requires k < c.inflight <= |c.out| && ms == Slid(c, k)
    ensures |ms| == |c.out| - 1 && forall i :: 0 <= i < |ms| ==> ms[i] == SlidAt(c, k, i)
    ensures DistinctMids(c.out) ==> DistinctMids(ms)
    ensures Increasing(c.out) ==> Increasing(ms)
    ensures forall i :: 0 <= i < |ms| ==> ms[i].serial == c.out[if i < k then i else i + 1].serial
  {
    hide Slid, SlidAt;
    SlidIs(c, k);
    forall i | 0 <= i < |ms|
      ensures ms[i].serial == c.out[if i < k then i else i + 1].serial
              && ms[i].mid == c.out[if i < k then i else i + 1].mid
    {
      SlidNames(c, k, i);
    }
  }

  /** Who owns which id after an in-flight message has left the list. */
  lemma LookSlid(c: Client, k: nat, ms: seq<Msg>, mid: uint16)
    requires k < c.inflight <= |c.out| && ms == Slid(c, k) && DistinctMids(c.out)
    ensures var j := Find(c.out, mid);
            Look(ms, mid) == if j == |c.out| || j == k then None
                             else if j == c.inflight then Some(Window.Promoted(c.out[j])) else Some(c.out[j])
  {
    hide Slid, SlidAt, Find, Window.Promoted;
    SlidList(c, k, ms);
    var j := Find(c.out, mid);
    if j == |c.out| || j == k {
      forall i | 0 <= i < |ms| ensures ms[i].mid != mid {
        SlidNames(c, k, i);
      }
      FindNone(ms, mid);
    } else {
      var i := if j < k then j else j - 1;
      SlidNames(c, k, i);
      SlidValue(c, k, j);
      FindAt(ms, i);
    }
  }

  /** Removal of the in-flight message at `k`, with the promotion it causes. */
  lemma RemoveKeepsMid(s: Sys, k: nat, mid: uint16)
    requires s.down != [] && k < |s.c.out| && s.c.out[k].mid == s.down[0].mid
    requires MidHolds(s, mid) && (s.down[0].Puback? || s.down[0].Pubcomp?)
    requires s.c.connected && Window.Holds(s.c) && DistinctMids(s.c.out) && k < s.c.inflight
    ensures var (c1, sent, _) := RemoveOut(s.c, s.c.out[k].mid);
            MidInv(Look(c1.out, mid), Sel(true, mid, s.up + sent), Sel(false, mid, s.down[1..]), mid in s.held,
              s.accepted)
  {
    hide RemoveOut, Window.Shape, Sel, Has, Slid;
    FindAt(s.c.out, k);
    RemoveIsSlide(s.c, k);
    var (c1, sent, _) := RemoveOut(s.c, s.c.out[k].mid);
    LookSlid(s.c, k, c1.out, mid);
    AckFreesMid(s, mid);
    SelAppend(true, mid, s.up, sent);
    var u := Sel(true, mid, s.up);
    if s.c.inflight < |s.c.out| {
      LetInIsQueued(s.c);
    }
    if Find(s.c.out, mid) == s.c.inflight < |s.c.out| && sent != [] {
      assert sent == [sent[0]];
      SelOne(true, sent[0]);
    } else {
      SelEmpty(true, mid, sent);
      assert u + [] == u;
    }
  }

  lemma LetInIsQueued(c: Client)
    requires Window.Holds(c) && c.inflight < |c.out|
    ensures Window.Queued(c.out[c.inflight])
  {
  }

  /** What is sent when the window moves on. */
  function LetIn(c: Client): seq<Packet> {
    if 0 <= c.inflight < |c.out| then SendPublish(true, Window.Promoted(c.out[c.inflight])).0 else []
  }

  /** The message that the window moves on to, if any, can be sent. */
  predicate NextCanBeSent(c: Client) {
    0 <= c.inflight < |c.out| ==> Fits(c.out[c.inflight].app, c.out[c.inflight].qos)
  }

  lemma RemoveIsSlide(c: Client, k: nat)
    requires Window.Holds(c) && c.connected && k < c.inflight && Find(c.out, c.out[k].mid) == k
    ensures var (c1, sent, _) := RemoveOut(c, c.out[k].mid);
            c1.out == Slid(c, k) && sent == LetIn(c)
  {
    Window.RemoveSlidesWindow(c, k);
    hide RemoveOut, Promote, Without;
  }

  /**
   What an acknowledgement does to a window, in closed form: at most one message leaves and one is let in.
   The one that leaves is reported exactly if the one let in can be sent.
   */
  predicate AckResult(c: Client, k: nat, o: Outcome) {
    o.rc == Success && o.onMessage == []
    && if k >= |c.out| then o.c == c && o.sent == [] && o.onPublish == []
       else && o.onPublish == (if NextCanBeSent(c) then [c.out[k]] else []) && o.sent == LetIn(c)
            && if 0 < c.inflight < |c.out| then
                 o.c == c.(out := Without(c.out, k)[c.inflight - 1 := Window.Promoted(c.out[c.inflight])])
               else o.c == c.(out := Without(c.out, k), inflight := c.inflight - 1)
  }

  lemma AckOutcome(s: Sys)
    requires Inv(s) && s.down != [] && s.c.connected && (s.down[0].Puback? || s.down[0].Pubcomp?)
    ensures var k := Find(s.c.out, s.down[0].mid); var o := DoPubackcomp(s.c, s.down[0].mid);
            AckResult(s.c, k, o) && (k < |s.c.out| ==> k < s.c.inflight)
  {
    AckIsExpected(s);
    WindowAck(s.c, s.down[0].mid);
  }

  lemma WindowAck(c: Client, mid: uint16)
    requires Window.Holds(c) && c.connected && (Find(c.out, mid) < |c.out| ==> Find(c.out, mid) < c.inflight)
    ensures AckResult(c, Find(c.out, mid), DoPubackcomp(c, mid))
  {
    var k := Find(c.out, mid);
    if k < |c.out| {
      Window.RemoveSlidesWindow(c, k);
      assert 0 < c.inflight;
      hide Window.Holds, Without, Promote, Window.Promoted;
    }
  }

  lemma AckKeepsCore(s: Sys)
    requires Core(s) && s.down != [] && s.c.connected
    requires var k := Find(s.c.out, s.down[0].mid);
             k < |s.c.out| ==> k < s.c.inflight && Has(s.accepted, s.c.out[k].serial)
    ensures Core(Delivered(s, DoPubackcomp(s.c, s.down[0].mid)))
  {
    hide RemoveOut, Promote, Window.Shape, Has, Slid, SlidAt;
    var k := Find(s.c.out, s.down[0].mid);
    var o := DoPubackcomp(s.c, s.down[0].mid);
    if k < |s.c.out| {
      Window.RemoveSlidesWindow(s.c, k);
      assert o.c.out == Slid(s.c, k) by { AckIsSlide(s.c, k); }
      SlidList(s.c, k, o.c.out);
      RemoveKeepsReported(s, k, Delivered(s, o));
    } else {
      assert o == Outcome(s.c, [], [], [], Success) by { AckOfNothing(s.c, s.down[0].mid); }
      assert s.done + [] == s.done;
    }
  }

  lemma AckIsSlide(c: Client, k: nat)
    requires Window.Holds(c) && c.connected && k < c.inflight && Find(c.out, c.out[k].mid) == k
    ensures DoPubackcomp(c, c.out[k].mid).c.out == Slid(c, k)
  {
    hide RemoveOut, Slid;
    RemoveIsSlide(c, k);
  }

  lemma AckOfNothing(c: Client, mid: uint16)
    requires Find(c.out, mid) == |c.out|
    ensures DoPubackcomp(c, mid) == Outcome(c, [], [], [], Success)
  {
  }

  lemma AckKeepsInv(s: Sys)
    requires Inv(s) && s.down != [] && s.c.connected && (s.down[0].Puback? || s.down[0].Pubcomp?)
    ensures Inv(Delivered(s, DoPubackcomp(s.c, s.down[0].mid)))
  {
    hide MidInv;
    var o := DoPubackcomp(s.c, s.down[0].mid);
    AckIsExpected(s);
    AckKeepsCore(s);
    forall mid: uint16 ensures MidHolds(Delivered(s, o), mid) {
      assert MidHolds(s, mid);
      AckKeepsMid(s, mid);
    }
  }

  lemma AckKeepsMid(s: Sys, mid: uint16)
    requires MidHolds(s, mid) && s.down != [] && (s.down[0].Puback? || s.down[0].Pubcomp?)
    requires s.c.connected && Window.Holds(s.c) && DistinctMids(s.c.out)
    requires var k := Find(s.c.out, s.down[0].mid); k < |s.c.out| ==> k < s.c.inflight
    ensures MidHolds(Delivered(s, DoPubackcomp(s.c, s.down[0].mid)), mid)
  {
    hide MidInv;
    var k := Find(s.c.out, s.down[0].mid);
    if k == |s.c.out| {
      AckFreesMid(s, mid);
      assert s.up + [] == s.up;
    } else {
      RemoveKeepsMid(s, k, mid);
    }
  }

  lemma RemoveKeepsReported(s: Sys, k: nat, t: Sys)
    requires Reported(s) && Increasing(s.c.out) && k < |s.c.out| && |t.c.out| == |s.c.out| - 1
    requires Has(s.accepted, s.c.out[k].serial) && s.c.out[k].serial < s.c.published
    requires t.accepted == s.accepted && t.c.published == s.c.published
    requires t.done == s.done || t.done == s.done + [s.c.out[k]]
    requires forall i :: 0 <= i < |t.c.out| ==> t.c.out[i].serial == s.c.out[if i < k then i else i + 1].serial
    ensures Reported(t)
  {
  }

  /** What the invariant says about the message named by the PUBLISH at the head of the channel. */
  lemma PublishIsOwned(s: Sys)
    requires Inv(s) && s.up != [] && s.up[0].Publish? && s.up[0].qos > 0
    ensures var p := s.up[0]; var m := Look(s.c.out, p.mid);
            && (p.qos == 2 ==>
                  m.Some? && m.value.serial == p.serial && (p.mid in s.held <==> Has(s.accepted, p.serial)))
            && (p.qos == 1 ==>
                  p.mid !in s.held && (Has(s.accepted, p.serial) || (m.Some? && m.value.serial == p.serial)))
            && p.serial < s.c.published
  {
    assert MidHolds(s, s.up[0].mid);
    SelHead(true, s.up);
  }

  lemma OtherSerial(ms: seq<Msg>, mid: uint16, other: uint16)
    requires Increasing(ms) && mid != other && Look(ms, mid).Some? && Look(ms, other).Some?
    ensures Look(ms, mid).value.serial != Look(ms, other).value.serial
  {
  }

  /** Taking the first packet of a flow from the channel, as seen by the id it carries. */
  lemma TakePerMid(m: Option<Msg>, u: seq<Packet>, d: seq<Packet>, held: bool, acc: seq<Packet>, answer: Packet)
    requires MidInv(m, u, d, held, acc) && u != [] && (u[0].Pubrel? || (u[0].Publish? && u[0].qos > 0))
    requires if u[0].Pubrel? then answer.Pubcomp? else if u[0].qos == 1 then answer.Puback? else answer.Pubrec?
    ensures var p := u[0];
            var acc1 := if p.Publish? && (p.qos == 1 || !held) then acc + [p] else acc;
            var held1 := if p.Pubrel? then false else held || p.qos == 2;
            MidInv(m, u[1..], d + [answer], held1, acc1)
  {
    if u[0].Publish? {
      HasAppend(acc, u[0]);
    }
  }

  lemma HasAppend(acc: seq<Packet>, p: Packet)
    requires p.Publish?
    ensures forall n :: Has(acc + [p], n) <==> Has(acc, n) || n == p.serial
  {
    forall n ensures Has(acc + [p], n) <==> Has(acc, n) || n == p.serial {
      assert forall i :: 0 <= i < |acc| ==> (acc + [p])[i] == acc[i];
      assert (acc + [p])[|acc|] == p;
    }
  }

  /** Accepting a message changes nothing for the owner of another id. */
  lemma OtherMidKeeps(m: Option<Msg>, u: seq<Packet>, d: seq<Packet>, held: bool, acc: seq<Packet>, p: Packet)
    requires MidInv(m, u, d, held, acc) && p.Publish?
    requires Has(acc, p.serial) || (m.Some? ==> m.value.serial != p.serial)
    ensures MidInv(m, u, d, held, acc + [p])
  {
    HasAppend(acc, p);
  }

  /** A packet of the flow is answered by one packet for the same id; any other packet changes nothing. */
  lemma TakeAnswers(s: Sys) returns (answer: seq<Packet>)
    requires s.up != []
    ensures var t := Take(s);
            t.c == s.c && t.up == s.up[1..] && t.down == s.down + answer
    ensures var t := Take(s); var p := s.up[0];
            if Keep(true, p.mid, p) then
              && |answer| == 1 && answer[0].mid == p.mid
              && (if p.Pubrel? then answer[0].Pubcomp? else if p.qos == 1 then answer[0].Puback? else answer[0].Pubrec?)
              && t.accepted == (if p.Publish? && (p.qos == 1 || p.mid !in s.held) then s.accepted + [p] else s.accepted)
              && (p.mid in t.held <==> !p.Pubrel? && (p.mid in s.held || p.qos == 2))
              && forall mid: uint16 :: mid != p.mid ==> (mid in t.held <==> mid in s.held)
            else answer == [] && t.accepted == s.accepted && t.held == s.held
  {
    answer := Take(s).down[|s.down|..];
  }

  lemma SelTail(toBroker: bool, mid: uint16, ch: seq<Packet>)
    requires ch != [] && !Keep(toBroker, mid, ch[0])
    ensures Sel(toBroker, mid, ch) == Sel(toBroker, mid, ch[1..])
  {
  }

  lemma TakeKeepsMid(s: Sys, mid: uint16)
    requires s.up != [] && MidHolds(s, mid)
    requires var p := s.up[0];
             p.Publish? && p.qos > 0 && mid != p.mid ==>
               Has(s.accepted, p.serial) || (Look(s.c.out, mid).Some? ==> Look(s.c.out, mid).value.serial != p.serial)
    ensures MidHolds(Take(s), mid)
  {
    hide MidInv, Sel, Look, Has, Take;
    var p := s.up[0];
    var m, u, d := Look(s.c.out, mid), Sel(true, mid, s.up), Sel(false, mid, s.down);
    var answer := TakeAnswers(s);
    SelAppend(false, mid, s.down, answer);
    if Keep(true, mid, p) {
      SelHead(true, s.up);
      assert answer == [answer[0]];
      SelOne(false, answer[0]);
      TakePerMid(m, u, d, mid in s.held, s.accepted, answer[0]);
    } else {
      SelTail(true, mid, s.up);
      SelEmpty(false, mid, answer);
      assert d + [] == d;
      if Keep(true, p.mid, p) && p.Publish? {
        OtherMidKeeps(m, u, d, mid in s.held, s.accepted, p);
      }
    }
  }

  lemma SelOne(toBroker: bool, p: Packet)
    requires Keep(toBroker, p.mid, p)
    ensures Sel(toBroker, p.mid, [p]) == [p]
  {
  }

  lemma TakeKeepsCore(s: Sys)
    requires Core(s) && s.up != []
    requires var p := s.up[0];
             p.Publish? && p.qos > 0 ==>
               p.serial < s.c.published && (p.qos == 2 && p.mid !in s.held ==> !Has(s.accepted, p.serial))
    ensures Core(Take(s))
  {
    if s.up[0].Publish? {
      HasAppend(s.accepted, s.up[0]);
    }
  }

  lemma TakeKeepsInv(s: Sys)
    requires Inv(s) && s.up != []
    ensures Inv(Take(s))
  {
    hide MidInv;
    var p := s.up[0];
    if p.Publish? && p.qos > 0 {
      PublishIsOwned(s);
    }
    TakeKeepsCore(s);
    forall mid: uint16 ensures MidHolds(Take(s), mid) {
      assert MidHolds(s, mid);
      if p.Publish? && p.qos > 0 && mid != p.mid && Look(s.c.out, mid).Some? && Look(s.c.out, p.mid).Some? {
        OtherSerial(s.c.out, mid, p.mid);
      }
      TakeKeepsMid(s, mid);
    }
  }

  lemma PushKeepsInv(s: Sys, p: Packet)
    requires Inv(s) && Enabled(s, BrokerPush(p))
    ensures Inv(Next(s, BrokerPush(p)))
  {
    var t := Next(s, BrokerPush(p));
    forall mid: uint16 ensures MidHolds(t, mid) {
      assert MidHolds(s, mid);
      SelAppend(false, mid, s.down, [p]);
    }
  }

  /** A subscribe or unsubscribe takes an id but leaves the flows alone. */
  lemma RequestKeepsInv(s: Sys, r: Request)
    requires Inv(s)
    ensures Inv(Next(s, AppRequest(r)))
  {
    hide MidInv;
    var o := DoRequest(s.c, r);
    forall mid: uint16 ensures MidHolds(Next(s, AppRequest(r)), mid) {
      assert MidHolds(s, mid);
      SelAppend(true, mid, s.up, o.sent);
      SelEmpty(true, mid, o.sent);
      assert Sel(true, mid, s.up) + [] == Sel(true, mid, s.up);
    }
  }

  lemma DropKeepsInv(s: Sys)
    requires Inv(s)
    ensures Inv(Next(s, Drop))
  {
    hide MidInv;
    forall mid: uint16 ensures MidHolds(Next(s, Drop), mid) {
      assert MidHolds(s, mid);
    }
  }

  lemma IssuedIsHistory(s: Sys, issued: seq<Issue>)
    requires Inv(s)
    ensures Inv(s.(issued := issued))
  {
    forall mid: uint16 ensures MidHolds(s.(issued := issued), mid) {
      assert MidHolds(s, mid);
    }
  }

  lemma NextKeepsInv(s: Sys, a: Action)
    requires Inv(s) && Enabled(s, a)
    ensures Inv(Next(s, a))
  {
    match a
    case AppPublish(app, qos, now) =>
      PublishKeepsInv(s, app, qos, now);
      IssuedIsHistory(After(s, DoPublish(s.c, app, qos, now), false), Next(s, a).issued);
    case AppRequest(r) => RequestKeepsInv(s, r);
    case Drop => DropKeepsInv(s);
    case Reconnect(ok) => ReconnectKeepsInv(s, ok);
    case Retry(now) => RetryKeepsInv(s, now);
    case Deliver(now) =>
      if s.down[0].Pubrec? { PubrecKeepsInv(s, now); }
      else if s.down[0].Puback? || s.down[0].Pubcomp? { AckKeepsInv(s); }
      else { ForeignKeepsInv(s, now); }
    case BrokerTake => TakeKeepsInv(s);
    case BrokerPush(p) => PushKeepsInv(s, p);
  }

  lemma {:induction false} RunKeepsInv(s: Sys, acts: seq<Action>, t: Sys)
    requires Inv(s) && Run(s, acts, t)
    ensures Inv(t)
    decreases |acts|
  {
    if acts != [] {
      NextKeepsInv(s, acts[0]);
      RunKeepsInv(Next(s, acts[0]), acts[1..], t);
    }
  }

  lemma InitHasInv(s: Sys)
    requires Init(s)
    ensures Inv(s)
  {
  }
}
