/**
 What the client sends over a whole run, and the end-to-end results that follow from it.

 The history `log` holds every packet sent since the start, across reconnects.
 */
module SendOrder {
  import opened Mqtt
  import opened Engine
  import opened Delivery
  import Window

  /** A packet sent for a message of the list agrees with the message and with its state. */
  predicate Speaks(m: Msg, p: Packet) {
    OfList(p) && m.serial == p.serial && m.mid == p.mid
    && if p.Pubrel? then m.state == WaitForPubcomp
       else m.app == p.app && m.qos == p.qos && (m.state == WaitForPuback || m.state == WaitForPubrec)
  }

  /** Packets that belong to the outgoing list: PUBREL and PUBLISH above QoS 0. */
  predicate OfList(p: Packet) {
    p.Pubrel? || (p.Publish? && p.qos > 0)
  }

  predicate FirstAttempt(p: Packet) {
    p.Publish? && p.qos > 0 && !p.dup
  }

  /** A message of the new list is an old message that has not moved backwards, or a new message. */
  predicate From(c: Client, m: Msg) {
    m.serial == c.published
    || exists k :: 0 <= k < |c.out| && Grows(c.out[k], m)
  }

  predicate Grows(old1: Msg, m: Msg) {
    && m.serial == old1.serial && m.app == old1.app && m.qos == old1.qos
    && (m.state == Invalid ==> old1.state == Invalid)
    && (m.state != WaitForPubcomp ==> old1.state != WaitForPubcomp)
  }

  /** What one call may send: the obligations that keep `LogInv`. */
  predicate Legit(c: Client, c1: Client, sent: seq<Packet>) {
    && (forall j :: 0 <= j < |c1.out| ==> From(c, c1.out[j]))
    && (forall i :: 0 <= i < |sent| && OfList(sent[i]) ==> exists j :: 0 <= j < |c1.out| && Speaks(c1.out[j], sent[i]))
    && (forall i, j :: 0 <= i < j < |sent| && FirstAttempt(sent[i]) ==> !FirstAttempt(sent[j]))
    && (forall i :: 0 <= i < |sent| && FirstAttempt(sent[i]) ==> Opens(c, c1, sent[i].serial))
    && (forall i :: 0 <= i < |sent| && sent[i].Publish? && sent[i].qos == 0 ==> Passes(c, c1, sent[i].serial))
  }

  /** A QoS 0 message is sent without entering the list. */
  predicate Passes(c: Client, c1: Client, serial: nat) {
    serial == c.published < c1.published && forall j :: 0 <= j < |c1.out| ==> c1.out[j].serial != serial
  }

  /** The first attempt at a message is made when it leaves the queue, and it leaves from the front. */
  predicate Opens(c: Client, c1: Client, serial: nat) {
    && (serial == c.published || exists k :: 0 <= k < |c.out| && c.out[k].serial == serial && c.out[k].state == Invalid)
    && (forall j :: 0 <= j < |c1.out| && c1.out[j].state == Invalid ==> serial < c1.out[j].serial)
  }

  // ---- The invariant of the history ------------------------------------------------------------

  /** No PUBLISH follows a PUBREL for the same message. */
  predicate NoPublishAfterPubrel(log: seq<Packet>) {
    forall i, j :: 0 <= i < j < |log| && log[i].Pubrel? && log[j].Publish? ==> log[i].serial != log[j].serial
  }

  /** First attempts are made in publish order, and once. */
  predicate FirstAttemptsInOrder(log: seq<Packet>) {
    forall i, j :: 0 <= i < j < |log| && FirstAttempt(log[i]) && FirstAttempt(log[j]) ==> log[i].serial < log[j].serial
  }

  /** The history never mentions a message that the application has not published yet. */
  predicate Past(log: seq<Packet>, published: nat) {
    && (forall i :: 0 <= i < |log| && log[i].Publish? ==> log[i].serial < published)
    && (forall i :: 0 <= i < |log| && log[i].Pubrel? ==> log[i].serial < published)
  }

  /** What the history says about one message that is still in the list. */
  predicate Consistent(log: seq<Packet>, m: Msg) {
    && (m.state != WaitForPubcomp ==> forall i :: 0 <= i < |log| && log[i].Pubrel? ==> log[i].serial != m.serial)
    && (m.state == Invalid ==>
          && (forall i :: 0 <= i < |log| && FirstAttempt(log[i]) ==> log[i].serial < m.serial)
          && (forall i :: 0 <= i < |log| && log[i].Publish? ==> log[i].serial != m.serial))
  }

  predicate LogInv(c: Client, log: seq<Packet>) {
    && NoPublishAfterPubrel(log) && FirstAttemptsInOrder(log) && Past(log, c.published)
    && forall k :: 0 <= k < |c.out| ==> Consistent(log, c.out[k])
  }

  lemma LegitKeepsConsistent(c: Client, c1: Client, log: seq<Packet>, sent: seq<Packet>, k: nat)
    requires LogInv(c, log) && Legit(c, c1, sent) && Increasing(c1.out) && k < |c1.out|
    ensures Consistent(log + sent, c1.out[k])
  {
  }

  lemma LegitKeepsOrder(c: Client, c1: Client, log: seq<Packet>, sent: seq<Packet>)
    requires LogInv(c, log) && Legit(c, c1, sent) && Increasing(c1.out)
    ensures NoPublishAfterPubrel(log + sent) && FirstAttemptsInOrder(log + sent)
  {
    var all := log + sent;
    forall j | 0 <= j < |sent| && sent[j].Publish?
      ensures forall i :: 0 <= i < |log| && log[i].Pubrel? ==> log[i].serial != sent[j].serial
      ensures forall i :: 0 <= i < j && sent[i].Pubrel? ==> sent[i].serial != sent[j].serial
      ensures FirstAttempt(sent[j]) ==>
                forall i :: 0 <= i < |log| && FirstAttempt(log[i]) ==> log[i].serial < sent[j].serial
    {
      PublishIsNew(c, c1, log, sent, j);
    }
    assert forall i :: 0 <= i < |all| ==> all[i] == if i < |log| then log[i] else sent[i - |log|];
  }

  /** One PUBLISH of a step, against everything sent before it. */
  lemma PublishIsNew(c: Client, c1: Client, log: seq<Packet>, sent: seq<Packet>, j: nat)
    requires LogInv(c, log) && Legit(c, c1, sent) && Increasing(c1.out) && j < |sent| && sent[j].Publish?
    ensures forall i :: 0 <= i < |log| && log[i].Pubrel? ==> log[i].serial != sent[j].serial
    ensures forall i :: 0 <= i < j && sent[i].Pubrel? ==> sent[i].serial != sent[j].serial
    ensures FirstAttempt(sent[j]) ==>
              forall i :: 0 <= i < |log| && FirstAttempt(log[i]) ==> log[i].serial < sent[j].serial
  {
  }

  lemma LegitKeepsLog(c: Client, c1: Client, log: seq<Packet>, sent: seq<Packet>)
    requires LogInv(c, log) && Legit(c, c1, sent) && Increasing(c1.out)
    requires c.published <= c1.published && forall j :: 0 <= j < |c1.out| ==> c1.out[j].serial < c1.published
    ensures LogInv(c1, log + sent)
  {
    LegitKeepsOrder(c, c1, log, sent);
    forall k | 0 <= k < |c1.out| ensures Consistent(log + sent, c1.out[k]) {
      LegitKeepsConsistent(c, c1, log, sent, k);
    }
    assert Past(sent, c1.published);
    assert Past(log + sent, c1.published) by {
      assert forall i :: 0 <= i < |log + sent| ==> (log + sent)[i] == if i < |log| then log[i] else sent[i - |log|];
    }
  }

  // ---- Each step is legitimate -----------------------------------------------------------------

  lemma SameList(c: Client, c1: Client, sent: seq<Packet>)
    requires |c1.out| == |c.out| && NoneOfList(sent)
    requires forall i :: 0 <= i < |c.out| ==> c1.out[i] == c.out[i] || c1.out[i] == c.out[i].(timestamp := 0)
    ensures Legit(c, c1, sent)
  {
  }

  lemma PublishIsLegit(c: Client, app: AppMessage, qos: int, now: int)
    requires Base(c)
    ensures var o := DoPublish(c, app, qos, now); Legit(c, o.c, o.sent)
  {
    var o := DoPublish(c, app, qos, now);
    forall j | 0 <= j < |o.c.out| ensures From(c, o.c.out[j]) {
      if j < |c.out| {
        assert Grows(c.out[j], o.c.out[j]);
      }
    }
    if |o.sent| > 0 && qos > 0 {
      assert Speaks(o.c.out[|c.out|], o.sent[0]);
    }
  }

  /** Every packet of the list in `sent` repeats a message of `ms`. */
  predicate Repeats(ms: seq<Msg>, sent: seq<Packet>) {
    && (forall i :: 0 <= i < |sent| && OfList(sent[i]) ==> exists j :: 0 <= j < |ms| && Speaks(ms[j], sent[i]))
    && (forall i :: 0 <= i < |sent| && sent[i].Publish? ==> sent[i].qos > 0 && sent[i].dup)
  }

  lemma {:induction false} RetryRepeats(ms: seq<Msg>, connected: bool, retry: nat, now: int)
    requires forall i :: 0 <= i < |ms| ==> ms[i].qos > 0
    ensures Repeats(RetryAll(ms, connected, retry, now).0, RetryAll(ms, connected, retry, now).1)
  {
    if ms != [] {
      RetryRepeats(ms[1..], connected, retry, now);
      var (m, one) := RetryOne(ms[0], connected, retry, now);
      var (rest, more) := RetryAll(ms[1..], connected, retry, now);
      assert one != [] && OfList(one[0]) ==> Speaks([m][0], one[0]);
      RepeatsCons(m, one, rest, more);
    }
  }

  lemma RepeatsCons(m: Msg, one: seq<Packet>, rest: seq<Msg>, more: seq<Packet>)
    requires Repeats([m], one) && Repeats(rest, more)
    ensures Repeats([m] + rest, one + more)
  {
    var all := [m] + rest;
    forall i | 0 <= i < |one + more| && OfList((one + more)[i])
      ensures exists j :: 0 <= j < |all| && Speaks(all[j], (one + more)[i])
    {
      if i < |one| {
        var j :| 0 <= j < |[m]| && Speaks([m][j], one[i]);
        assert Speaks(all[0], (one + more)[i]);
      } else {
        var j :| 0 <= j < |rest| && Speaks(rest[j], more[i - |one|]);
        assert Speaks(all[j + 1], (one + more)[i]);
      }
    }
  }

  lemma RetryIsLegit(c: Client, now: int)
    requires Base(c)
    ensures var o := DoRetry(c, now); Legit(c, o.c, o.sent)
  {
    var o := DoRetry(c, now);
    RetryRepeats(c.out, c.connected, c.retry, now);
    RetryInSendsAcks(c.inq, c.connected, c.retry, now);
    assert forall j :: 0 <= j < |c.out| ==> Grows(c.out[j], o.c.out[j]);
    var acks := RetryAll(c.inq, c.connected, c.retry, now).1;
    RepeatsLegit(c, o.c, RetryAll(c.out, c.connected, c.retry, now).1, acks);
  }

  lemma RepeatsLegit(c: Client, c1: Client, sent: seq<Packet>, acks: seq<Packet>)
    requires |c1.out| == |c.out| && forall j :: 0 <= j < |c.out| ==> Grows(c.out[j], c1.out[j])
    requires Repeats(c1.out, sent) && NoneOfList(acks)
    ensures Legit(c, c1, sent + acks)
  {
  }

  predicate NoneOfList(sent: seq<Packet>) {
    forall i :: 0 <= i < |sent| ==> !sent[i].Publish? && !sent[i].Pubrel?
  }

  lemma {:induction false} RetryInSendsAcks(ms: seq<Msg>, connected: bool, retry: nat, now: int)
    requires Window.InHeld(ms)
    ensures NoneOfList(RetryAll(ms, connected, retry, now).1)
  {
    if ms != [] {
      RetryInSendsAcks(ms[1..], connected, retry, now);
      assert NoneOfList(RetryOne(ms[0], connected, retry, now).1);
    }
  }

  lemma PubrecIsLegit(c: Client, mid: uint16, now: int)
    ensures var o := DoPubrec(c, mid, now); Legit(c, o.c, o.sent)
  {
    var o := DoPubrec(c, mid, now);
    var k := Find(c.out, mid);
    forall j | 0 <= j < |o.c.out| ensures From(c, o.c.out[j]) {
      assert Grows(c.out[j], o.c.out[j]);
    }
    if k < |c.out| {
      assert Speaks(o.c.out[k], o.sent[0]);
    }
  }

  lemma AckIsLegit(c: Client, mid: uint16)
    requires Base(c) && c.connected && (Find(c.out, mid) < |c.out| ==> Find(c.out, mid) < c.inflight)
    ensures var o := DoPubackcomp(c, mid); Legit(c, o.c, o.sent)
  {
    var o := DoPubackcomp(c, mid);
    var k := Find(c.out, mid);
    if k == |c.out| {
      SameList(c, o.c, o.sent);
    } else {
      Window.RemoveSlidesWindow(c, k);
      SlideIsLegit(c, k, o.c, o.sent);
    }
  }

  lemma SlideGrows(c: Client, k: nat, j: nat)
    requires Window.Holds(c) && k < c.inflight && j < |c.out| - 1
    ensures Grows(c.out[if j < k then j else j + 1], SlidAt(c, k, j))
    ensures SlidAt(c, k, j).state == Invalid ==> c.inflight <= j
  {
    assert j < c.inflight ==> Window.Started(c.out[j]);
    assert c.inflight < |c.out| ==> Window.Queued(c.out[c.inflight]);
  }

  /** The message let in makes its first attempt, from the front of the queue. */
  lemma SlideOpens(c: Client, k: nat, c1: Client)
    requires Base(c) && k < c.inflight < |c.out| && c1.out == Slid(c, k)
    ensures var p := ToPublish(Window.Promoted(c.out[c.inflight]));
            p.qos > 0 && Opens(c, c1, p.serial) && Speaks(c1.out[c.inflight - 1], p)
  {
    SlidIs(c, k);
    assert Window.Queued(c.out[c.inflight]);
    hide Slid, Window.Holds, Window.Shape, Window.InHeld, DistinctMids, Find;
    forall j | 0 <= j < |c1.out| && c1.out[j].state == Invalid ensures c.out[c.inflight].serial < c1.out[j].serial {
      SlideGrows(c, k, j);
    }
    assert c.out[c.inflight].state == Invalid;
  }

  lemma SlideIsLegit(c: Client, k: nat, c1: Client, sent: seq<Packet>)
    requires Base(c) && k < c.inflight && c1.out == Slid(c, k)
    requires c.inflight < |c.out| && sent != [] ==> sent == [ToPublish(Window.Promoted(c.out[c.inflight]))]
    requires c.inflight == |c.out| ==> sent == []
    ensures Legit(c, c1, sent)
  {
    hide Slid, SlidAt, Window.Shape, Grows, Opens, Speaks, Window.Promoted;
    SlidIs(c, k);
    forall j | 0 <= j < |c1.out| ensures From(c, c1.out[j]) {
      SlideGrows(c, k, j);
    }
    if c.inflight < |c.out| {
      SlideOpens(c, k, c1);
    }
  }

  lemma DeliverIsLegit(s: Sys, now: int)
    requires Inv(s) && Enabled(s, Deliver(now))
    ensures var o := DoReceive(s.c, s.down[0], now); Legit(s.c, o.c, o.sent)
  {
    var p := s.down[0];
    var o := DoReceive(s.c, p, now);
    if p.Pubrec? {
      PubrecIsLegit(s.c, p.mid, now);
    } else if p.Puback? || p.Pubcomp? {
      AckIsExpected(s);
      AckIsLegit(s.c, p.mid);
    } else {
      SameList(s.c, o.c, o.sent);
    }
  }

  lemma ReceiveKeepsPublished(c: Client, p: Packet, now: int)
    ensures DoReceive(c, p, now).c.published == c.published
  {
  }

  /** The client part of a step, and what it sends. */
  lemma NextIsLegit(s: Sys, a: Action) returns (c1: Client, sent: seq<Packet>)
    requires Inv(s) && Enabled(s, a)
    ensures var t := Next(s, a);
            && Legit(s.c, c1, sent) && t.log == s.log + sent && t.c.out == c1.out && t.c.published == c1.published
            && s.c.published <= c1.published && (!a.AppPublish? ==> s.c.published == c1.published)
            && t.up == (if a.Reconnect? then [] else if a.BrokerTake? then s.up[1..] else s.up + sent)
  {
    hide MidInv, MidHolds, Legit, RetryAll, ResetOut, DoReceive;
    c1, sent := Next(s, a).c, [];
    match a {
      case AppPublish(app, qos, now) =>
        PublishIsLegit(s.c, app, qos, now);
        sent := DoPublish(s.c, app, qos, now).sent;
      case AppRequest(r) =>
        sent := DoRequest(s.c, r).sent;
        SameList(s.c, DoRequest(s.c, r).c, sent);
      case Retry(now) =>
        RetryIsLegit(s.c, now);
        sent := DoRetry(s.c, now).sent;
      case Deliver(now) =>
        DeliverIsLegit(s, now);
        ReceiveKeepsPublished(s.c, s.down[0], now);
        c1 := DoReceive(s.c, s.down[0], now).c;
        sent := DoReceive(s.c, s.down[0], now).sent;
      case Reconnect(ok) =>
        Window.ReconnectOnlyClearsTimestamps(s.c, ok);
        SameList(s.c, c1, []);
        assert s.log + [] == s.log;
      case _ =>
        SameList(s.c, c1, []);
        assert s.log + [] == s.log && s.up + [] == s.up;
    }
  }

  lemma NextKeepsLog(s: Sys, a: Action)
    requires Inv(s) && Enabled(s, a) && LogInv(s.c, s.log)
    ensures LogInv(Next(s, a).c, Next(s, a).log)
  {
    var c1, sent := NextIsLegit(s, a);
    NextKeepsInv(s, a);
    LegitKeepsLog(s.c, c1, s.log, sent);
  }

  // ---- Contents ----------------------------------------------------------------------------------

  predicate Known(issued: seq<Issue>, p: Packet) {
    p.Publish? && p.qos > 0 ==> p.serial < |issued| && issued[p.serial] == Issue(p.app, p.qos)
  }

  predicate KnownMsg(issued: seq<Issue>, m: Msg) {
    m.serial < |issued| && issued[m.serial] == Issue(m.app, m.qos)
  }

  predicate AllKnown(issued: seq<Issue>, ch: seq<Packet>) {
    forall i :: 0 <= i < |ch| ==> Known(issued, ch[i])
  }

  predicate AllKnownMsg(issued: seq<Issue>, ms: seq<Msg>) {
    forall i :: 0 <= i < |ms| ==> KnownMsg(issued, ms[i])
  }

  /** Every message, wherever it is, is what the application published under its serial. */
  predicate Authentic(s: Sys) {
    && |s.issued| == s.c.published
    && AllKnownMsg(s.issued, s.c.out) && AllKnownMsg(s.issued, s.done)
    && AllKnown(s.issued, s.up) && AllKnown(s.issued, s.accepted)
  }

  /** The new list holds published messages only. */
  lemma ListStaysKnown(issued: seq<Issue>, more: seq<Issue>, c: Client, c1: Client, sent: seq<Packet>)
    requires AllKnownMsg(issued, c.out) && Legit(c, c1, sent)
    requires forall j :: 0 <= j < |c1.out| && c1.out[j].serial == c.published ==> KnownMsg(issued + more, c1.out[j])
    ensures AllKnownMsg(issued + more, c1.out)
  {
  }

  /** What a publish puts at the end of the list is known by the time it is there. */
  lemma NewIsKnown(s: Sys, a: Action)
    requires Inv(s) && Enabled(s, a) && |s.issued| == s.c.published && a.AppPublish?
    ensures var t := Next(s, a);
            forall j :: 0 <= j < |t.c.out| && t.c.out[j].serial == s.c.published ==> KnownMsg(t.issued, t.c.out[j])
  {
    PublishQueuesOne(s.c, a.app, a.qos, a.now);
  }

  lemma IssuedGrows(s: Sys, a: Action) returns (more: seq<Issue>)
    requires Enabled(s, a)
    ensures Next(s, a).issued == s.issued + more && Next(s, a).c.published == s.c.published + |more|
  {
    more := Next(s, a).issued[|s.issued|..];
  }

  lemma SentIsKnown(issued: seq<Issue>, c: Client, c1: Client, sent: seq<Packet>)
    requires Legit(c, c1, sent) && AllKnownMsg(issued, c1.out)
    ensures AllKnown(issued, sent)
  {
  }

  lemma NextKeepsKnownMsg(s: Sys, a: Action, c1: Client, sent: seq<Packet>)
    requires Inv(s) && Enabled(s, a) && Authentic(s) && Legit(s.c, c1, sent)
    requires Inv(Next(s, a)) && Next(s, a).c.out == c1.out
             && (!a.AppPublish? ==> s.c.published == Next(s, a).c.published)
    ensures AllKnownMsg(Next(s, a).issued, c1.out) && |Next(s, a).issued| == Next(s, a).c.published
    ensures s.issued <= Next(s, a).issued
  {
    var more := IssuedGrows(s, a);
    if a.AppPublish? {
      NewIsKnown(s, a);
    }
    ListStaysKnown(s.issued, more, s.c, c1, sent);
  }

  /** More issues leave what was known known. */
  lemma KnownGrows(issued: seq<Issue>, now: seq<Issue>, ch: seq<Packet>, ms: seq<Msg>)
    requires AllKnown(issued, ch) && AllKnownMsg(issued, ms) && issued <= now
    ensures AllKnown(now, ch) && AllKnownMsg(now, ms)
  {
  }

  lemma NextKeepsAuthentic(s: Sys, a: Action)
    requires Inv(s) && Enabled(s, a) && Authentic(s)
    ensures Authentic(Next(s, a))
  {
    hide Inv, Next, Legit, Known, KnownMsg;
    var t := Next(s, a);
    var c1, sent := NextIsLegit(s, a);
    NextKeepsInv(s, a);
    NextKeepsKnownMsg(s, a, c1, sent);
    SentIsKnown(t.issued, s.c, c1, sent);
    KnownGrows(s.issued, t.issued, s.up + s.accepted, s.c.out + s.done);
    AcceptedGrows(s, a);
    DoneGrows(s, a);
    assert forall i :: 0 <= i < |s.up| ==> s.up[i] == (s.up + s.accepted)[i];
    assert forall i :: 0 <= i < |s.accepted| ==> s.accepted[i] == (s.up + s.accepted)[i + |s.up|];
    assert forall i :: 0 <= i < |s.c.out| ==> s.c.out[i] == (s.c.out + s.done)[i];
    assert forall i :: 0 <= i < |s.done| ==> s.done[i] == (s.c.out + s.done)[i + |s.c.out|];
  }

  lemma AcceptedGrows(s: Sys, a: Action)
    requires Enabled(s, a)
    ensures var t := Next(s, a);
            t.accepted == s.accepted || (s.up != [] && t.accepted == s.accepted + [s.up[0]])
  {
  }

  lemma DoneGrows(s: Sys, a: Action)
    requires Enabled(s, a)
    ensures var t := Next(s, a);
            t.done == s.done || exists k :: 0 <= k < |s.c.out| && t.done == s.done + [s.c.out[k]]
  {
    hide DoPublish, DoRequest, DoRetry;
    match a
    case AppPublish(app, qos, now) => PublishReportsNothing(s.c, app, qos, now);
    case AppRequest(r) => RequestReportsNothing(s.c, r);
    case Retry(now) => RetryKeepsIds(s.c, now);
    case _ =>
  }

  lemma PublishReportsNothing(c: Client, app: AppMessage, qos: int, now: int)
    ensures DoPublish(c, app, qos, now).onPublish == []
  {
  }

  lemma RequestReportsNothing(c: Client, r: Request)
    ensures DoRequest(c, r).onPublish == []
  {
  }

  // ---- Results over whole runs -------------------------------------------------------------------

  ghost predicate All(s: Sys) {
    Inv(s) && LogInv(s.c, s.log) && Authentic(s)
  }

  lemma {:induction false} RunKeepsAll(s: Sys, acts: seq<Action>, t: Sys)
    requires All(s) && Run(s, acts, t)
    ensures All(t)
    decreases |acts|
  {
    if acts != [] {
      NextKeepsInv(s, acts[0]);
      NextKeepsLog(s, acts[0]);
      NextKeepsAuthentic(s, acts[0]);
      RunKeepsAll(Next(s, acts[0]), acts[1..], t);
    }
  }

  lemma Reach(s: Sys, acts: seq<Action>, t: Sys)
    requires Init(s) && Run(s, acts, t)
    ensures All(t)
  {
    InitHasInv(s);
    RunKeepsAll(s, acts, t);
  }

  /** How often the broker has accepted the message with this serial. */
  function Count(acc: seq<Packet>, serial: nat): nat {
    if acc == [] then 0
    else (if acc[0].Publish? && acc[0].serial == serial then 1 else 0) + Count(acc[1..], serial)
  }

  lemma {:induction false} CountPositive(acc: seq<Packet>, serial: nat)
    ensures Count(acc, serial) > 0 <==> Has(acc, serial)
  {
    if acc != [] {
      CountPositive(acc[1..], serial);
      assert forall i :: 0 < i < |acc| ==> acc[i] == acc[1..][i - 1];
      assert forall i :: 0 <= i < |acc| - 1 ==> acc[1..][i] == acc[i + 1];
    }
  }

  lemma {:induction false} CountAtMostOne(acc: seq<Packet>, serial: nat)
    requires forall i, j :: 0 <= i < j < |acc| && acc[i].Publish? && acc[j].Publish? && acc[i].serial == serial ==>
             acc[j].serial != serial
    ensures Count(acc, serial) <= 1
  {
    if acc != [] {
      CountAtMostOne(acc[1..], serial);
      CountPositive(acc[1..], serial);
      assert forall i :: 0 <= i < |acc| - 1 ==> acc[1..][i] == acc[i + 1];
    }
  }

  /**
   In every run the broker accepts each QoS 2 message at most once, with the content the
   application gave it; a message reported through on_publish has been accepted, exactly once if
   its QoS is 2; and no message is reported twice.
   */
  lemma ExactlyOnce(s: Sys, acts: seq<Action>, t: Sys)
    requires Init(s) && Run(s, acts, t)
    ensures forall n :: 0 <= n < |t.issued| && t.issued[n].qos == 2 ==> Count(t.accepted, n) <= 1
    ensures forall i :: 0 <= i < |t.accepted| ==>
              var p := t.accepted[i]; p.Publish? && p.serial < |t.issued| && t.issued[p.serial] == Issue(p.app, p.qos)
    ensures forall i :: 0 <= i < |t.done| ==>
              var m := t.done[i];
              && m.serial < |t.issued| && t.issued[m.serial] == Issue(m.app, m.qos)
              && Count(t.accepted, m.serial) >= 1 && (m.qos == 2 ==> Count(t.accepted, m.serial) == 1)
    ensures forall i, j :: 0 <= i < j < |t.done| ==> t.done[i].serial != t.done[j].serial
  {
    Reach(s, acts, t);
    forall i | 0 <= i < |t.accepted|
      ensures t.accepted[i].Publish? && t.accepted[i].qos > 0 && Known(t.issued, t.accepted[i])
    {
    }
    forall n: nat | n < |t.issued| && t.issued[n].qos == 2 ensures Count(t.accepted, n) <= 1 {
      CountAtMostOne(t.accepted, n);
    }
    forall i | 0 <= i < |t.done| ensures KnownMsg(t.issued, t.done[i]) && Count(t.accepted, t.done[i].serial) >= 1 {
      CountPositive(t.accepted, t.done[i].serial);
    }
  }

  /** Once a PUBREL has been sent for a message, no step ever sends its PUBLISH again. */
  lemma PubrelIsFinal(s: Sys, acts: seq<Action>, t: Sys)
    requires Init(s) && Run(s, acts, t)
    ensures NoPublishAfterPubrel(t.log)
  {
    Reach(s, acts, t);
  }

  /**
   First attempts above QoS 0 go out at most once per message and in publish order; queued messages have
   not gone out.
   */
  lemma FirstAttemptsFollowPublishes(s: Sys, acts: seq<Action>, t: Sys)
    requires Init(s) && Run(s, acts, t)
    ensures FirstAttemptsInOrder(t.log)
    ensures forall i, k :: 0 <= i < |t.log| && 0 <= k < |t.c.out| && t.c.out[k].state == Invalid && t.log[i].Publish?
              ==> t.log[i].serial != t.c.out[k].serial
  {
    Reach(s, acts, t);
    assert forall k :: 0 <= k < |t.c.out| ==> Consistent(t.log, t.c.out[k]);
  }

  /** The return code that makes `mosquitto_loop_forever` give up never comes from a PUBREC. */
  lemma PubrecIsNeverUnknown(s: Sys, acts: seq<Action>, t: Sys, now: int)
    requires Init(s) && Run(s, acts, t) && Enabled(t, Deliver(now)) && t.down[0].Pubrec?
    ensures DoReceive(t.c, t.down[0], now).rc == Success
  {
    Reach(s, acts, t);
    PubrecIsExpected(t);
  }

  /** The window has its shape, and ids in the list are distinct, in every reachable state. */
  lemma WindowInEveryRun(s: Sys, acts: seq<Action>, t: Sys)
    requires Init(s) && Run(s, acts, t)
    ensures Window.Shape(t.c.out, t.c.inflight) && t.c.inflight == Window.Width(t.c.max, |t.c.out|)
    ensures DistinctMids(t.c.out) && Increasing(t.c.out)
  {
    Reach(s, acts, t);
  }
}
