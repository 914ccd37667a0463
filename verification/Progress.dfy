/**
 Progress: the acknowledgements still owed, step by step and over whole runs.
 */
module Progress {
  import opened Delivery
  import opened Engine
  import MessageIds
  import Window

  // ---- Acknowledgements owed ---------------------------------------------------------------------

  /** Acknowledgements a message still needs: PUBACK; or PUBREC and PUBCOMP; or PUBCOMP alone. */
  function Owed(m: Msg): nat {
    if m.qos == 2 && m.state != WaitForPubcomp then 2 else 1
  }

  function Rank(ms: seq<Msg>): nat {
    if ms == [] then 0 else Owed(ms[0]) + Rank(ms[1..])
  }

  lemma {:induction false} RankAppend(a: seq<Msg>, b: seq<Msg>)
    ensures Rank(a + b) == Rank(a) + Rank(b)
  {
    if a == [] {
      assert a + b == b;
    } else {
      var ab := a + b;
      assert Rank(ab) == Owed(a[0]) + Rank(ab[1..]) && Rank(a) == Owed(a[0]) + Rank(a[1..]);
      hide Rank, Owed;
      assert ab[1..] == a[1..] + b;
      RankAppend(a[1..], b);
    }
  }

  lemma {:induction false} RankSame(a: seq<Msg>, b: seq<Msg>)
    requires |a| == |b| && forall i :: 0 <= i < |a| ==> Owed(a[i]) == Owed(b[i])
    ensures Rank(a) == Rank(b)
  {
    if a != [] {
      RankSame(a[1..], b[1..]);
    }
  }

  lemma RankAt(ms: seq<Msg>, k: nat)
    requires k < |ms|
    ensures Rank(ms) == Rank(Without(ms, k)) + Owed(ms[k])
  {
    assert Rank([ms[k]]) == Owed(ms[k]);
    hide Owed, Rank;
    var a, b := ms[..k], ms[k + 1..];
    assert ms == a + ([ms[k]] + b);
    RankAppend(a, [ms[k]] + b);
    RankAppend([ms[k]], b);
    RankAppend(a, b);
  }

  lemma {:induction false} RankBound(ms: seq<Msg>)
    ensures |ms| <= Rank(ms) <= 2 * |ms|
  {
    if ms != [] {
      RankBound(ms[1..]);
    }
  }

  /** The packet about to be handled is the first acknowledgement of its kind for a message. */
  predicate FirstAck(s: Sys, a: Action) {
    a.Deliver? && s.down != []
    && var p := s.down[0]; var k := Find(s.c.out, p.mid);
       k < |s.c.out| && (p.Puback? || p.Pubcomp? || (p.Pubrec? && s.c.out[k].state == WaitForPubrec))
  }

  /** What a publish adds: the acknowledgements its QoS asks for, if it is accepted. */
  function Asked(s: Sys, a: Action): nat
    requires Enabled(s, a)
  {
    if a.AppPublish? && |Next(s, a).c.out| > |s.c.out| then a.qos else 0
  }

  lemma PubrecPays(s: Sys, now: int)
    requires Inv(s) && s.down != [] && s.down[0].Pubrec?
    ensures var a := Deliver(now);
            Rank(DoPubrec(s.c, s.down[0].mid, now).c.out) + (if FirstAck(s, a) then 1 else 0) == Rank(s.c.out)
  {
    hide MidInv, Reported, AtMostOnce;
    PubrecIsExpected(s);
    var k := Find(s.c.out, s.down[0].mid);
    var ms := DoPubrec(s.c, s.down[0].mid, now).c.out;
    RankAt(s.c.out, k);
    RankAt(ms, k);
    assert Without(ms, k) == Without(s.c.out, k);
    assert Window.Started(s.c.out[k]);
  }

  lemma AckPays(s: Sys, now: int)
    requires Inv(s) && s.c.connected && s.down != [] && (s.down[0].Puback? || s.down[0].Pubcomp?)
    ensures var a := Deliver(now);
            Rank(DoPubackcomp(s.c, s.down[0].mid).c.out) + (if FirstAck(s, a) then 1 else 0) == Rank(s.c.out)
  {
    AckOutcome(s);
    AckIsExpected(s);
    hide DoPubackcomp, MidInv, Inv;
    var k := Find(s.c.out, s.down[0].mid);
    var o := DoPubackcomp(s.c, s.down[0].mid);
    if k < |s.c.out| {
      RankSlid(s.c, k, o.c.out);
    }
  }

  /** A message owes the same before and after it is let in. */
  lemma SlidOwes(c: Client, k: nat, i: nat)
    requires Window.Holds(c) && k < c.inflight && i < |c.out| - 1
    ensures Owed(SlidAt(c, k, i)) == Owed(c.out[if i < k then i else i + 1])
  {
    if i == c.inflight - 1 {
      assert Window.Queued(c.out[c.inflight]);
    }
  }

  lemma RankSlid(c: Client, k: nat, ms: seq<Msg>)
    requires Window.Holds(c) && k < c.inflight && ms == Slid(c, k)
    ensures Rank(c.out) == Rank(ms) + Owed(c.out[k])
  {
    hide Slid, SlidAt, Without, Rank, Owed, Window.Shape;
    SlidIs(c, k);
    Window.WithoutAt(c.out, k);
    RankAt(c.out, k);
    forall i | 0 <= i < |ms| ensures Owed(Without(c.out, k)[i]) == Owed(ms[i]) {
      SlidOwes(c, k, i);
    }
    RankSame(Without(c.out, k), ms);
  }

  lemma PublishAsks(s: Sys, a: Action)
    requires Enabled(s, a) && a.AppPublish?
    ensures Rank(Next(s, a).c.out) == Rank(s.c.out) + Asked(s, a)
  {
    PublishQueuesOne(s.c, a.app, a.qos, a.now);
    var o := DoPublish(s.c, a.app, a.qos, a.now);
    if o.c.out != s.c.out {
      var m :| QueuedAs(s.c, a.app, a.qos, MessageIds.Next(s.c.lastMid), o, m);
      RankAppend(s.c.out, [m]);
    }
  }

  /** Every step settles the account exactly: only publishes add to it, only first acknowledgements subtract. */
  lemma RankAccount(s: Sys, a: Action)
    requires Inv(s) && Enabled(s, a)
    ensures Rank(Next(s, a).c.out) + (if FirstAck(s, a) then 1 else 0) == Rank(s.c.out) + Asked(s, a)
  {
    match a
    case AppPublish(_, _, _) => PublishAsks(s, a);
    case Deliver(now) => DeliverPays(s, now);
    case Retry(now) => QuietRank(s, a);
    case Reconnect(ok) => QuietRank(s, a);
    case _ =>
  }

  lemma DeliverPays(s: Sys, now: int)
    requires Inv(s) && Enabled(s, Deliver(now))
    ensures var a := Deliver(now);
            Rank(Next(s, a).c.out) + (if FirstAck(s, a) then 1 else 0) == Rank(s.c.out)
  {
    hide Inv, Rank, DoPubrec, DoPubackcomp;
    var p := s.down[0];
    if p.Pubrec? {
      PubrecPays(s, now);
    } else if p.Puback? || p.Pubcomp? {
      AckPays(s, now);
    } else {
      assert DoReceive(s.c, p, now).c.out == s.c.out;
    }
  }

  /** Retries and reconnects change nothing that counts. */
  lemma QuietRank(s: Sys, a: Action)
    requires Window.Holds(s.c) && Enabled(s, a) && (a.Retry? || a.Reconnect?)
    ensures Rank(Next(s, a).c.out) == Rank(s.c.out)
  {
    hide Rank, RetryAll, RetryOne, Untimed, ResetOut;
    if a.Reconnect? {
      Window.ReconnectOnlyClearsTimestamps(s.c, a.ok);
      RankSame(s.c.out, Untimed(s.c.out));
    } else {
      var r := RetryAll(s.c.out, s.c.connected, s.c.retry, a.now).0;
      forall i | 0 <= i < |r| ensures Owed(s.c.out[i]) == Owed(r[i]) {
        RetryOneOwes(s.c.out[i], s.c.connected, s.c.retry, a.now);
      }
      RankSame(s.c.out, r);
    }
  }

  lemma RetryOneOwes(m: Msg, connected: bool, retry: nat, now: int)
    ensures Owed(RetryOne(m, connected, retry, now).0) == Owed(m)
  {
  }

  function AcksIn(s: Sys, acts: seq<Action>): nat
    decreases |acts|
  {
    if acts == [] || !Enabled(s, acts[0]) then 0
    else (if FirstAck(s, acts[0]) then 1 else 0) + AcksIn(Next(s, acts[0]), acts[1..])
  }

  function AskedIn(s: Sys, acts: seq<Action>): nat
    decreases |acts|
  {
    if acts == [] || !Enabled(s, acts[0]) then 0
    else Asked(s, acts[0]) + AskedIn(Next(s, acts[0]), acts[1..])
  }

  /**
   Over every run: acknowledgements owed at the end, plus those received, are those owed at the start
   plus those asked for.
   */
  lemma {:induction false} AccountOverRun(s: Sys, acts: seq<Action>, t: Sys)
    requires Inv(s) && Run(s, acts, t)
    ensures Rank(t.c.out) + AcksIn(s, acts) == Rank(s.c.out) + AskedIn(s, acts)
    decreases |acts|
  {
    if acts != [] {
      RankAccount(s, acts[0]);
      NextKeepsInv(s, acts[0]);
      AccountOverRun(Next(s, acts[0]), acts[1..], t);
    }
  }
}
