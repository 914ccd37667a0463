/**
 Incoming QoS 2 messages: what is passed to on_message against what was accepted from the broker,
 for every broker and every sequence of calls, reconnects included.
 */
module Inbound {
  import opened Engine
  import opened Mqtt
  import opened Runs
  import Window

  function Qos2(ms: seq<Msg>): seq<Msg> {
    if ms == [] then [] else (if ms[0].qos == 2 then [ms[0]] else []) + Qos2(ms[1..])
  }

  /** A message as its sender numbers it. */
  datatype Content = Content(serial: nat, app: AppMessage)

  function ContentOf(m: Msg): Content {
    Content(m.serial, m.app)
  }

  /** The contents of the messages with this id, in order. */
  function Of(ms: seq<Msg>, mid: uint16): seq<Content> {
    if ms == [] then [] else (if ms[0].mid == mid then [ContentOf(ms[0])] else []) + Of(ms[1..], mid)
  }

  predicate Conserved(h: History, mid: uint16) {
    Of(Qos2(h.given), mid) + Of(h.c.inq, mid) == Of(h.taken, mid)
  }

  ghost predicate Inv(h: History) {
    Window.InHeld(h.c.inq) && forall mid: uint16 :: Conserved(h, mid)
  }

  lemma {:induction false} OfAppend(a: seq<Msg>, b: seq<Msg>, mid: uint16)
    ensures Of(a + b, mid) == Of(a, mid) + Of(b, mid)
  {
    if a == [] {
      assert a + b == b;
    } else {
      var ab := a + b;
      var first := if a[0].mid == mid then [ContentOf(a[0])] else [];
      assert Of(ab, mid) == first + Of(ab[1..], mid) && Of(a, mid) == first + Of(a[1..], mid);
      hide Of;
      assert ab[1..] == a[1..] + b;
      OfAppend(a[1..], b, mid);
    }
  }

  lemma {:induction false} Qos2Append(a: seq<Msg>, b: seq<Msg>)
    ensures Qos2(a + b) == Qos2(a) + Qos2(b)
  {
    if a == [] {
      assert a + b == b;
    } else {
      var ab := a + b;
      var first := if a[0].qos == 2 then [a[0]] else [];
      assert Qos2(ab) == first + Qos2(ab[1..]) && Qos2(a) == first + Qos2(a[1..]);
      hide Qos2;
      assert ab[1..] == a[1..] + b;
      Qos2Append(a[1..], b);
    }
  }

  /** Taking the first message with an id off the list takes the first of its contents. */
  lemma {:induction false} OfWithout(ms: seq<Msg>, k: nat, mid: uint16)
    requires k < |ms| && k == Find(ms, ms[k].mid)
    ensures Of(ms, mid) == (if ms[k].mid == mid then [ContentOf(ms[k])] else []) + Of(Without(ms, k), mid)
  {
    assert ms == ms[..k] + ([ms[k]] + ms[k + 1..]);
    OfAppend(ms[..k], [ms[k]] + ms[k + 1..], mid);
    OfAppend([ms[k]], ms[k + 1..], mid);
    OfAppend(ms[..k], ms[k + 1..], mid);
    if ms[k].mid == mid {
      OfNone(ms[..k], mid);
    }
  }

  lemma {:induction false} OfNone(ms: seq<Msg>, mid: uint16)
    requires forall i :: 0 <= i < |ms| ==> ms[i].mid != mid
    ensures Of(ms, mid) == []
  {
    if ms != [] {
      OfNone(ms[1..], mid);
    }
  }

  lemma {:induction false} OfSame(a: seq<Msg>, b: seq<Msg>, mid: uint16)
    requires |a| == |b| && forall i :: 0 <= i < |a| ==> a[i].mid == b[i].mid && ContentOf(a[i]) == ContentOf(b[i])
    ensures Of(a, mid) == Of(b, mid)
  {
    if a != [] {
      OfSame(a[1..], b[1..], mid);
    }
  }

  lemma AcceptConserves(h: History, p: Packet, now: int, mid: uint16)
    requires Conserved(h, mid) && Accepted(p)
    ensures Conserved(Step(h, Receive(p, now)), mid)
  {
    var o := DoReceive(h.c, p, now);
    var m := o.c.inq[|h.c.inq|];
    assert o.c.inq == h.c.inq + [m];
    OfAppend(h.c.inq, [m], mid);
    OfAppend(h.taken, [m], mid);
    assert h.given + o.onMessage == h.given;
  }

  lemma PubrelReleases(c: Client, p: Packet, now: int)
    requires p.Pubrel?
    ensures var o := DoReceive(c, p, now); var k := Find(c.inq, p.mid);
            if o.onMessage == [] then o.c.inq == c.inq
            else k < |c.inq| && o.onMessage == [c.inq[k]] && o.c.inq == Without(c.inq, k)
  {
  }

  lemma OneMessage(m: Msg, mid: uint16)
    ensures Of([m], mid) == if m.mid == mid then [ContentOf(m)] else []
    ensures Qos2([m]) == if m.qos == 2 then [m] else []
  {
    var ms := [m];
    assert ms[1..] == [];
    assert Of(ms[1..], mid) == [] && Qos2(ms[1..]) == [];
  }

  /** Moving the first message with an id from the list to what has been handed over changes nothing in between. */
  lemma ReleaseMoves(given: seq<Msg>, ms: seq<Msg>, k: nat, mid: uint16)
    requires k < |ms| && k == Find(ms, ms[k].mid) && ms[k].qos == 2
    ensures Of(Qos2(given + [ms[k]]), mid) + Of(Without(ms, k), mid) == Of(Qos2(given), mid) + Of(ms, mid)
  {
    var m := ms[k];
    OneMessage(m, mid);
    hide Of, Qos2, Find, Without;
    Qos2Append(given, [m]);
    OfAppend(Qos2(given), [m], mid);
    OfWithout(ms, k, mid);
  }

  lemma ReleaseConserves(h: History, p: Packet, now: int, mid: uint16)
    requires Window.InHeld(h.c.inq) && Conserved(h, mid) && p.Pubrel?
    ensures Conserved(Step(h, Receive(p, now)), mid)
  {
    hide DoReceive, Find, Without;
    PubrelReleases(h.c, p, now);
    var o := DoReceive(h.c, p, now);
    var k := Find(h.c.inq, p.mid);
    if o.onMessage == [] {
      assert h.given + [] == h.given;
    } else {
      ReleaseMoves(h.given, h.c.inq, k, mid);
    }
  }

  lemma OtherConserves(h: History, p: Packet, now: int, mid: uint16)
    requires Conserved(h, mid) && !Accepted(p) && !p.Pubrel?
    ensures Conserved(Step(h, Receive(p, now)), mid)
  {
    var o := DoReceive(h.c, p, now);
    assert o.c.inq == h.c.inq && Qos2(o.onMessage) == [];
    Qos2Append(h.given, o.onMessage);
    assert Qos2(h.given) + [] == Qos2(h.given);
  }

  /** Calls, retries and reconnects leave ids and contents of the held messages alone. */
  lemma QuietStep(h: History, e: Event)
    requires !e.Receive?
    ensures var t := Step(h, e);
            && t.given == h.given && t.taken == h.taken && |t.c.inq| == |h.c.inq|
            && (forall i :: 0 <= i < |h.c.inq| ==>
                  t.c.inq[i].mid == h.c.inq[i].mid && ContentOf(t.c.inq[i]) == ContentOf(h.c.inq[i]))
            && (Window.InHeld(h.c.inq) ==> Window.InHeld(t.c.inq))
  {
    hide ResetOut;
    assert h.given + [] == h.given;
  }

  lemma ReceiveKeepsHeld(h: History, p: Packet, now: int)
    requires Window.InHeld(h.c.inq)
    ensures Window.InHeld(Step(h, Receive(p, now)).c.inq)
  {
    hide Promote;
  }

  lemma StepKeepsInv(h: History, e: Event)
    requires Inv(h)
    ensures Inv(Step(h, e))
  {
    hide Step, Window.InHeld;
    var t := Step(h, e);
    if e.Receive? {
      ReceiveKeepsHeld(h, e.p, e.now);
    } else {
      QuietStep(h, e);
    }
    forall mid: uint16 ensures Conserved(t, mid) {
      assert Conserved(h, mid);
      if e.Receive? {
        if Accepted(e.p) { AcceptConserves(h, e.p, e.now, mid); }
        else if e.p.Pubrel? { ReleaseConserves(h, e.p, e.now, mid); }
        else { OtherConserves(h, e.p, e.now, mid); }
      } else {
        OfSame(h.c.inq, t.c.inq, mid);
      }
    }
  }

  lemma {:induction false} RunKeepsInv(h: History, es: seq<Event>)
    requires Inv(h)
    ensures Inv(Run(h, es))
    decreases |es|
  {
    if es != [] {
      StepKeepsInv(h, es[0]);
      RunKeepsInv(Step(h, es[0]), es[1..]);
    }
  }

  /**
   For every id: the messages handed to on_message, followed by those still held, are the
   PUBLISHes accepted, in order. So each accepted PUBLISH is handed over at most once, surplus
   PUBRELs hand over nothing, and an id with nothing held has been handed over completely.
   */
  lemma InboundIsConserved(h: History, es: seq<Event>, mid: uint16)
    requires New(h) && Possible(h, es)
    ensures var t := Run(h, es);
            Of(Qos2(t.given), mid) + Of(t.c.inq, mid) == Of(t.taken, mid)
  {
    RunKeepsInv(h, es);
    assert Conserved(Run(h, es), mid);
  }

  /** No PUBLISH arrives under an id that is still held. */
  predicate NoRepeats(h: History, es: seq<Event>)
    decreases |es|
  {
    es == []
    || ((es[0].Receive? && Accepted(es[0].p) ==> Find(h.c.inq, es[0].p.mid) == |h.c.inq|)
        && NoRepeats(Step(h, es[0]), es[1..]))
  }

  predicate Distinct(ms: seq<Msg>) {
    forall i, j :: 0 <= i < j < |ms| ==> ms[i].mid != ms[j].mid
  }

  lemma {:induction false} RunKeepsDistinct(h: History, es: seq<Event>)
    requires NoRepeats(h, es) && Distinct(h.c.inq)
    ensures Distinct(Run(h, es).c.inq)
    decreases |es|
  {
    if es != [] {
      StepKeepsDistinct(h, es[0]);
      RunKeepsDistinct(Step(h, es[0]), es[1..]);
    }
  }

  lemma StepKeepsDistinct(h: History, e: Event)
    requires Distinct(h.c.inq)
    requires e.Receive? && Accepted(e.p) ==> Find(h.c.inq, e.p.mid) == |h.c.inq|
    ensures Distinct(Step(h, e).c.inq)
  {
    var t := Step(h, e);
    if !e.Receive? {
      hide Step;
      QuietStep(h, e);
    } else {
      hide RemoveOut;
      assert Accepted(e.p) ==> t.c.inq == h.c.inq + [t.c.inq[|h.c.inq|]];
      assert t.c.inq != h.c.inq && !Accepted(e.p) ==> t.c.inq == Without(h.c.inq, Find(h.c.inq, e.p.mid));
    }
  }

  lemma {:induction false} OfDistinct(ms: seq<Msg>, mid: uint16)
    requires Distinct(ms)
    ensures |Of(ms, mid)| <= 1
  {
    if ms != [] {
      OfDistinct(ms[1..], mid);
      if ms[0].mid == mid {
        OfNone(ms[1..], mid);
      }
    }
  }

  /**
   If no PUBLISH repeats an id that is still held, at most the latest message under each id is
   outstanding, and all earlier ones have been handed to on_message exactly once.
   */
  lemma InboundIsExactlyOnce(h: History, es: seq<Event>, mid: uint16)
    requires New(h) && Possible(h, es) && NoRepeats(h, es)
    ensures var t := Run(h, es);
            Of(Qos2(t.given), mid) == Of(t.taken, mid)
            || (Of(t.taken, mid) != [] && Of(Qos2(t.given), mid) == Of(t.taken, mid)[..|Of(t.taken, mid)| - 1])
  {
    InboundIsConserved(h, es, mid);
    RunKeepsDistinct(h, es);
    OfDistinct(Run(h, es).c.inq, mid);
  }
}
