/**
 What a call of the writing loop achieves: how much it writes, where it stops and why, and what it
 returns. Stated about the states before and after, the results of `write` and the code.
 */
module Writing {
  import opened Mqtt
  import opened PacketQueue

  /** The socket takes something. */
  predicate Takes(r: IoResult) {
    r.Chunk? && r.n > 0
  }

  /** The packets that are not complete yet. */
  function Left(o: Out): seq<Pkt> {
    CurSeq(o) + o.queue
  }

  predicate CodeFor(last: IoResult, rc: Rc) {
    match last
    case Chunk(n) => rc == if n == 0 then Errno else Success
    case Again => rc == Success
    case Reset => rc == ConnLost
    case Fail => rc == Errno
  }

  /**
   From `o` to `t`, using `script` up to `rest`: all results used but the last have taken bytes, the last
   one gives the code, each result that takes bytes makes the stream longer, and the call ends only when
   nothing is left, a DISCONNECT is complete, the socket would block or it has failed.
   */
  predicate Goes(o: Out, script: seq<IoResult>, t: Out, rest: seq<IoResult>, rc: Rc) {
    var used := |script| - |rest|;
    && used >= 0 && rest == script[used..]
    && (forall i :: 0 <= i < used - 1 ==> Takes(script[i]))
    && (if used == 0 then rc == Success else CodeFor(script[used - 1], rc))
    && o.wire <= t.wire
    && |t.wire| - |o.wire| >= (if used > 0 && !Takes(script[used - 1]) then used - 1 else used)
    && (Left(t) == [] || !t.open || rest == [] || (used > 0 && !Takes(script[used - 1])))
    && (!t.open ==> exists p :: p in Left(o) && IsDisconnect(p))
  }

  /** The three kinds of call: on a closed socket, while the connection is being made, and on an open one. */
  predicate Called(o: Out, pending: bool, script: seq<IoResult>, t: Out, rest: seq<IoResult>, rc: Rc) {
    if !o.open then t == o && rest == script && rc == NoConn
    else if pending then
      rest == script && rc == Success && Left(t) == Left(o) && t.pos == o.pos
      && t.open && t.wire == o.wire && t.published == o.published
    else Goes(o, script, t, rest, rc)
  }

  predicate WellFormed(o: Out) {
    if o.cur.Some? then o.pos <= |o.cur.value.bytes| else o.pos == 0
  }

  lemma AdvanceLeaves(o: Out)
    requires o.cur.Some?
    ensures Left(o) == [o.cur.value] + Left(Advance(o)) && Advance(o).wire == o.wire && WellFormed(Advance(o))
    ensures Advance(o).cur.None? ==> Advance(o).queue == []
    ensures Advance(o).open <==> o.open && (IsQos0(o.cur.value) || !IsDisconnect(o.cur.value))
  {
  }

  lemma TakenGrows(o: Out, n: nat)
    requires o.cur.Some? && o.pos + n <= |o.cur.value.bytes|
    ensures o.wire <= Taken(o, n).wire && |Taken(o, n).wire| == |o.wire| + n && Left(Taken(o, n)) == Left(o)
  {
  }

  lemma ThenGoes(o: Out, a: Out, script: seq<IoResult>, t: Out, rest: seq<IoResult>, rc: Rc)
    requires script != [] && Takes(script[0]) && Goes(a, script[1..], t, rest, rc)
    requires o.wire <= a.wire && |o.wire| < |a.wire| && Left(a) == Left(o)
    ensures Goes(o, script, t, rest, rc)
  {
    var used := |script| - |rest|;
    hide Left, IsDisconnect;
    assert rest == script[1..][used - 1..] == script[used..];
    forall i | 0 <= i < used - 1 ensures Takes(script[i]) {
      assert i > 0 ==> script[i] == script[1..][i - 1];
    }
    assert used > 1 ==> script[1..][used - 2] == script[used - 1];
  }

  /** Nothing is used, and the call ends. */
  lemma StaysPut(o: Out, script: seq<IoResult>)
    requires o.open && (Left(o) == [] || script == [])
    ensures Goes(o, script, o, script, Success)
  {
    hide Left;
  }

  /** The first result takes nothing. */
  lemma Stops(o: Out, script: seq<IoResult>, rc: Rc)
    requires o.open && script != [] && !Takes(script[0]) && CodeFor(script[0], rc)
    ensures Goes(o, script, o, script[1..], rc)
  {
    hide Left;
  }

  /** A packet that is complete makes way; after a DISCONNECT the call ends. */
  lemma MakesWay(o: Out, script: seq<IoResult>, t: Out, rest: seq<IoResult>, rc: Rc)
    requires o.open && o.cur.Some?
    requires if Advance(o).open then Goes(Advance(o), script, t, rest, rc)
             else t == Advance(o) && rest == script && rc == Success
    ensures Goes(o, script, t, rest, rc)
  {
    AdvanceLeaves(o);
    hide Left, Advance, IsQos0, IsDisconnect;
    assert o.cur.value in Left(o);
    assert forall p :: p in Left(Advance(o)) ==> p in Left(o);
  }

  lemma {:induction false} FlushGoes(o: Out, script: seq<IoResult>)
    requires o.open && WellFormed(o) && (o.cur.None? ==> o.queue == [])
    ensures var r := Flush(o, script); Goes(o, script, r.o, r.script, r.rc)
    decreases |script|, |o.queue|, if o.cur.Some? then 1 else 0
  {
    hide Flush, Goes, Left, IsDisconnect, IsQos0, Advance;
    if o.cur.None? {
      NoneLeft(o);
      FlushNothing(o, script);
      StaysPut(o, script);
    } else if o.pos < |o.cur.value.bytes| {
      FlushWrites(o, script);
      if script == [] {
        StaysPut(o, script);
      } else if Takes(script[0]) {
        var n := Min(script[0].n, |o.cur.value.bytes| - o.pos);
        TakenGrows(o, n);
        hide Taken;
        FlushGoes(Taken(o, n), script[1..]);
        var r := Flush(o, script);
        ThenGoes(o, Taken(o, n), script, r.o, r.script, r.rc);
      } else {
        Stops(o, script, Flush(o, script).rc);
      }
    } else {
      FlushAdvances(o, script);
      AdvanceLeaves(o);
      AdvanceShrinks(o);
      if Advance(o).open {
        FlushGoes(Advance(o), script);
      }
      var r := Flush(o, script);
      MakesWay(o, script, r.o, r.script, r.rc);
    }
  }

  lemma NoneLeft(o: Out)
    requires o.cur.None? && o.queue == []
    ensures Left(o) == []
  {
  }

  lemma AdvanceShrinks(o: Out)
    requires o.cur.Some?
    ensures if o.queue == [] then Advance(o).cur.None? && Advance(o).queue == []
            else |Advance(o).queue| == |o.queue| - 1
  {
  }

  lemma PromoteKeeps(o: Out)
    requires WellFormed(o)
    ensures Left(Promote(o)) == Left(o) && WellFormed(Promote(o)) && (Promote(o).cur.None? ==> Promote(o).queue == [])
    ensures Promote(o) == o.(cur := Promote(o).cur, queue := Promote(o).queue)
  {
  }

  lemma WriteIsCalled(o: Out, pending: bool, script: seq<IoResult>)
    requires WellFormed(o)
    ensures var r := Write(o, pending, script); Called(o, pending, script, r.o, r.script, r.rc)
  {
    PromoteKeeps(o);
    hide Flush, Left, Promote;
    if o.open && !pending {
      FlushGoes(Promote(o), script);
    }
  }

  // ---- How much gets written --------------------------------------------------------------------------

  /** No packet is empty: each has its fixed header. */
  predicate NoneEmpty(ps: seq<Pkt>) {
    forall i :: 0 <= i < |ps| ==> ps[i].bytes != []
  }

  /** On an open connection with something to write, a first result that takes bytes moves the stream on. */
  lemma FirstResultWrites(o: Out, script: seq<IoResult>)
    requires o.open && WellFormed(o) && Settled(o) && NoneEmpty(Left(o)) && Left(o) != []
    requires script != [] && Takes(script[0])
    ensures o.wire < Write(o, false, script).o.wire
  {
    PromoteKeeps(o);
    var o1 := Promote(o);
    assert o1.cur.value == Left(o1)[0];
    hide Flush;
    FlushWrites(o1, script);
    var n := Min(script[0].n, |o1.cur.value.bytes| - o1.pos);
    TakenGrows(o1, n);
    FlushGoes(Taken(o1, n), script[1..]);
  }

  function Total(script: seq<IoResult>): nat {
    if script == [] then 0 else (if script[0].Chunk? then script[0].n else 0) + Total(script[1..])
  }

  function Largest(script: seq<IoResult>): (n: nat)
    ensures forall i :: 0 <= i < |script| && script[i].Chunk? ==> script[i].n <= n
  {
    if script == [] then 0
    else
      var n := Largest(script[1..]);
      if script[0].Chunk? && script[0].n > n then script[0].n else n
  }

  predicate NoDisconnect(ps: seq<Pkt>) {
    forall i :: 0 <= i < |ps| ==> !IsDisconnect(ps[i])
  }

  predicate AllTake(script: seq<IoResult>) {
    forall i :: 0 <= i < |script| ==> Takes(script[i])
  }

  /**
   Enough to write everything: as many results as there are bytes, or results that add up to the bytes and
   to what is lost at the ends of packets. One call of `write` is given no more than one packet, so what a
   result offers beyond the end of its packet is lost: once for each packet but the last, all but one byte.
   */
  predicate Enough(o: Out, script: seq<IoResult>)
    requires WellFormed(o)
  {
    && AllTake(script) && NoneEmpty(Left(o)) && NoDisconnect(Left(o))
    && (Left(o) == []
        || |script| >= |Pending(o)|
        || (script != [] && Total(script) >= |Pending(o)| + (|Left(o)| - 1) * (Largest(script) - 1)))
  }

  lemma PendingTaken(o: Out, n: nat)
    requires o.cur.Some? && o.pos + n <= |o.cur.value.bytes|
    ensures Pending(o) == o.cur.value.bytes[o.pos..o.pos + n] + Pending(Taken(o, n))
  {
    hide Bytes;
    var bs := o.cur.value.bytes;
    assert bs[o.pos..] == bs[o.pos..o.pos + n] + bs[o.pos + n..];
  }

  lemma PendingAdvance(o: Out)
    requires o.cur.Some? && o.pos == |o.cur.value.bytes|
    ensures Pending(o) == Pending(Advance(o))
  {
    assert o.queue != [] ==> o.queue[0].bytes[0..] == o.queue[0].bytes;
  }

  /** A packet with bytes to write is current, and the results that follow are enough for everything. */
  predicate Supplied(o: Out, script: seq<IoResult>, m: nat) {
    && o.open && o.cur.Some? && o.pos < |o.cur.value.bytes| && NoneEmpty(o.queue) && NoDisconnect(Left(o))
    && AllTake(script) && m > 0 && (forall i :: 0 <= i < |script| ==> script[i].n <= m)
    && (|script| >= |Pending(o)| || Total(script) >= |Pending(o)| + |o.queue| * (m - 1))
  }

  /** The packet that is complete makes way. */
  function Next(o: Out): Out
    requires o.cur.Some? && o.pos < |o.cur.value.bytes|
  {
    Advance(Taken(o, |o.cur.value.bytes| - o.pos))
  }

  lemma NextPending(o: Out)
    requires o.cur.Some? && o.pos < |o.cur.value.bytes|
    ensures Next(o).wire + Pending(Next(o)) == o.wire + Pending(o)
    ensures |Pending(Next(o))| == |Pending(o)| - (|o.cur.value.bytes| - o.pos)
  {
    hide Bytes, IsDisconnect, IsQos0, Pending;
    var n := |o.cur.value.bytes| - o.pos;
    PendingTaken(o, n);
    PendingAdvance(Taken(o, n));
  }

  lemma NextIs(o: Out)
    requires o.cur.Some? && o.pos < |o.cur.value.bytes| && NoDisconnect(Left(o)) && NoneEmpty(o.queue)
    ensures var t := Next(o);
            && t.open == o.open && t.pos == 0
            && (if o.queue == [] then t.cur.None? && Left(t) == []
                else t.cur == Some(o.queue[0]) && t.queue == o.queue[1..] && 0 < |o.queue[0].bytes|
                     && Left(t) == Left(o)[1..])
  {
    hide IsDisconnect, IsQos0;
    assert o.cur.value == Left(o)[0];
    AdvanceLeaves(Taken(o, |o.cur.value.bytes| - o.pos));
  }

  lemma Fewer(q: nat, w: nat)
    requires q > 0
    ensures q * w == (q - 1) * w + w
  {
  }

  /** A result that ends the packet may be up to m - 1 bytes too long. */
  lemma NextIsSupplied(o: Out, script: seq<IoResult>, m: nat)
    requires Supplied(o, script, m) && script != [] && script[0].n >= |o.cur.value.bytes| - o.pos && o.queue != []
    ensures Supplied(Next(o), script[1..], m)
  {
    hide Pending, Next, IsDisconnect;
    NextIs(o);
    NextPending(o);
    Fewer(|o.queue|, m - 1);
  }

  lemma TakenIsSupplied(o: Out, script: seq<IoResult>, m: nat)
    requires Supplied(o, script, m) && script != [] && script[0].n < |o.cur.value.bytes| - o.pos
    ensures Supplied(Taken(o, script[0].n), script[1..], m)
  {
    hide Pending, IsDisconnect;
    PendingTaken(o, script[0].n);
  }

  lemma TakenPending(o: Out, n: nat)
    requires o.cur.Some? && o.pos + n <= |o.cur.value.bytes|
    ensures Taken(o, n).wire + Pending(Taken(o, n)) == o.wire + Pending(o)
  {
    hide Pending;
    PendingTaken(o, n);
  }

  lemma SuppliedHolds(o: Out, script: seq<IoResult>, m: nat)
    requires Supplied(o, script, m)
    ensures o.cur.Some? && o.pos < |o.cur.value.bytes| && !IsDisconnect(o.cur.value) && o.open
    ensures NoneEmpty(o.queue) && NoDisconnect(Left(o)) && script != [] && Takes(script[0])
  {
    hide IsDisconnect, Bytes;
    assert Left(o)[0] == o.cur.value;
    assert |Pending(o)| > 0;
  }

  /** One result that takes bytes, and the packet it may end. */
  lemma FlushOne(o: Out, script: seq<IoResult>)
    requires o.cur.Some? && o.pos < |o.cur.value.bytes| && !IsDisconnect(o.cur.value)
    requires script != [] && Takes(script[0])
    ensures Flush(o, script)
         == if script[0].n < |o.cur.value.bytes| - o.pos then Flush(Taken(o, script[0].n), script[1..])
            else Flush(Next(o), script[1..])
  {
    hide Flush, IsDisconnect, IsQos0;
    FlushWrites(o, script);
    var left := |o.cur.value.bytes| - o.pos;
    if script[0].n >= left {
      FlushAdvances(Taken(o, left), script[1..]);
    }
  }

  lemma {:induction false} FlushDrains(o: Out, script: seq<IoResult>, m: nat)
    requires Supplied(o, script, m)
    ensures var t := Flush(o, script).o; Left(t) == [] && t.open && t.wire == o.wire + Pending(o)
    decreases |script|
  {
    hide Flush, Supplied, Pending, Left, IsDisconnect, NoneEmpty, NoDisconnect;
    SuppliedHolds(o, script, m);
    FlushOne(o, script);
    if script[0].n < |o.cur.value.bytes| - o.pos {
      TakenIsSupplied(o, script, m);
      TakenPending(o, script[0].n);
      FlushDrains(Taken(o, script[0].n), script[1..], m);
    } else {
      hide Next;
      NextIs(o);
      NextPending(o);
      if o.queue == [] {
        NothingPending(Next(o));
        FlushNothing(Next(o), script[1..]);
      } else {
        NextIsSupplied(o, script, m);
        FlushDrains(Next(o), script[1..], m);
      }
    }
  }

  lemma NothingPending(o: Out)
    requires Left(o) == []
    ensures WellFormed(o) && o.cur.None? ==> o.wire + Pending(o) == o.wire
  {
  }

  /**
   Results that take enough, with no DISCONNECT among the packets, write everything: the stream gets all
   the bytes that were waiting, in one call.
   */
  lemma EnoughDrains(o: Out, script: seq<IoResult>)
    requires o.open && WellFormed(o) && Settled(o) && Enough(o, script)
    ensures var r := Write(o, false, script);
            r.o.cur.None? && r.o.queue == [] && r.o.open && r.o.wire == o.wire + Pending(o) && r.rc == Success
  {
    hide Flush, Pending, Left, Enough, Goes, Supplied, Settled, Promote, NoneEmpty;
    WriteIsCalled(o, false, script);
    PromoteKeeps(o);
    PromotePending(o);
    var o1 := Promote(o);
    var r := Write(o, false, script);
    EnoughTakes(o, script, r);
    if Left(o) == [] {
      NothingLeft(o1);
      NothingPending(o1);
      FlushNothing(o1, script);
    } else {
      EnoughIsSupplied(o, script);
      FlushDrains(o1, script, Largest(script));
      NothingLeft(r.o);
    }
  }

  lemma PromotePending(o: Out)
    requires WellFormed(o)
    ensures Pending(Promote(o)) == Pending(o)
  {
    assert o.queue != [] ==> o.queue[0].bytes[0..] == o.queue[0].bytes;
  }

  lemma NothingLeft(o: Out)
    requires Left(o) == []
    ensures o.cur.None? && o.queue == []
  {
  }

  /** With results that all take bytes there is no error. */
  lemma EnoughTakes(o: Out, script: seq<IoResult>, r: Flushed)
    requires WellFormed(o) && Enough(o, script) && Goes(o, script, r.o, r.script, r.rc)
    ensures r.rc == Success
  {
    hide Left, IsDisconnect, Pending;
    var used := |script| - |r.script|;
    assert used > 0 ==> Takes(script[used - 1]);
  }

  lemma EnoughIsSupplied(o: Out, script: seq<IoResult>)
    requires o.open && WellFormed(o) && Settled(o) && Enough(o, script) && Left(o) != []
    ensures Supplied(Promote(o), script, Largest(script))
  {
    hide IsDisconnect, Bytes;
    PromoteKeeps(o);
    PromotePending(o);
    var o1 := Promote(o);
    assert o1.cur.value == Left(o1)[0] && Left(o1)[1..] == o1.queue;
    assert |Pending(o1)| > 0;
    assert Takes(script[0]);
  }

  /** All that a call promises. */
  predicate Achieved(o: Out, pending: bool, script: seq<IoResult>, t: Out, rest: seq<IoResult>, rc: Rc)
    requires WellFormed(o)
  {
    && Called(o, pending, script, t, rest, rc)
    && (o.open && !pending && Settled(o) && Enough(o, script) ==>
          Left(t) == [] && t.open && t.wire == o.wire + Pending(o))
  }

  lemma WriteAchieves(o: Out, pending: bool, script: seq<IoResult>)
    requires WellFormed(o)
    ensures var r := Write(o, pending, script); Achieved(o, pending, script, r.o, r.script, r.rc)
  {
    hide Write, Enough, Called;
    WriteIsCalled(o, pending, script);
    if o.open && !pending && Settled(o) && Enough(o, script) {
      EnoughDrains(o, script);
    }
  }

  /** Results adding up to the waiting bytes need not be enough: this one is cut at the end of the first packet. */
  lemma ExcessIsLost()
    ensures var p := Pkt(0xC0, 0, [0xC0, 0]);
            var r := Write(Out(None, 0, [p, p], true, [], []), false, [Chunk(4)]);
            r.o.wire == [0xC0, 0] && r.o.cur == Some(p) && r.rc == Success
  {
    var p := Pkt(0xC0, 0, [0xC0, 0]);
    var o := Out(Some(p), 0, [p], true, [], []);
    FlushWrites(o, [Chunk(4)]);
    FlushAdvances(Taken(o, 2), []);
    FlushWrites(Advance(Taken(o, 2)), []);
  }
}
