/**
 The queue of packets on their way to the socket.

 The operating system is a script: one entry for each call of `write`, saying how many bytes it
 takes or how it fails. Where the script ends the socket would block.
 */
module PacketQueue {
  import opened Mqtt

  datatype IoResult =
    | Chunk(n: nat)   // up to n bytes are transferred
    | Again           // EAGAIN or EWOULDBLOCK
    | Reset           // ECONNRESET
    | Fail            // any other error

  /** A finished packet. */
  datatype Pkt = Pkt(command: byte, mid: uint16, bytes: seq<byte>)

  /** `command & 0xF6 == PUBLISH`: a PUBLISH of QoS 0, whatever its dup and retain flags. */
  predicate IsQos0(p: Pkt) {
    HighNibble(p.command) == PUBLISH && p.command / 2 % 4 == 0
  }

  predicate IsDisconnect(p: Pkt) {
    HighNibble(p.command) == DISCONNECT
  }

  /**
   The sending side of a connection: the packet being written and the position in it, the packets
   behind it, the bytes the socket has taken, and the ids passed to on_publish.
   */
  datatype Out = Out(cur: Option<Pkt>, pos: nat, queue: seq<Pkt>, open: bool, wire: seq<byte>, published: seq<uint16>)

  datatype Flushed = Flushed(o: Out, script: seq<IoResult>, rc: Rc)

  /** The current packet is complete; the next one takes its place. */
  function Advance(o: Out): Out
    requires o.cur.Some?
  {
    var o1 := o.(cur := if o.queue == [] then None else Some(o.queue[0]), pos := 0,
                 queue := if o.queue == [] then [] else o.queue[1..]);
    if IsQos0(o.cur.value) then o1.(published := o.published + [o.cur.value.mid])
    else if IsDisconnect(o.cur.value) then o1.(open := false)
    else o1
  }

  /** The socket takes `n` more bytes of the current packet. */
  function Taken(o: Out, n: nat): Out
    requires o.cur.Some? && o.pos + n <= |o.cur.value.bytes|
  {
    o.(pos := o.pos + n, wire := o.wire + o.cur.value.bytes[o.pos..o.pos + n])
  }

  /** The loop of `_mosquitto_packet_write`. */
  function Flush(o: Out, script: seq<IoResult>): Flushed
    requires o.cur.Some? ==> o.pos <= |o.cur.value.bytes|
    decreases |script|, |o.queue|, if o.cur.Some? then 1 else 0
  {
    if o.cur.None? then Flushed(o, script, Success)
    else if o.pos < |o.cur.value.bytes| then
      if script == [] then Flushed(o, [], Success)
      else
        match script[0]
        case Chunk(n) =>
          if n == 0 then Flushed(o, script[1..], Errno)
          else
            Flush(Taken(o, Min(n, |o.cur.value.bytes| - o.pos)), script[1..])
        case Again => Flushed(o, script[1..], Success)
        case Reset => Flushed(o, script[1..], ConnLost)
        case Fail => Flushed(o, script[1..], Errno)
    else
      var o1 := Advance(o);
      if IsQos0(o.cur.value) || !IsDisconnect(o.cur.value) then Flush(o1, script) else Flushed(o1, script, Success)
  }

  /** One write of the loop. */
  lemma FlushWrites(o: Out, script: seq<IoResult>)
    requires o.cur.Some? && o.pos < |o.cur.value.bytes|
    ensures Flush(o, script)
         == if script == [] then Flushed(o, [], Success)
            else
              match script[0]
              case Chunk(n) =>
                if n == 0 then Flushed(o, script[1..], Errno)
                else Flush(Taken(o, Min(n, |o.cur.value.bytes| - o.pos)), script[1..])
              case Again => Flushed(o, script[1..], Success)
              case Reset => Flushed(o, script[1..], ConnLost)
              case Fail => Flushed(o, script[1..], Errno)
  {
  }

  lemma FlushNothing(o: Out, script: seq<IoResult>)
    requires o.cur.None?
    ensures Flush(o, script) == Flushed(o, script, Success)
  {
  }

  /** One completed packet. */
  lemma FlushAdvances(o: Out, script: seq<IoResult>)
    requires o.cur.Some? && o.pos == |o.cur.value.bytes|
    ensures Flush(o, script)
         == if IsQos0(o.cur.value) || !IsDisconnect(o.cur.value) then Flush(Advance(o), script)
            else Flushed(Advance(o), script, Success)
  {
  }

  /** A packet waiting at the head of the queue becomes the current one. */
  function Promote(o: Out): Out {
    if o.cur.None? && o.queue != [] then o.(cur := Some(o.queue[0]), pos := 0, queue := o.queue[1..]) else o
  }

  /** `_mosquitto_packet_write`. */
  function Write(o: Out, pending: bool, script: seq<IoResult>): Flushed
    requires o.cur.Some? ==> o.pos <= |o.cur.value.bytes|
  {
    if !o.open then Flushed(o, script, NoConn)
    else if pending then Flushed(Promote(o), script, Success)
    else Flush(Promote(o), script)
  }

  /** `_mosquitto_packet_queue` in threaded mode. */
  function Enqueue(o: Out, p: Pkt): Out {
    o.(queue := o.queue + [p])
  }

  // ---- The invariant -------------------------------------------------------------------------------

  function Bytes(ps: seq<Pkt>): seq<byte> {
    if ps == [] then [] else ps[0].bytes + Bytes(ps[1..])
  }

  function Qos0Ids(ps: seq<Pkt>): seq<uint16> {
    if ps == [] then [] else (if IsQos0(ps[0]) then [ps[0].mid] else []) + Qos0Ids(ps[1..])
  }

  function CurSeq(o: Out): seq<Pkt> {
    if o.cur.Some? then [o.cur.value] else []
  }

  /**
   `all` are the packets enqueued since the connection began; the first `k` of them are complete.
   The socket has taken the bytes of those and the first `pos` bytes of the next, in order; on_publish
   has been called for the QoS 0 messages among them; and the connection is closed exactly by the
   completion of a DISCONNECT.
   */
  predicate Inv(o: Out, all: seq<Pkt>, k: nat) {
    && k <= |all| && all[k..] == CurSeq(o) + o.queue
    && (if o.cur.Some? then o.pos <= |o.cur.value.bytes| else o.pos == 0)
    && o.wire == Bytes(all[..k]) + (if o.cur.Some? then o.cur.value.bytes[..o.pos] else [])
    && o.published == Qos0Ids(all[..k])
    && (forall i :: 0 <= i < k - 1 ==> !IsDisconnect(all[i]))
    && (o.open <==> k == 0 || !IsDisconnect(all[k - 1]))
    && (!o.open ==> o.pos == 0)
  }

  lemma {:induction false} BytesAppend(a: seq<Pkt>, b: seq<Pkt>)
    ensures Bytes(a + b) == Bytes(a) + Bytes(b)
  {
    if a == [] {
      assert a + b == b;
    } else {
      var ab := a + b;
      assert Bytes(ab) == a[0].bytes + Bytes(ab[1..]) && Bytes(a) == a[0].bytes + Bytes(a[1..]);
      hide Bytes;
      assert ab[1..] == a[1..] + b;
      BytesAppend(a[1..], b);
    }
  }

  lemma {:induction false} Qos0IdsAppend(a: seq<Pkt>, b: seq<Pkt>)
    ensures Qos0Ids(a + b) == Qos0Ids(a) + Qos0Ids(b)
  {
    if a == [] {
      assert a + b == b;
    } else {
      var ab := a + b;
      var first := if IsQos0(a[0]) then [a[0].mid] else [];
      assert Qos0Ids(ab) == first + Qos0Ids(ab[1..]) && Qos0Ids(a) == first + Qos0Ids(a[1..]);
      hide Qos0Ids, IsQos0;
      assert ab[1..] == a[1..] + b;
      Qos0IdsAppend(a[1..], b);
    }
  }

  lemma AdvanceKeepsInv(o: Out, all: seq<Pkt>, k: nat)
    requires Inv(o, all, k) && o.open && o.cur.Some? && o.pos == |o.cur.value.bytes|
    ensures Inv(Advance(o), all, k + 1)
  {
    var p := o.cur.value;
    assert all[k] == p && all[k + 1..] == o.queue;
    assert all[..k + 1] == all[..k] + [p];
    BytesAppend(all[..k], [p]);
    Qos0IdsAppend(all[..k], [p]);
    assert Bytes([p]) == p.bytes + Bytes([]);
  }

  /** A packet whose writing has begun is not complete yet: complete ones have made way. */
  predicate Settled(o: Out) {
    o.cur.Some? && o.pos > 0 ==> o.pos < |o.cur.value.bytes|
  }

  lemma TakenKeepsInv(o: Out, n: nat, all: seq<Pkt>, k: nat)
    requires Inv(o, all, k) && o.open && o.cur.Some? && o.pos + n <= |o.cur.value.bytes|
    ensures Inv(Taken(o, n), all, k) && Taken(o, n).open && o.wire <= Taken(o, n).wire
  {
    hide Bytes;
    var bs := o.cur.value.bytes;
    assert bs[..o.pos] + bs[o.pos..o.pos + n] == bs[..o.pos + n];
  }

  /** Flushing keeps the invariant, and ends with a packet that is not complete, or with none. */
  lemma {:induction false} FlushKeepsInv(o: Out, script: seq<IoResult>, all: seq<Pkt>, k: nat) returns (k1: nat)
    requires Inv(o, all, k) && o.open && (o.cur.Some? ==> o.pos <= |o.cur.value.bytes|)
    ensures Inv(Flush(o, script).o, all, k1) && k <= k1 && Settled(Flush(o, script).o)
    ensures o.wire <= Flush(o, script).o.wire
    decreases |script|, |o.queue|, if o.cur.Some? then 1 else 0
  {
    hide Inv;
    k1 := k;
    if o.cur.Some? {
      if o.pos == |o.cur.value.bytes| {
        AdvanceKeepsInv(o, all, k);
        if Advance(o).open {
          k1 := FlushKeepsInv(Advance(o), script, all, k + 1);
        } else {
          k1 := k + 1;
        }
      } else if script != [] && script[0].Chunk? && script[0].n > 0 {
        var n := Min(script[0].n, |o.cur.value.bytes| - o.pos);
        TakenKeepsInv(o, n, all, k);
        k1 := FlushKeepsInv(Taken(o, n), script[1..], all, k);
      }
    }
  }

  // ---- Whole runs -------------------------------------------------------------------------------------

  datatype Op = Put(p: Pkt) | Call(pending: bool, script: seq<IoResult>)

  function Step(o: Out, op: Op): Out
    requires o.cur.Some? ==> o.pos <= |o.cur.value.bytes|
  {
    match op
    case Put(p) => Enqueue(o, p)
    case Call(pending, script) => Write(o, pending, script).o
  }

  lemma StepKeepsInv(o: Out, op: Op, all: seq<Pkt>, k: nat) returns (k1: nat)
    requires Inv(o, all, k) && Settled(o)
    ensures Inv(Step(o, op), all + (if op.Put? then [op.p] else []), k1) && k <= k1 && Settled(Step(o, op))
    ensures o.wire <= Step(o, op).wire && (!o.open ==> Step(o, op).wire == o.wire && !Step(o, op).open)
  {
    k1 := k;
    match op
    case Put(p) =>
      assert (all + [p])[..k] == all[..k] && (all + [p])[k..] == all[k..] + [p];
    case Call(pending, script) =>
      assert all + [] == all;
      if o.open {
        assert Inv(Promote(o), all, k);
        if !pending {
          k1 := FlushKeepsInv(Promote(o), script, all, k);
        }
      }
  }

  /** `ops` is a sequence of calls on a connection that starts at `o`; `all` are the packets enqueued by it. */
  ghost predicate Run(o: Out, ops: seq<Op>, t: Out)
    decreases |ops|
  {
    if ops == [] then o == t
    else (o.cur.Some? ==> o.pos <= |o.cur.value.bytes|) && Run(Step(o, ops[0]), ops[1..], t)
  }

  function Enqueued(ops: seq<Op>): seq<Pkt> {
    if ops == [] then [] else (if ops[0].Put? then [ops[0].p] else []) + Enqueued(ops[1..])
  }

  lemma EnqueuedIs(ops: seq<Op>)
    ensures Enqueued(ops) == if ops == [] then [] else (if ops[0].Put? then [ops[0].p] else []) + Enqueued(ops[1..])
  {
  }

  lemma Regroup(a: seq<Pkt>, b: seq<Pkt>, c: seq<Pkt>)
    ensures a + (b + c) == a + b + c
  {
  }

  lemma {:induction false} RunKeepsInv(o: Out, ops: seq<Op>, t: Out, all: seq<Pkt>, k: nat) returns (k1: nat)
    requires Inv(o, all, k) && Settled(o) && Run(o, ops, t)
    ensures Inv(t, all + Enqueued(ops), k1) && Settled(t)
    decreases |ops|
  {
    hide Inv, Settled, Step, Enqueued;
    EnqueuedIs(ops);
    if ops == [] {
      assert all + [] == all;
      k1 := k;
    } else {
      var k2 := StepKeepsInv(o, ops[0], all, k);
      var more := if ops[0].Put? then [ops[0].p] else [];
      Regroup(all, more, Enqueued(ops[1..]));
      k1 := RunKeepsInv(Step(o, ops[0]), ops[1..], t, all + more, k2);
    }
  }

  /** What is still to be written: the rest of the current packet, then the queue. */
  function Pending(o: Out): seq<byte>
    requires o.cur.Some? ==> o.pos <= |o.cur.value.bytes|
  {
    (if o.cur.Some? then o.cur.value.bytes[o.pos..] else []) + Bytes(o.queue)
  }

  /**
   For every sequence of enqueues, partial writes and failures: the bytes the socket has taken,
   followed by those still to be written, are the packets enqueued since the connection began. The
   packets taken completely are the first `k`: exactly the QoS 0 messages among them have been reported,
   and the connection is closed exactly if the last of them, and no other, is a DISCONNECT; and then
   nothing of another packet has been written.
   */
  lemma StreamIsConserved(o: Out, ops: seq<Op>, t: Out)
    requires o == Out(None, 0, [], true, [], []) && Run(o, ops, t)
    ensures (t.cur.Some? ==> t.pos <= |t.cur.value.bytes|) && t.wire + Pending(t) == Bytes(Enqueued(ops))
    ensures t.cur.Some? && t.pos > 0 ==> t.pos < |t.cur.value.bytes|
    ensures exists k: nat :: Inv(t, Enqueued(ops), k) && (!t.open ==> t.wire == Bytes(Enqueued(ops)[..k]))
  {
    var k := RunKeepsInv(o, ops, t, [], 0);
    var all := Enqueued(ops);
    assert [] + all == all;
    NothingLost(t, all, k);
    hide Run, Bytes, Pending, Enqueued, Qos0Ids;
    assert Inv(t, all, k) && (!t.open ==> t.wire == Bytes(all[..k]));
  }

  lemma BytesOfCur(o: Out)
    ensures Bytes(CurSeq(o)) == if o.cur.Some? then o.cur.value.bytes else []
  {
    if o.cur.Some? {
      assert Bytes(CurSeq(o)) == o.cur.value.bytes + Bytes([]);
    }
  }

  lemma NothingLost(o: Out, all: seq<Pkt>, k: nat)
    requires Inv(o, all, k)
    ensures o.wire + Pending(o) == Bytes(all)
  {
    hide Bytes;
    var done, cur, rest := Bytes(all[..k]), Bytes(CurSeq(o)), Bytes(o.queue);
    BytesOfCur(o);
    BytesAppend(all[..k], all[k..]);
    BytesAppend(CurSeq(o), o.queue);
    assert all == all[..k] + all[k..];
    assert Bytes(all) == done + (cur + rest);
    if o.cur.Some? {
      assert cur == cur[..o.pos] + cur[o.pos..];
    }
  }
}
