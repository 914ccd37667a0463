/** The outgoing packet queue as a linked list, and the writing loop over it. */
module PacketLists {
  import opened Mqtt
  import opened PacketQueue
  import opened Writing

  /** A `_mosquitto_packet` that is ready to be written. */
  class Node {
    const pkt: Pkt
    var toProcess: nat
    var pos: nat
    var next: Node?

    constructor (pkt: Pkt)
      ensures this.pkt == pkt && pos == 0 && toProcess == |pkt.bytes| && next == null
    {
      this.pkt, toProcess, pos, next := pkt, |pkt.bytes|, 0, null;
    }
  }

  function Pkts(spine: seq<Node>): (ps: seq<Pkt>)
    ensures |ps| == |spine| && forall i :: 0 <= i < |ps| ==> ps[i] == spine[i].pkt
  {
    if spine == [] then [] else [spine[0].pkt] + Pkts(spine[1..])
  }

  class OutQueue {
    var current: Node?           // current_out_packet
    var outPacket: Node?
    var outPacketLast: Node?
    var open: bool               // sock != INVALID_SOCKET
    var wire: seq<byte>          // bytes the socket has taken
    var published: seq<uint16>   // ids passed to on_publish
    ghost var spine: seq<Node>   // the nodes reachable from outPacket

    /** The tail pointer matters only while the queue is not empty. */
    ghost predicate Valid()
      reads this`current, this`outPacket, this`outPacketLast, this`spine, current, spine
    {
      && outPacket == (if spine == [] then null else spine[0])
      && (spine != [] ==> outPacketLast == spine[|spine| - 1] && spine[|spine| - 1].next == null)
      && (forall i :: 0 <= i < |spine| - 1 ==> spine[i].next == spine[i + 1])
      && (forall i, j :: 0 <= i < j < |spine| ==> spine[i] != spine[j])
      && (forall i :: 0 <= i < |spine| ==> spine[i].pos == 0 && spine[i].toProcess == |spine[i].pkt.bytes|)
      && (current != null ==> current !in spine && current.pos + current.toProcess == |current.pkt.bytes|)
    }

    ghost function Abs(): Out
      reads this, current
    {
      Out(if current == null then None else Some(current.pkt), if current == null then 0 else current.pos,
          Pkts(spine), open, wire, published)
    }

    constructor ()
      ensures Valid() && Abs() == Out(None, 0, [], true, [], [])
    {
      current, outPacket, outPacketLast, spine := null, null, null, [];
      open, wire, published := true, [], [];
    }

    ghost function Nodes(): set<Node>
      reads this`current, this`spine
    {
      (set n | n in spine) + (if current == null then {} else {current})
    }

    lemma Facts()
      requires Valid()
      ensures outPacket == null <==> spine == []
      ensures current != null ==> current.pos + current.toProcess == |current.pkt.bytes|
    {
    }

    /** `_mosquitto_packet_queue` in threaded mode. */
    method Enqueue(pkt: Pkt)
      requires Valid()
      modifies this`outPacket, this`outPacketLast, this`spine, spine`next
      ensures Valid() && Abs() == PacketQueue.Enqueue(old(Abs()), pkt)
    {
      hide Pkts;
      var packet := new Node(pkt);
      if outPacket != null {
        outPacketLast.next := packet;
      } else {
        outPacket := packet;
      }
      outPacketLast := packet;
      PktsAppend(spine, packet);
      spine := spine + [packet];
    }

    /** Takes the head of the queue as the current packet. */
    method Shift()
      requires Valid()
      modifies this`current, this`outPacket, this`outPacketLast, this`spine
      ensures Valid() && forall n :: n in Nodes() ==> n in old(Nodes())
      ensures var o := old(Abs());
              Abs() == o.(cur := if o.queue == [] then None else Some(o.queue[0]), pos := 0,
                          queue := if o.queue == [] then [] else o.queue[1..])
    {
      PktsRest(spine);
      hide Pkts;
      current := outPacket;
      if outPacket != null {
        assert |spine| > 1 ==> spine[0].next == spine[1];
        outPacket := outPacket.next;
        if outPacket == null {
          outPacketLast := null;
        }
        spine := spine[1..];
      }
    }

    /** The inner loop of `_mosquitto_packet_write`: write as much of the current packet as the socket takes. */
    method WriteCurrent(script: seq<IoResult>) returns (done: bool, rest: seq<IoResult>, rc: Rc)
      requires Valid() && current != null
      modifies this`wire, current`pos, current`toProcess
      ensures Valid()
      ensures done ==> current.toProcess == 0 && Flush(old(Abs()), script) == Flush(Abs(), rest) && |rest| <= |script|
      ensures !done ==> Flush(old(Abs()), script) == Flushed(Abs(), rest, rc)
    {
      hide Flush, Pkts;
      rest := script;
      while current.toProcess > 0
        invariant Valid() && |rest| <= |script| && Flush(old(Abs()), script) == Flush(Abs(), rest)
        decreases |rest|
      {
        FlushWrites(Abs(), rest);
        if rest == [] {
          return false, rest, Success;
        }
        var result := rest[0];
        rest := rest[1..];
        match result {
          case Chunk(n) =>
            if n == 0 {
              return false, rest, Errno;
            }
            var writeLength := Min(n, current.toProcess);
            wire := wire + current.pkt.bytes[current.pos..current.pos + writeLength];
            current.toProcess := current.toProcess - writeLength;
            current.pos := current.pos + writeLength;
          case Again => return false, rest, Success;
          case Reset => return false, rest, ConnLost;
          case Fail => return false, rest, Errno;
        }
      }
      return true, rest, Success;
    }

    /** The end of the outer loop of `_mosquitto_packet_write`: the current packet has been written. */
    method Complete()
      requires Valid() && current != null && current.toProcess == 0
      modifies this`current, this`outPacket, this`outPacketLast, this`spine, this`open, this`published
      ensures Valid() && Abs() == Advance(old(Abs())) && forall n :: n in Nodes() ==> n in old(Nodes())
    {
      var packet := current;
      Shift();
      hide Valid;
      if IsQos0(packet.pkt) {
        published := published + [packet.pkt.mid];
      } else if IsDisconnect(packet.pkt) {
        open := false;
      }
    }

    /** One turn of the outer loop of `_mosquitto_packet_write`; `more` says whether the loop goes on. */
    method WriteOne(script: seq<IoResult>) returns (more: bool, rest: seq<IoResult>, rc: Rc)
      requires Valid() && open && current != null
      modifies this, Nodes()
      ensures Valid() && forall n :: n in Nodes() ==> n in old(Nodes())
      ensures more ==> open && Flush(old(Abs()), script) == Flush(Abs(), rest)
      ensures more ==> |rest| <= |script| && if current == null then |spine| == 0 else |spine| < old(|spine|)
      ensures !more ==> Flush(old(Abs()), script) == Flushed(Abs(), rest, rc)
    {
      hide Valid, Flush, Pkts;
      var done;
      done, rest, rc := WriteCurrent(script);
      if !done {
        return false, rest, rc;
      }
      Facts();
      FlushAdvances(Abs(), rest);
      var disconnect := !IsQos0(current.pkt) && IsDisconnect(current.pkt);
      Complete();
      return !disconnect, rest, Success;
    }

    /** The outer loop of `_mosquitto_packet_write`. */
    method WriteAll(script: seq<IoResult>) returns (rc: Rc, rest: seq<IoResult>)
      requires Valid() && open
      modifies this, Nodes()
      ensures Valid() && Flush(old(Abs()), script) == Flushed(Abs(), rest, rc)
    {
      Facts();
      hide Valid, Flush, Pkts, Abs;
      rest := script;
      ghost var start := Abs();
      ghost var before := Nodes();
      while current != null
        invariant Valid() && open
        invariant Flush(start, script) == Flush(Abs(), rest)
        invariant forall n :: n in Nodes() ==> n in before
        decreases |rest|, |spine|, if current == null then 0 else 1
      {
        var more;
        more, rest, rc := WriteOne(rest);
        if !more {
          return;
        }
        Facts();
      }
      FlushNothing(Abs(), rest);
      return Success, rest;
    }

    /** `_mosquitto_packet_write`; `pending` is the state `mosq_cs_connect_pending`. */
    method PacketWrite(pending: bool, script: seq<IoResult>) returns (rc: Rc, rest: seq<IoResult>)
      requires Valid()
      modifies this, Nodes()
      ensures Valid()
      ensures PacketQueue.Write(old(Abs()), pending, script) == Flushed(Abs(), rest, rc)
      ensures Achieved(old(Abs()), pending, script, Abs(), rest, rc)
    {
      Facts();
      hide Valid, Flush, Pkts, Achieved;
      WriteAchieves(Abs(), pending, script);
      if !open {
        return NoConn, script;
      }
      if outPacket != null && current == null {
        Shift();
      }
      Facts();
      assert Abs() == Promote(old(Abs()));
      if pending {
        return Success, script;
      }
      rc, rest := WriteAll(script);
    }

    /** The part of `_mosquitto_reconnect` that frees all packets. It leaves the tail pointer as it is. */
    method DropAll()
      requires Valid()
      modifies this`current, this`outPacket, this`spine
      ensures Valid() && current == null && outPacket == null && spine == []
      ensures outPacketLast == old(outPacketLast)
    {
      if outPacket != null && current == null {
        assert |spine| > 1 ==> spine[0].next == spine[1];
        current := outPacket;
        outPacket := outPacket.next;
        spine := spine[1..];
      }
      while current != null
        invariant Valid() && (current == null ==> spine == [])
        decreases |spine|, if current == null then 0 else 1
      {
        assert |spine| > 1 ==> spine[0].next == spine[1];
        current := outPacket;
        if outPacket != null {
          outPacket := outPacket.next;
          spine := spine[1..];
        }
      }
    }
  }

  lemma PktsRest(spine: seq<Node>)
    ensures Pkts(spine) == if spine == [] then [] else [spine[0].pkt] + Pkts(spine[1..])
  {
  }

  lemma {:induction false} PktsAppend(spine: seq<Node>, n: Node)
    ensures Pkts(spine + [n]) == Pkts(spine) + [n.pkt]
  {
  }
}
