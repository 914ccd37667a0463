/**
 The incremental reader: bytes arrive in arbitrary pieces, and packets are handed on one by one.

 The specification, `Parse`, reads a whole stream at once. The reader is proved to hand on the
 packets `Parse` finds in the bytes received so far, however they were split.
 */
module PacketReader {
  import opened Mqtt
  import opened PacketBuffer
  import opened PacketQueue
  import opened RemainingLength

  datatype Received = Received(command: byte, body: seq<byte>)

  /** How the parse of a stream ends: within a packet, at a bad length, or at a zero command byte. */
  datatype End = Open | BadLength | ZeroCommand

  datatype Parsed = Parsed(packets: seq<Received>, end: End)

  function Parse(bs: seq<byte>): Parsed
    decreases |bs|
  {
    if bs == [] then Parsed([], Open)
    else if bs[0] == 0 then Parsed([], ZeroCommand)
    else
      match Read(bs[1..])
      case Incomplete => Parsed([], Open)
      case Malformed => Parsed([], BadLength)
      case Complete(n, used) =>
        if |bs| - 1 - used < n then Parsed([], Open)
        else
          ReadUses(bs[1..]);
          var rest := Parse(bs[1 + used + n..]);
          Parsed([Received(bs[0], bs[1 + used..1 + used + n])] + rest.packets, rest.end)
  }

  lemma ReadUses(bs: seq<byte>)
    ensures Read(bs).Complete? ==> 0 < Read(bs).used <= |bs| && Read(bs).used <= 4
  {
    ScanBound(bs, 0, 1, 0);
  }

  // ---- Composition -----------------------------------------------------------------------------------

  /** `bs` is a sequence of whole packets, whatever follows. */
  ghost predicate Whole(bs: seq<byte>, packets: seq<Received>) {
    forall more: seq<byte> {:trigger Parse(bs + more)} ::
      Parse(bs + more) == Parsed(packets + Parse(more).packets, Parse(more).end)
  }

  lemma WholeEmpty()
    ensures Whole([], [])
  {
    forall more: seq<byte> ensures Parse([] + more) == Parsed([] + Parse(more).packets, Parse(more).end) {
      assert [] + more == more;
    }
  }

  lemma WholeAppend(a: seq<byte>, b: seq<byte>, p: seq<Received>, q: seq<Received>)
    requires Whole(a, p) && Whole(b, q)
    ensures Whole(a + b, p + q)
  {
    forall more: seq<byte> ensures Parse(a + b + more) == Parsed(p + q + Parse(more).packets, Parse(more).end) {
      assert a + b + more == a + (b + more);
      assert p + q + Parse(more).packets == p + (q + Parse(more).packets);
    }
  }

  /** A complete length field stays what it is when more bytes follow. */
  lemma {:induction false} ScanStable(bs: seq<byte>, more: seq<byte>, value: nat, mult: nat, count: nat)
    ensures !Scan(bs, value, mult, count).Incomplete? ==>
            Scan(bs + more, value, mult, count) == Scan(bs, value, mult, count)
    decreases |bs|
  {
    if bs != [] {
      assert (bs + more)[1..] == bs[1..] + more;
      if count < 4 && bs[0] >= 128 {
        ScanStable(bs[1..], more, value + bs[0] % 128 * mult, mult * 128, count + 1);
      }
    }
  }

  lemma WholeParses(bs: seq<byte>, more: seq<byte>, packets: seq<Received>)
    requires Whole(bs, packets)
    ensures Parse(bs + more) == Parsed(packets + Parse(more).packets, Parse(more).end)
  {
  }

  /** Command, length field and body of the announced size make one whole packet. */
  lemma WholePacket(command: byte, ds: seq<byte>, body: seq<byte>)
    requires command != 0 && Read(ds) == Complete(|body|, |ds|)
    ensures Whole([command] + ds + body, [Received(command, body)])
  {
    var bs := [command] + ds + body;
    forall more: seq<byte>
      ensures Parse(bs + more) == Parsed([Received(command, body)] + Parse(more).packets, Parse(more).end)
    {
      var all := bs + more;
      assert all[1..] == ds + (body + more);
      ScanStable(ds, body + more, 0, 1, 0);
      assert all[1 + |ds|..1 + |ds| + |body|] == body;
      assert all[1 + |ds| + |body|..] == more;
    }
  }

  // ---- Round trip of whole streams ---------------------------------------------------------------------

  function Frames(ps: seq<Received>): seq<byte> {
    if ps == [] then [] else Frame(ps[0].command, ps[0].body) + Frames(ps[1..])
  }

  predicate Sendable(p: Received) {
    p.command != 0 && |p.body| < REMAINING_LIMIT
  }

  lemma {:induction false} FramesAreWhole(ps: seq<Received>)
    requires forall i :: 0 <= i < |ps| ==> Sendable(ps[i])
    ensures Whole(Frames(ps), ps)
  {
    if ps == [] {
      WholeEmpty();
    } else {
      var p := ps[0];
      assert Sendable(p);
      ReadDigits(|p.body|, []);
      assert Digits(|p.body|) + [] == Digits(|p.body|);
      WholePacket(p.command, Digits(|p.body|), p.body);
      FramesAreWhole(ps[1..]);
      WholeAppend(Frame(p.command, p.body), Frames(ps[1..]), [p], ps[1..]);
      assert [p] + ps[1..] == ps;
    }
  }

  /** Parsing the concatenation of the client's packets gives them back, one for one. */
  lemma ParseFrames(ps: seq<Received>)
    requires forall i :: 0 <= i < |ps| ==> Sendable(ps[i])
    ensures Parse(Frames(ps)) == Parsed(ps, Open)
  {
    FramesAreWhole(ps);
    assert Frames(ps) + [] == Frames(ps);
    assert Parse(Frames(ps) + []) == Parsed(ps + Parse([]).packets, Open);
  }

  // ---- The reader ----------------------------------------------------------------------------------------

  /** Why a call of `read` brought no bytes. */
  datatype Failure = Eof | WouldBlock | ConnReset | Other

  /** What the client returns when reading the command or the length field fails. */
  function FieldRc(f: Failure): Rc {
    match f
    case Eof => ConnLost
    case WouldBlock => Success
    case ConnReset => ConnLost
    case Other => Errno
  }

  /** The same for the body, where the end of the stream is not told from other errors. */
  function BodyRc(f: Failure): Rc {
    if f == Eof then Errno else FieldRc(f)
  }

  /** What the next result of the operating system means; with no result or no byte left, a read would block. */
  function Outcome(script: seq<IoResult>, incoming: seq<byte>): Option<Failure> {
    if script == [] then Some(WouldBlock)
    else
      match script[0]
      case Chunk(n) => if n == 0 then Some(Eof) else if incoming == [] then Some(WouldBlock) else None
      case Again => Some(WouldBlock)
      case Reset => Some(ConnReset)
      case Fail => Some(Other)
  }

  function Noted(failures: seq<Failure>, failure: Option<Failure>): seq<Failure> {
    if failure.Some? then failures + [failure.value] else failures
  }

  /** The peer's bytes not yet read, and the results the operating system will give. */
  class Socket {
    var incoming: seq<byte>
    var script: seq<IoResult>
    var failures: seq<Failure>  // of the calls of `read` that brought nothing, why

    constructor (incoming: seq<byte>, script: seq<IoResult>)
      ensures this.incoming == incoming && this.script == script
    {
      this.incoming, this.script, failures := incoming, script, [];
    }

    /** One call of `read`: at most `count` bytes, or none and a reason. */
    method Read(count: nat) returns (data: seq<byte>, failure: Option<Failure>)
      requires count > 0
      modifies this
      ensures |data| <= count && old(incoming) == data + incoming && (data == [] <==> failure.Some?)
      ensures |script| <= |old(script)| && (old(script) != [] ==> |script| < |old(script)|)
      ensures failure == Outcome(old(script), old(incoming)) && failures == Noted(old(failures), failure)
    {
      data, failure := [], Outcome(script, incoming);
      if failure.Some? {
        failures := failures + [failure.value];
      }
      if script != [] {
        if failure.None? {
          var k := Min(Min(script[0].n, count), |incoming|);
          data, incoming := incoming[..k], incoming[k..];
        }
        script := script[1..];
      }
    }
  }

  lemma Associate(a: seq<byte>, b: seq<byte>, c: seq<byte>)
    ensures a + (b + c) == a + b + c
  {
  }

  lemma NothingHeld(a: seq<byte>, b: seq<byte>, c: seq<byte>)
    ensures a + (b + c) == (a + b) + ([] + c) && [] + c == c
  {
  }

  class Reader {
    // in_packet
    var command: byte
    var remainingCount: int
    var remainingMult: uint32
    var remainingLength: uint32
    var payload: seq<byte>      // the first `pos` bytes of the buffer
    var toProcess: uint32
    var broken: bool            // a malformed length has been returned to the caller
    var handled: seq<Received>  // packets given to _mosquitto_packet_handle
    ghost var finished: seq<byte>  // the bytes of those packets
    ghost var partial: seq<byte>   // the bytes received since

    ghost predicate Fresh()
      reads this
    {
      command == 0 && partial == [] && remainingCount == 0 && remainingMult == 1 && remainingLength == 0
      && payload == [] && toProcess == 0
    }

    /** The command and some bytes of the length field have been read. */
    ghost predicate InLength()
      reads this
    {
      && command != 0 && -4 <= remainingCount <= 0 && payload == [] && toProcess == 0
      && |partial| == 1 - remainingCount && partial[0] == command
      && remainingMult == Power(-remainingCount) && remainingLength < remainingMult
      && forall more: seq<byte> {:trigger RemainingLength.Read(partial[1..] + more)} ::
           RemainingLength.Read(partial[1..] + more) == Scan(more, remainingLength, remainingMult, -remainingCount)
    }

    /** The length is known and part of the body has been read. */
    ghost predicate InBody()
      reads this
    {
      && command != 0 && 1 <= remainingCount <= 4 && |payload| + toProcess == remainingLength
      && |partial| == 1 + remainingCount + |payload| && partial[0] == command
      && partial[1 + remainingCount..] == payload
      && RemainingLength.Read(partial[1..1 + remainingCount]) == Complete(remainingLength, remainingCount)
    }

    /** The states in which `_mosquitto_packet_read` may return without an error. */
    ghost predicate Valid()
      reads this
    {
      (Fresh() || InLength() || (InBody() && toProcess > 0)) && Whole(finished, handled)
    }

    constructor ()
      ensures Valid() && handled == [] && finished == [] && partial == [] && !broken
    {
      command, remainingCount, remainingMult, remainingLength, payload, toProcess := 0, 0, 1, 0, [], 0;
      broken, handled, finished, partial := false, [], [], [];
      WholeEmpty();
    }

    method ReadCommand(sock: Socket) returns (failure: Option<Failure>)
      requires Fresh() && Parse(partial + sock.incoming).end != ZeroCommand
      modifies this`command, this`partial, sock
      ensures if failure.Some? then Fresh() else InLength() && remainingCount == 0
      ensures sock.failures == Noted(old(sock.failures), failure)
      ensures partial + sock.incoming == old(partial + sock.incoming) && Consumed(|old(sock.script)|, |sock.script|)
    {
      var data;
      data, failure := sock.Read(1);
      if failure.None? {
        assert old(partial + sock.incoming)[0] == data[0];
        command := data[0];
        partial := data;
        assert forall more: seq<byte> :: partial[1..] + more == more;
      }
    }

    /** One byte of the length field. */
    method TakeLengthByte(b: byte) returns (last: bool)
      requires InLength() && remainingCount > -4
      modifies this`remainingCount, this`remainingLength, this`remainingMult, this`partial
      ensures partial == old(partial) + [b] && last == (b < 128)
      ensures !last ==> InLength()
      ensures last ==>
                && -4 <= remainingCount < 0 && |partial| == 1 - remainingCount && remainingLength < REMAINING_LIMIT
                && RemainingLength.Read(partial[1..]) == Complete(remainingLength, -remainingCount)
    {
      ghost var ds, value, mult, count := partial[1..], remainingLength, remainingMult, -remainingCount;
      assert Power(1) == 128 && Power(2) == 16384 && Power(3) == 2097152 && Power(4) == REMAINING_LIMIT;
      DigitBelow(value, b % 128, mult);
      partial := partial + [b];
      remainingCount := remainingCount - 1;
      remainingLength := remainingLength + b % 128 * remainingMult;
      remainingMult := remainingMult * 128;
      last := b < 128;
      assert partial[1..] == ds + [b];
      if last {
        assert RemainingLength.Read(ds + [b]) == Scan([b], value, mult, count);
      } else {
        forall more: seq<byte>
          ensures RemainingLength.Read(partial[1..] + more)
                  == Scan(more, remainingLength, remainingMult, -remainingCount)
        {
          assert partial[1..] + more == ds + ([b] + more);
          assert ([b] + more)[1..] == more;
        }
      }
    }

    /** The length is complete; its byte count is kept negative until the end of the loop. */
    ghost predicate LengthRead()
      reads this
    {
      && command != 0 && -4 <= remainingCount < 0 && |partial| == 1 - remainingCount && partial[0] == command
      && remainingLength < REMAINING_LIMIT && payload == [] && toProcess == 0
      && RemainingLength.Read(partial[1..]) == Complete(remainingLength, -remainingCount)
    }

    /** One turn of the loop over the length field. A fifth byte makes the packet unreadable. */
    method ReadLengthByte(sock: Socket) returns (failure: Option<Failure>, last: bool)
      requires InLength() && !broken
      modifies this`remainingCount, this`remainingLength, this`remainingMult, this`partial, this`broken, sock
      ensures if broken then Parse(partial) == Parsed([], BadLength) && failure.None?
              else if failure.Some? || !last then InLength() else LengthRead()
      ensures failure.Some? ==> partial == old(partial)
      ensures partial + sock.incoming == old(partial + sock.incoming) && Consumed(|old(sock.script)|, |sock.script|)
      ensures sock.failures == Noted(old(sock.failures), failure)
      ensures failure.None? && !broken ==> |sock.script| < |old(sock.script)|
    {
      var data;
      last := false;
      data, failure := sock.Read(1);
      if failure.Some? {
        return;
      }
      assert data == [data[0]];
      if remainingCount == -4 {
        FifthByte(data[0]);
        partial := partial + data;
        remainingCount := -5;
        broken := true;
        return;
      }
      last := TakeLengthByte(data[0]);
    }

    lemma FifthByte(b: byte)
      requires InLength() && remainingCount == -4
      ensures Parse(partial + [b]) == Parsed([], BadLength)
    {
      assert RemainingLength.Read(partial[1..] + [b]) == Malformed;
      assert (partial + [b])[1..] == partial[1..] + [b];
    }

    lemma LengthIsRead()
      requires LengthRead()
      ensures RemainingLength.Read(partial[1..1 - remainingCount]) == Complete(remainingLength, -remainingCount)
      ensures partial[1 - remainingCount..] == []
    {
      assert partial[1..1 - remainingCount] == partial[1..];
    }

    /** The do-while loop over the length field. */
    method ReadLength(sock: Socket) returns (failure: Option<Failure>)
      requires InLength() && !broken
      modifies this`remainingCount, this`remainingLength, this`remainingMult, this`partial, this`toProcess,
               this`broken, sock
      ensures broken ==> Parse(partial) == Parsed([], BadLength) && failure.None?
      ensures !broken ==> if failure.Some? then InLength() else InBody() && payload == []
      ensures sock.failures == Noted(old(sock.failures), failure)
      ensures partial + sock.incoming == old(partial + sock.incoming) && Consumed(|old(sock.script)|, |sock.script|)
    {
      hide InLength, Parse, RemainingLength.Read;
      var last := false;
      while !last
        invariant !broken && sock.failures == old(sock.failures)
        invariant if last then LengthRead() && Consumed(|old(sock.script)|, |sock.script|) else InLength()
        invariant partial + sock.incoming == old(partial + sock.incoming) && |sock.script| <= |old(sock.script)|
        decreases |sock.script|, !last
      {
        failure, last := ReadLengthByte(sock);
        if broken || failure.Some? {
          return;
        }
      }
      LengthIsRead();
      remainingCount := -remainingCount;
      toProcess := remainingLength;
      failure := None;
    }

    method ReadBody(sock: Socket) returns (failure: Option<Failure>)
      requires InBody()
      modifies this`payload, this`toProcess, this`partial, sock
      ensures InBody() && (failure.None? <==> toProcess == 0)
      ensures sock.failures == Noted(old(sock.failures), failure)
      ensures partial + sock.incoming == old(partial + sock.incoming) && |sock.script| <= |old(sock.script)|
      ensures old(toProcess) > 0 ==> Consumed(|old(sock.script)|, |sock.script|)
    {
      hide RemainingLength.Read;
      while toProcess > 0
        invariant InBody() && sock.failures == old(sock.failures)
        invariant partial + sock.incoming == old(partial + sock.incoming) && |sock.script| <= |old(sock.script)|
        invariant toProcess == old(toProcess) || Consumed(|old(sock.script)|, |sock.script|)
      {
        var data;
        data, failure := sock.Read(toProcess);
        if failure.Some? {
          return;
        }
        TakeBody(data);
      }
      failure := None;
    }

    /** More bytes of the body. */
    method TakeBody(data: seq<byte>)
      requires InBody() && |data| <= toProcess
      modifies this`payload, this`toProcess, this`partial
      ensures InBody() && toProcess == old(toProcess) - |data| && partial == old(partial) + data
    {
      ghost var head := partial[1..1 + remainingCount];
      toProcess := toProcess - |data|;
      payload := payload + data;
      partial := partial + data;
      assert partial[1..1 + remainingCount] == head;
    }

    /** Hands the packet on and clears the fields, whatever the handler returns. */
    method Finish()
      requires InBody() && toProcess == 0 && Whole(finished, handled)
      modifies this
      ensures Fresh() && Whole(finished, handled) && broken == old(broken)
      ensures finished == old(finished + partial) && handled == old(handled) + [Received(old(command), old(payload))]
      ensures Whole(old(partial), [Received(old(command), old(payload))])
    {
      ghost var ds := partial[1..1 + remainingCount];
      assert partial == [command] + ds + payload;
      WholePacket(command, ds, payload);
      WholeAppend(finished, partial, handled, [Received(command, payload)]);
      handled := handled + [Received(command, payload)];
      finished, partial := finished + partial, [];
      command, remainingCount, remainingMult, remainingLength, payload, toProcess := 0, 0, 1, 0, [], 0;
    }

    /**
     The code for a failed read. EAGAIN is no error. Inside a body, the end of the stream is not told from
     other errors.
     */
    ghost predicate Tells(rc: Rc, failure: Failure)
      reads this
    {
      && (rc == Success <==> failure == WouldBlock)
      && (rc == ConnLost <==> failure == ConnReset || (failure == Eof && toProcess == 0))
      && (rc == Errno <==> failure == Other || (failure == Eof && toProcess > 0))
    }

    /**
     `_mosquitto_packet_read` on an open socket; `judge` is what the handler of a packet returns. A call
     hands on one packet and returns the handler's code, or meets a malformed length, or stops at a failed read.
     */
    method PacketRead(sock: Socket, judge: Received -> Rc) returns (rc: Rc)
      requires Valid() && !broken && Parse(partial + sock.incoming).end != ZeroCommand
      modifies this, sock
      ensures finished + (partial + sock.incoming) == old(finished + (partial + sock.incoming))
      ensures broken ==> rc == Protocol && Whole(finished, handled) && Parse(partial) == Parsed([], BadLength)
      ensures !broken ==> Valid() && Parse(partial + sock.incoming).end != ZeroCommand
      ensures if handled == old(handled) then
                broken || (|sock.failures| == |old(sock.failures)| + 1
                           && Tells(rc, sock.failures[|old(sock.failures)|]))
              else !broken && handled != [] && handled[..|handled| - 1] == old(handled)
                   && rc == judge(handled[|handled| - 1])
      ensures old(sock.failures) <= sock.failures
      ensures broken || handled != old(handled) ==> sock.failures == old(sock.failures)
      ensures Consumed(|old(sock.script)|, |sock.script|)
    {
      hide Parse, Whole, RemainingLength.Read;
      var failure;
      if command == 0 {
        failure := ReadCommand(sock);
        if failure.Some? {
          return FieldRc(failure.value);
        }
      }
      if remainingCount <= 0 {
        failure := ReadLength(sock);
        if broken {
          return Protocol;
        }
        if failure.Some? {
          return FieldRc(failure.value);
        }
      }
      failure := ReadBody(sock);
      if failure.Some? {
        return BodyRc(failure.value);
      }
      ghost var before, whole, rest := finished, partial, sock.incoming;
      var packet := Received(command, payload);
      Finish();
      WholeParses(whole, rest, [packet]);
      NothingHeld(before, whole, rest);
      return judge(packet);
    }

    /**
     Repeated calls on one connection, until the script ends or a call fails. However the bytes arrive
     in pieces, the packets handed on are those that parsing the received bytes at once finds, up to the
     first one the handler refuses; and the code returned is that handler's, or tells of the malformed
     length or of the read that failed.
     */
    method ReadAll(sock: Socket, judge: Received -> Rc) returns (rc: Rc)
      requires Fresh() && finished == [] && handled == [] && !broken && Parse(sock.incoming).end != ZeroCommand
      modifies this, sock
      ensures old(sock.incoming) == finished + partial + sock.incoming
      ensures Parse(finished + partial) == Parsed(handled, if broken then BadLength else Open)
      ensures rc == Success ==> sock.script == [] && !broken
      ensures Accepted(handled, judge) && (Refused(handled, judge) ==> !broken && rc == judge(handled[|handled| - 1]))
      ensures broken ==> rc == Protocol
      ensures old(sock.failures) <= sock.failures
      ensures forall i :: |old(sock.failures)| <= i < |sock.failures| && sock.failures[i] != WouldBlock ==>
                i == |sock.failures| - 1 && rc != Success && Tells(rc, sock.failures[i])
      ensures rc != Success && !broken && !Refused(handled, judge) ==>
                sock.failures != old(sock.failures) && Tells(rc, sock.failures[|sock.failures| - 1])
    {
      hide Parse, Whole, InLength, InBody, Accepted, Refused;
      rc := Success;
      WholeEmpty();
      NothingJudged(judge);
      assert partial + sock.incoming == sock.incoming;
      ghost var all := sock.incoming;
      assert finished + (partial + sock.incoming) == all;
      while rc == Success && sock.script != []
        invariant broken ==> rc == Protocol && Whole(finished, handled) && Parse(partial) == Parsed([], BadLength)
        invariant !broken ==> Valid() && Parse(partial + sock.incoming).end != ZeroCommand
        invariant finished + (partial + sock.incoming) == all
        invariant rc == Success ==> !Refused(handled, judge)
        invariant Accepted(handled, judge)
                  && (Refused(handled, judge) ==> !broken && rc == judge(handled[|handled| - 1]))
        invariant old(sock.failures) <= sock.failures
        invariant forall i :: |old(sock.failures)| <= i < |sock.failures| && sock.failures[i] != WouldBlock ==>
                    i == |sock.failures| - 1 && rc != Success && Tells(rc, sock.failures[i])
        invariant rc != Success && !broken && !Refused(handled, judge) ==>
                    sock.failures != old(sock.failures) && Tells(rc, sock.failures[|sock.failures| - 1])
        decreases |sock.script|
      {
        ghost var before := handled;
        rc := PacketRead(sock, judge);
        if handled != before {
          JudgeNext(before, handled, judge);
        }
      }
      if !broken {
        PartialIsOpen();
      }
      Associate(finished, partial, sock.incoming);
      WholeParses(finished, partial, handled);
    }

    /** No packet is complete in the bytes held back. */
    lemma PartialIsOpen()
      requires Valid()
      ensures Parse(partial) == Parsed([], Open)
    {
      if InLength() {
        assert partial[1..] + [] == partial[1..];
      } else if InBody() {
        var ds := partial[1..1 + remainingCount];
        assert partial[1..] == ds + payload;
        ScanStable(ds, payload, 0, 1, 0);
      }
    }
  }

  /** The handler has accepted every packet before the last one. */
  predicate Accepted(handled: seq<Received>, judge: Received -> Rc) {
    forall i :: 0 <= i < |handled| - 1 ==> judge(handled[i]) == Success
  }

  /** The handler has refused the last packet. */
  predicate Refused(handled: seq<Received>, judge: Received -> Rc) {
    handled != [] && judge(handled[|handled| - 1]) != Success
  }

  lemma NothingJudged(judge: Received -> Rc)
    ensures Accepted([], judge) && !Refused([], judge)
  {
  }

  lemma JudgeNext(before: seq<Received>, after: seq<Received>, judge: Received -> Rc)
    requires Accepted(before, judge) && !Refused(before, judge) && after != [] && after[..|after| - 1] == before
    ensures Accepted(after, judge) && (Refused(after, judge) <==> judge(after[|after| - 1]) != Success)
  {
    assert forall i :: 0 <= i < |before| ==> after[i] == before[i];
  }

  /** Progress through a script of results: an entry is used up unless there is none. */
  predicate Consumed(before: nat, after: nat) {
    after <= before && (before > 0 ==> after < before)
  }

  // ---- Whole connections ---------------------------------------------------------------------------------

  /** A whole packet stands at the front. */
  predicate Begins(bs: seq<byte>) {
    bs != [] && bs[0] != 0 && Read(bs[1..]).Complete? && Read(bs[1..]).value <= |bs| - 1 - Read(bs[1..]).used
  }

  /** The first packet and the bytes behind it. */
  function Front(bs: seq<byte>): (r: (Received, seq<byte>))
    requires Begins(bs)
    ensures |r.1| < |bs|
  {
    ReadUses(bs[1..]);
    var l := Read(bs[1..]);
    (Received(bs[0], bs[1 + l.used..1 + l.used + l.value]), bs[1 + l.used + l.value..])
  }

  lemma ParseUnfolds(bs: seq<byte>)
    ensures Parse(bs).packets == if Begins(bs) then [Front(bs).0] + Parse(Front(bs).1).packets else []
  {
    if bs != [] {
      ReadUses(bs[1..]);
    }
  }

  /** More bytes behind a packet do not change it. */
  lemma FrontStays(bs: seq<byte>, more: seq<byte>)
    requires Begins(bs)
    ensures Begins(bs + more) && Front(bs + more) == (Front(bs).0, Front(bs).1 + more)
  {
    var l := Read(bs[1..]);
    ReadUses(bs[1..]);
    assert (bs + more)[1..] == bs[1..] + more;
    ScanStable(bs[1..], more, 0, 1, 0);
    var n := 1 + l.used + l.value;
    assert (bs + more)[1 + l.used..n] == bs[1 + l.used..n];
    assert (bs + more)[n..] == bs[n..] + more;
  }

  /** Parsing fewer bytes finds fewer packets, and no different ones. */
  lemma {:induction false} ParsePrefix(bs: seq<byte>, more: seq<byte>)
    ensures Parse(bs).packets <= Parse(bs + more).packets
    decreases |bs|
  {
    hide Parse, Front;
    ParseUnfolds(bs);
    if Begins(bs) {
      FrontStays(bs, more);
      ParseUnfolds(bs + more);
      ParsePrefix(Front(bs).1, more);
    }
  }

  /** The packet was built by the client: its bytes are the frame of its command and a body. */
  predicate IsFrameOf(p: Pkt, r: Received) {
    Sendable(r) && p.command == r.command && p.bytes == Frame(r.command, r.body)
  }

  lemma {:induction false} FramesAreBytes(ps: seq<Pkt>, rs: seq<Received>)
    requires |ps| == |rs| && forall i :: 0 <= i < |ps| ==> IsFrameOf(ps[i], rs[i])
    ensures Bytes(ps) == Frames(rs)
  {
    if ps != [] {
      assert IsFrameOf(ps[0], rs[0]);
      FramesAreBytes(ps[1..], rs[1..]);
    }
  }

  /**
   From queue to peer: whatever the partial writes on one side, the packets parsed from the bytes the
   socket has taken are the packets enqueued, in order; all of them once nothing is left to write.
   */
  lemma WireCarriesPackets(o: Out, ops: seq<Op>, t: Out, rs: seq<Received>)
    requires o == Out(None, 0, [], true, [], []) && PacketQueue.Run(o, ops, t)
    requires |rs| == |Enqueued(ops)| && forall i :: 0 <= i < |rs| ==> IsFrameOf(Enqueued(ops)[i], rs[i])
    ensures Parse(t.wire).packets <= rs
    ensures t.cur.None? && t.queue == [] ==> Parse(t.wire) == Parsed(rs, Open)
  {
    StreamIsConserved(o, ops, t);
    FramesAreBytes(Enqueued(ops), rs);
    assert forall i :: 0 <= i < |rs| ==> Sendable(rs[i]) by {
      assert forall i :: 0 <= i < |rs| ==> IsFrameOf(Enqueued(ops)[i], rs[i]);
    }
    ParseFrames(rs);
    ParsePrefix(t.wire, Pending(t));
    if t.cur.None? && t.queue == [] {
      assert t.wire + Pending(t) == t.wire;
    }
  }
}
