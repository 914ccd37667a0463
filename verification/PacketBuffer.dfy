/** A packet under construction or being taken apart: a byte buffer and a position in it. */
module PacketBuffer {
  import opened Mqtt
  import opened RemainingLength

  /** Two bytes, most significant first. */
  function Word(w: uint16): seq<byte> {
    [w / 256, w % 256]
  }

  /** A field with a two-byte length in front; the length is cut to 16 bits. */
  function Field(bs: seq<byte>): seq<byte> {
    Word(|bs| % 0x1_0000) + bs[..|bs| % 0x1_0000]
  }

  /** A whole packet on the wire. */
  function Frame(command: byte, body: seq<byte>): seq<byte> {
    [command] + Digits(|body|) + body
  }

  /** Reads two bytes back as a number. */
  function Join(msb: int, lsb: int): int {
    msb * 256 + lsb
  }

  class Buffer {
    var command: byte
    var remainingLength: nat
    var remainingCount: nat
    var packetLength: nat
    var pos: nat
    var payload: array<byte>

    /** Bytes written so far, for a packet being built. */
    ghost predicate Building()
      reads this
    {
      pos <= packetLength == payload.Length
    }

    ghost function Written(): seq<byte>
      reads this, payload
      requires Building()
    {
      payload[..pos]
    }

    constructor (command: byte, remainingLength: nat)
      ensures this.command == command && this.remainingLength == remainingLength
    {
      this.command, this.remainingLength := command, remainingLength;
      remainingCount, packetLength, pos := 0, 0, 0;
      payload := new byte[0];
    }

    /** A received packet, at the start of its body. */
    constructor Received(command: byte, body: seq<byte>)
      ensures this.command == command && remainingLength == |body| && pos == 0
      ensures payload[..] == body && fresh(payload)
    {
      this.command, remainingLength := command, |body|;
      remainingCount, packetLength, pos := 0, 0, 0;
      payload := new byte[|body|](i requires 0 <= i < |body| => body[i]);
    }

    /** The do-while loop of `_mosquitto_packet_alloc`: at most five digits are produced. */
    method EncodeLength() returns (remainingBytes: seq<byte>)
      ensures |remainingBytes| <= 5
      ensures remainingLength < REMAINING_LIMIT ==> remainingBytes == Digits(remainingLength) && |remainingBytes| <= 4
      ensures remainingLength >= REMAINING_LIMIT ==> |remainingBytes| == 5
    {
      FourBytesSuffice(remainingLength);
      var rest := remainingLength;
      remainingBytes := [];
      while true
        invariant |remainingBytes| <= 4 && Digits(remainingLength) == remainingBytes + Digits(rest)
        decreases 5 - |remainingBytes|
      {
        var digit: byte := rest % 128;
        assert Digits(rest) == if rest < 128 then [digit] else [digit + 128] + Digits(rest / 128);
        rest := rest / 128;
        if rest > 0 {
          digit := digit + 128;
        }
        remainingBytes := remainingBytes + [digit];
        if !(rest > 0 && |remainingBytes| < 5) {
          break;
        }
      }
    }

    /** `_mosquitto_packet_alloc`. */
    method Alloc() returns (rc: Rc)
      modifies this
      ensures rc == if remainingLength < REMAINING_LIMIT then Success else PayloadSize
      ensures command == old(command) && remainingLength == old(remainingLength)
      ensures rc == Success ==>
                && Building() && fresh(payload) && Written() == [command] + Digits(remainingLength)
                && packetLength == pos + remainingLength
    {
      var remainingBytes := EncodeLength();
      remainingCount := |remainingBytes|;
      if remainingCount == 5 {
        return PayloadSize;
      }
      packetLength := remainingLength + 1 + remainingCount;
      var data := new byte[packetLength];
      data[0] := command;
      for i := 0 to |remainingBytes|
        modifies data
        invariant data[0] == command && data[1..i + 1] == remainingBytes[..i]
      {
        data[i + 1] := remainingBytes[i];
      }
      payload := data;
      pos := 1 + remainingCount;
      assert data[..pos] == [data[0]] + data[1..pos];
      return Success;
    }

    // ---- Writing ---------------------------------------------------------------------------------

    /** `_mosquitto_write_byte`. */
    method WriteByte(b: byte)
      requires Building() && pos + 1 <= packetLength
      modifies this`pos, payload
      ensures Building() && Written() == old(Written()) + [b]
    {
      payload[pos] := b;
      pos := pos + 1;
    }

    /** `_mosquitto_write_uint16`. */
    method WriteUint16(w: uint16)
      requires Building() && pos + 2 <= packetLength
      modifies this`pos, payload
      ensures Building() && Written() == old(Written()) + Word(w)
    {
      WriteByte(w / 256);
      WriteByte(w % 256);
    }

    /** `_mosquitto_write_bytes`. */
    method WriteBytes(bs: seq<byte>)
      requires Building() && pos + |bs| <= packetLength
      modifies this`pos, payload
      ensures Building() && Written() == old(Written()) + bs
    {
      forall i | 0 <= i < |bs| {
        payload[pos + i] := bs[i];
      }
      pos := pos + |bs|;
    }

    /** `_mosquitto_write_string`; the length argument is 16 bits wide. */
    method WriteString(bs: seq<byte>)
      requires Building() && pos + 2 + |bs| % 0x1_0000 <= packetLength
      modifies this`pos, payload
      ensures Building() && Written() == old(Written()) + Field(bs)
    {
      var length := |bs| % 0x1_0000;
      WriteUint16(length);
      WriteBytes(bs[..length]);
    }

    // ---- Reading ---------------------------------------------------------------------------------

    ghost predicate Reading()
      reads this
    {
      pos <= remainingLength == payload.Length
    }

    ghost function Rest(): seq<byte>
      reads this, payload
      requires Reading()
    {
      payload[pos..]
    }

    /** `_mosquitto_read_uint16`. */
    method ReadUint16() returns (rc: Rc, w: uint16)
      requires Reading()
      modifies this`pos
      ensures Reading() && rc == if |old(Rest())| >= 2 then Success else Protocol
      ensures rc == Success ==> w == Join(old(Rest())[0], old(Rest())[1]) && Rest() == old(Rest())[2..]
    {
      if pos + 2 > remainingLength {
        return Protocol, 0;
      }
      var msb := payload[pos];
      pos := pos + 1;
      var lsb := payload[pos];
      pos := pos + 1;
      return Success, Join(msb, lsb);
    }

    /** `_mosquitto_read_bytes`. */
    method ReadBytes(count: nat) returns (rc: Rc, bs: seq<byte>)
      requires Reading()
      modifies this`pos
      ensures Reading() && rc == if count <= |old(Rest())| then Success else Protocol
      ensures rc == Success ==> bs == old(Rest())[..count] && Rest() == old(Rest())[count..]
    {
      if pos + count > remainingLength {
        return Protocol, [];
      }
      bs := payload[pos..pos + count];
      pos := pos + count;
      return Success, bs;
    }

    /** `_mosquitto_read_string`, without the terminating NUL. */
    method ReadString() returns (rc: Rc, bs: seq<byte>)
      requires Reading()
      modifies this`pos
      ensures Reading()
      ensures var r := TakeField(old(Rest()));
              if r.TooShort? then rc == Protocol else rc == Success && bs == r.field && Rest() == r.rest
    {
      var length;
      rc, length := ReadUint16();
      if rc != Success {
        return rc, [];
      }
      rc, bs := ReadBytes(length);
    }
  }

  datatype Taken = TooShort | Taken(field: seq<byte>, rest: seq<byte>)

  /** A length-prefixed field at the front of a byte string. */
  function TakeField(bs: seq<byte>): Taken {
    if |bs| < 2 then TooShort
    else
      var n := Join(bs[0], bs[1]);
      if |bs| < 2 + n then TooShort else Taken(bs[2..2 + n], bs[2 + n..])
  }

  lemma FieldLength(bs: seq<byte>)
    ensures |Field(bs)| <= 2 + |bs|
    ensures |Field(bs)| == 2 + |bs| <==> |bs| <= MAX_FIELD
  {
  }

  /** Reading a field inverts writing it, up to 65535 bytes. */
  lemma TakeFieldInverts(bs: seq<byte>, rest: seq<byte>)
    requires |bs| <= MAX_FIELD
    ensures TakeField(Field(bs) + rest) == Taken(bs, rest)
  {
    var all := Field(bs) + rest;
    assert Join(all[0], all[1]) == |bs|;
    assert all[2..2 + |bs|] == bs && all[2 + |bs|..] == rest;
  }
}
