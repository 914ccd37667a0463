/** The packets the client writes, and the parsing of a received PUBLISH. */
module Builders {
  import opened Mqtt
  import opened PacketBuffer
  import opened RemainingLength

  // ---- PUBLISH ---------------------------------------------------------------------------------

  function Bit(b: bool): nat {
    if b then 1 else 0
  }

  function PublishCommand(qos: Qos, retain: bool, dup: bool): byte {
    PUBLISH + 8 * Bit(dup) + 2 * qos + Bit(retain)
  }

  function PublishBody(mid: uint16, topic: seq<byte>, payload: seq<byte>, qos: Qos): seq<byte> {
    Field(topic) + (if qos > 0 then Word(mid) else []) + payload
  }

  /** `_mosquitto_send_real_publish`, up to handing the packet to the queue. */
  method BuildPublish(mid: uint16, topic: seq<byte>, payload: seq<byte>, qos: Qos, retain: bool, dup: bool)
    returns (rc: Rc, packet: Buffer)
    ensures fresh(packet)
    ensures var n := 2 + |topic| + |payload| + (if qos > 0 then 2 else 0);
            && rc == (if n < REMAINING_LIMIT then Success else PayloadSize)
            && (rc == Success ==>
                  && packet.Building() && packet.packetLength == 1 + |Digits(n)| + n
                  && packet.command == PublishCommand(qos, retain, dup)
                  && packet.Written()
                     == [PublishCommand(qos, retain, dup)] + Digits(n) + PublishBody(mid, topic, payload, qos))
  {
    var packetlen := 2 + |topic| + |payload|;
    if qos > 0 {
      packetlen := packetlen + 2;
    }
    packet := new Buffer(PublishCommand(qos, retain, dup), packetlen);
    rc := packet.Alloc();
    if rc != Success {
      return;
    }
    hide PublishBody;
    WritePublish(packet, mid, topic, payload, qos);
  }

  /** The writing part of `_mosquitto_send_real_publish`. */
  method WritePublish(packet: Buffer, mid: uint16, topic: seq<byte>, payload: seq<byte>, qos: Qos)
    requires packet.Building()
    requires packet.pos + 2 + |topic| + |payload| + (if qos > 0 then 2 else 0) <= packet.packetLength
    modifies packet`pos, packet.payload
    ensures packet.Building() && packet.Written() == old(packet.Written()) + PublishBody(mid, topic, payload, qos)
  {
    packet.WriteString(topic);
    if qos > 0 {
      packet.WriteUint16(mid);
    }
    if |payload| > 0 {
      packet.WriteBytes(payload);
    }
  }

  /** The builder fills the packet it has allocated exactly if the topic fits its length prefix. */
  lemma PublishFills(mid: uint16, topic: seq<byte>, payload: seq<byte>, qos: Qos)
    ensures |PublishBody(mid, topic, payload, qos)| == 2 + |topic| + |payload| + (if qos > 0 then 2 else 0)
      <==> |topic| <= MAX_FIELD
  {
  }

  /** A C string ends at its first NUL. */
  function CString(bs: seq<byte>): seq<byte> {
    if bs == [] || bs[0] == 0 then [] else [bs[0]] + CString(bs[1..])
  }

  lemma {:induction false} CStringWhole(bs: seq<byte>)
    requires 0 !in bs
    ensures CString(bs) == bs
  {
    if bs != [] {
      assert bs[0] in bs && forall b :: b in bs[1..] ==> b in bs;
      CStringWhole(bs[1..]);
    }
  }

  datatype Decoded =
    | Rejected
    | Message(dup: bool, qos: Qos, retain: bool, topic: seq<byte>, mid: uint16, payload: seq<byte>)

  /** What a received PUBLISH means: section 3.3 of MQTT 3.1.1, with the topic cut at a NUL. */
  function DecodePublish(command: byte, body: seq<byte>): Decoded {
    var qos := command / 2 % 4;
    var t := TakeField(body);
    if t.TooShort? || CString(t.field) == [] || (qos > 0 && |t.rest| < 2) || qos == 3 then Rejected
    else if qos == 0 then Message(command / 8 % 2 == 1, qos, command % 2 == 1, CString(t.field), 0, t.rest)
    else Message(command / 8 % 2 == 1, qos, command % 2 == 1, CString(t.field), Join(t.rest[0], t.rest[1]), t.rest[2..])
  }

  /** The parsing part of `_mosquitto_handle_publish`. */
  method ParsePublish(packet: Buffer) returns (d: Decoded)
    requires packet.Reading() && packet.pos == 0
    modifies packet`pos
    ensures d == DecodePublish(packet.command, packet.payload[..])
  {
    ghost var body := packet.payload[..];
    assert packet.Rest() == body;
    hide CString, TakeField, Join;
    var header := packet.command;
    var dup, qos, retain := header / 8 % 2 == 1, header / 2 % 4, header % 2 == 1;
    var rc, topic := packet.ReadString();
    if rc != Success {
      return Rejected;
    }
    topic := CString(topic);
    if topic == [] {
      return Rejected;
    }
    var mid, payload;
    rc, mid, payload := ParseTail(packet, qos > 0);
    if rc != Success || qos == 3 {
      return Rejected;
    }
    d := Message(dup, qos, retain, topic, mid, payload);
  }

  /** The part after the topic: an id above QoS 0, and the payload. */
  method ParseTail(packet: Buffer, hasMid: bool) returns (rc: Rc, mid: uint16, payload: seq<byte>)
    requires packet.Reading()
    modifies packet`pos
    ensures var rest := old(packet.Rest());
            && (rc == Success <==> !hasMid || |rest| >= 2)
            && (rc == Success ==>
                  if hasMid then mid == Join(rest[0], rest[1]) && payload == rest[2..] else mid == 0 && payload == rest)
  {
    rc, mid, payload := Success, 0, [];
    if hasMid {
      rc, mid := packet.ReadUint16();
      if rc != Success {
        return;
      }
    }
    var payloadlen := packet.remainingLength - packet.pos;
    if payloadlen > 0 {
      rc, payload := packet.ReadBytes(payloadlen);
    }
  }

  lemma CommandFields(qos: Qos, retain: bool, dup: bool)
    ensures var b := PublishCommand(qos, retain, dup);
            b / 8 % 2 == Bit(dup) && b / 2 % 4 == qos && b % 2 == Bit(retain) && HighNibble(b) == PUBLISH
  {
  }

  /** Decoding inverts building, for every topic that is a C string of 1 to 65535 bytes. */
  lemma PublishRoundTrip(mid: uint16, topic: seq<byte>, payload: seq<byte>, qos: Qos, retain: bool, dup: bool)
    requires 0 < |topic| <= MAX_FIELD && 0 !in topic
    ensures DecodePublish(PublishCommand(qos, retain, dup), PublishBody(mid, topic, payload, qos))
         == Message(dup, qos, retain, topic, if qos > 0 then mid else 0, payload)
  {
    var rest := (if qos > 0 then Word(mid) else []) + payload;
    CommandFields(qos, retain, dup);
    hide PublishCommand;
    assert PublishBody(mid, topic, payload, qos) == Field(topic) + rest;
    TakeFieldInverts(topic, rest);
    CStringWhole(topic);
    assert qos > 0 ==> Join(rest[0], rest[1]) == mid && rest[2..] == payload;
  }

  // ---- SUBSCRIBE, UNSUBSCRIBE and the two-byte packets ---------------------------------------------

  function SubscribeBody(mid: uint16, topic: seq<byte>, qos: byte): seq<byte> {
    Word(mid) + Field(topic) + [qos]
  }

  /** `_mosquitto_send_subscribe`. */
  method BuildSubscribe(mid: uint16, topic: seq<byte>, qos: byte) returns (rc: Rc, packet: Buffer)
    ensures fresh(packet)
    ensures var n := 5 + |topic|;
            && rc == (if n < REMAINING_LIMIT then Success else PayloadSize)
            && (rc == Success ==>
                  && packet.Building() && packet.packetLength == 1 + |Digits(n)| + n
                  && packet.command == SUBSCRIBE + 2
                  && packet.Written() == [SUBSCRIBE + 2] + Digits(n) + SubscribeBody(mid, topic, qos))
  {
    packet := new Buffer(SUBSCRIBE + 2, 2 + 2 + |topic| + 1);
    rc := packet.Alloc();
    if rc != Success {
      return;
    }
    packet.WriteUint16(mid);
    packet.WriteString(topic);
    packet.WriteByte(qos);
  }

  function UnsubscribeBody(mid: uint16, topic: seq<byte>): seq<byte> {
    Word(mid) + Field(topic)
  }

  /** `_mosquitto_send_unsubscribe`. */
  method BuildUnsubscribe(mid: uint16, topic: seq<byte>) returns (rc: Rc, packet: Buffer)
    ensures fresh(packet)
    ensures var n := 4 + |topic|;
            && rc == (if n < REMAINING_LIMIT then Success else PayloadSize)
            && (rc == Success ==>
                  && packet.Building() && packet.packetLength == 1 + |Digits(n)| + n
                  && packet.command == UNSUBSCRIBE + 2
                  && packet.Written() == [UNSUBSCRIBE + 2] + Digits(n) + UnsubscribeBody(mid, topic))
  {
    packet := new Buffer(UNSUBSCRIBE + 2, 2 + 2 + |topic|);
    rc := packet.Alloc();
    if rc != Success {
      return;
    }
    packet.WriteUint16(mid);
    packet.WriteString(topic);
  }

  /** Both builders fill their packets exactly if the filter fits its length prefix. */
  lemma SubscribeFills(mid: uint16, topic: seq<byte>, qos: byte)
    ensures |SubscribeBody(mid, topic, qos)| == 5 + |topic| <==> |topic| <= MAX_FIELD
    ensures |UnsubscribeBody(mid, topic)| == 4 + |topic| <==> |topic| <= MAX_FIELD
  {
  }

  /**
   `_mosquitto_send_command_with_mid`, up to handing the packet to the queue: two bytes of header and the
   id. With `dup`, bit 3 of the command is set.
   */
  method BuildCommandWithMid(command: byte, mid: uint16, dup: bool) returns (rc: Rc, packet: Buffer)
    ensures fresh(packet) && rc == Success && packet.Building() && packet.packetLength == 4
    ensures var bs := packet.Written();
            && |bs| == 4 && bs[1] == 2 && Join(bs[2], bs[3]) == mid && bs[0] == packet.command
            && bs[0] == command + (if dup && command / 8 % 2 == 0 then 8 else 0)
  {
    packet := new Buffer(if dup && command / 8 % 2 == 0 then command + 8 else command, 2);
    rc := packet.Alloc();
    packet.payload[packet.pos] := mid / 256;
    packet.payload[packet.pos + 1] := mid % 256;
    packet.pos := packet.pos + 2;
  }

  /** `_mosquitto_send_simple_command`, up to handing the packet to the queue. */
  method BuildSimpleCommand(command: byte) returns (rc: Rc, packet: Buffer)
    ensures fresh(packet) && rc == Success && packet.Building() && packet.command == command
    ensures packet.packetLength == 2 && packet.Written() == [command, 0]
  {
    packet := new Buffer(command, 0);
    rc := packet.Alloc();
  }

  // ---- CONNECT ---------------------------------------------------------------------------------

  datatype Will = Will(topic: seq<byte>, payload: seq<byte>, qos: nat, retain: bool)

  datatype Connect = Connect(mqtt311: bool, clean: bool, keepalive: uint16, id: seq<byte>,
                             will: Option<Will>, username: Option<seq<byte>>, password: Option<seq<byte>>)

  const NAME_V31: seq<byte> := [0x4D, 0x51, 0x49, 0x73, 0x64, 0x70]  // MQIsdp
  const NAME_V311: seq<byte> := [0x4D, 0x51, 0x54, 0x54]             // MQTT

  function ConnectFlags(c: Connect): byte {
    2 * Bit(c.clean)
    + (if c.will.Some? then 4 + 8 * (c.will.value.qos % 4) + 32 * Bit(c.will.value.retain) else 0)
    + (if c.username.Some? then 128 + 64 * Bit(c.password.Some?) else 0)
  }

  function OptField(f: Option<seq<byte>>): seq<byte> {
    if f.Some? then Field(f.value) else []
  }

  function WillFields(c: Connect): seq<byte> {
    if c.will.Some? then Field(c.will.value.topic) + Field(c.will.value.payload) else []
  }

  function Credentials(c: Connect): seq<byte> {
    OptField(c.username) + (if c.username.Some? then OptField(c.password) else [])
  }

  function ConnectHeader(c: Connect): seq<byte> {
    Field(if c.mqtt311 then NAME_V311 else NAME_V31)
    + [if c.mqtt311 then 4 else 3, ConnectFlags(c)] + Word(c.keepalive)
  }

  function ConnectBody(c: Connect): seq<byte> {
    ConnectHeader(c) + Field(c.id) + WillFields(c) + Credentials(c)
  }

  function OptLength(f: Option<seq<byte>>): nat {
    if f.Some? then 2 + |f.value| else 0
  }

  function WillLength(c: Connect): nat {
    if c.will.Some? then 2 + |c.will.value.topic| + 2 + |c.will.value.payload| else 0
  }

  function CredentialsLength(c: Connect): nat {
    OptLength(c.username) + (if c.username.Some? then OptLength(c.password) else 0)
  }

  /** The length `_mosquitto_send_connect` computes before writing. */
  function ConnectLength(c: Connect): nat {
    (if c.mqtt311 then 10 else 12) + 2 + |c.id| + WillLength(c) + CredentialsLength(c)
  }

  method WriteHeader(packet: Buffer, c: Connect)
    requires packet.Building() && packet.pos + (if c.mqtt311 then 10 else 12) <= packet.packetLength
    modifies packet`pos, packet.payload
    ensures packet.Building() && packet.Written() == old(packet.Written()) + ConnectHeader(c)
  {
    packet.WriteString(if c.mqtt311 then NAME_V311 else NAME_V31);
    packet.WriteByte(if c.mqtt311 then 4 else 3);
    packet.WriteByte(ConnectFlags(c));
    packet.WriteUint16(c.keepalive);
  }

  method WriteWill(packet: Buffer, c: Connect)
    requires packet.Building() && packet.pos + WillLength(c) <= packet.packetLength
    modifies packet`pos, packet.payload
    ensures packet.Building() && packet.Written() == old(packet.Written()) + WillFields(c)
  {
    if c.will.Some? {
      packet.WriteString(c.will.value.topic);
      packet.WriteString(c.will.value.payload);
    }
  }

  method WriteCredentials(packet: Buffer, c: Connect)
    requires packet.Building() && packet.pos + CredentialsLength(c) <= packet.packetLength
    modifies packet`pos, packet.payload
    ensures packet.Building() && packet.Written() == old(packet.Written()) + Credentials(c)
  {
    if c.username.Some? {
      packet.WriteString(c.username.value);
      if c.password.Some? {
        packet.WriteString(c.password.value);
      }
    }
  }

  /**
   The part of `_mosquitto_send_connect` that computes the length before anything is written. It is never
   too small for what is written, and too large exactly if a field does not fit its length prefix.
   */
  method PlanConnect(c: Connect) returns (n: nat)
    ensures n == ConnectLength(c) >= |ConnectBody(c)|
    ensures n == |ConnectBody(c)| <==> FieldsFit(c)
  {
    ConnectFills(c);
    hide ConnectBody, FieldsFit;
    var headerlen := if c.mqtt311 then 10 else 12;
    var payloadlen := 2 + |c.id|;
    if c.will.Some? {
      payloadlen := payloadlen + 2 + |c.will.value.topic| + 2 + |c.will.value.payload|;
    }
    if c.username.Some? {
      payloadlen := payloadlen + 2 + |c.username.value|;
      if c.password.Some? {
        payloadlen := payloadlen + 2 + |c.password.value|;
      }
    }
    n := headerlen + payloadlen;
  }

  /** No part of the packet is longer than planned, so no write leaves the buffer. */
  lemma PartsAreBounded(c: Connect)
    ensures |ConnectHeader(c)| == if c.mqtt311 then 10 else 12
    ensures |Field(c.id)| <= 2 + |c.id| && |WillFields(c)| <= WillLength(c) && |Credentials(c)| <= CredentialsLength(c)
  {
  }

  lemma Regroup(w: seq<byte>, a: seq<byte>, b: seq<byte>, c: seq<byte>, d: seq<byte>)
    ensures w + a + b + c + d == w + (a + b + c + d)
  {
  }

  /** The writing part of `_mosquitto_send_connect`. */
  method WriteConnect(packet: Buffer, c: Connect)
    requires packet.Building() && packet.pos + ConnectLength(c) <= packet.packetLength
    modifies packet`pos, packet.payload
    ensures packet.Building() && packet.Written() == old(packet.Written()) + ConnectBody(c)
  {
    PartsAreBounded(c);
    hide ConnectHeader, WillFields, Credentials, Field;
    ghost var before := packet.Written();
    WriteHeader(packet, c);
    packet.WriteString(c.id);
    WriteWill(packet, c);
    WriteCredentials(packet, c);
    Regroup(before, ConnectHeader(c), Field(c.id), WillFields(c), Credentials(c));
  }

  /** `_mosquitto_send_connect`, up to handing the packet to the queue. */
  method BuildConnect(c: Connect) returns (rc: Rc, packet: Buffer)
    ensures fresh(packet)
    ensures var n := ConnectLength(c);
            && rc == (if n < REMAINING_LIMIT then Success else PayloadSize)
            && (rc == Success ==>
                  && packet.Building() && packet.packetLength == 1 + |Digits(n)| + n
                  && packet.Written() == [0x10] + Digits(n) + ConnectBody(c))
  {
    var n := PlanConnect(c);
    packet := new Buffer(CONNECT, n);
    rc := packet.Alloc();
    if rc != Success {
      return;
    }
    hide ConnectBody, ConnectLength;
    WriteConnect(packet, c);
  }

  predicate OptFits(f: Option<seq<byte>>) {
    f.Some? ==> |f.value| <= MAX_FIELD
  }

  /** Every length-prefixed field of the packet is at most 65535 bytes long. */
  predicate FieldsFit(c: Connect) {
    && |c.id| <= MAX_FIELD
    && (c.will.Some? ==> |c.will.value.topic| <= MAX_FIELD && |c.will.value.payload| <= MAX_FIELD)
    && OptFits(c.username) && (c.username.Some? ==> OptFits(c.password))
  }

  /** The builder fills the packet it has allocated exactly if every field fits its length prefix. */
  lemma ConnectFills(c: Connect)
    ensures |ConnectBody(c)| <= ConnectLength(c)
    ensures |ConnectBody(c)| == ConnectLength(c) <==> FieldsFit(c)
  {
    PartsAreBounded(c);
    FieldLength(c.id);
    CredentialsFill(c);
    WillFills(c);
    hide ConnectHeader, WillFields, Credentials, Field;
  }

  lemma WillFills(c: Connect)
    ensures |WillFields(c)| == WillLength(c)
      <==> (c.will.Some? ==> |c.will.value.topic| <= MAX_FIELD && |c.will.value.payload| <= MAX_FIELD)
  {
  }

  lemma CredentialsFill(c: Connect)
    ensures |Credentials(c)| == CredentialsLength(c)
      <==> OptFits(c.username) && (c.username.Some? ==> OptFits(c.password))
  {
  }

  // ---- Parsing a CONNECT, after section 3.1 of MQTT 3.1.1 --------------------------------------------

  /** A field that is present only if its flag is set. `None` on the outside means a malformed packet. */
  function TakeOptional(present: bool, bs: seq<byte>): Option<(Option<seq<byte>>, seq<byte>)> {
    if !present then Some((None, bs))
    else
      match TakeField(bs)
      case TooShort => None
      case Taken(f, rest) => Some((Some(f), rest))
  }

  function ParseCredentials(flags: byte, bs: seq<byte>): Option<(Option<seq<byte>>, Option<seq<byte>>)> {
    match TakeOptional(flags / 128 == 1, bs)
    case None => None
    case Some((user, rest)) =>
      match TakeOptional(flags / 64 % 2 == 1, rest)
      case None => None
      case Some((pass, end)) => if end == [] then Some((user, pass)) else None
  }

  function ParseWill(flags: byte, bs: seq<byte>): Option<(Option<Will>, seq<byte>)> {
    if flags / 4 % 2 == 0 then Some((None, bs))
    else
      match TakeField(bs)
      case TooShort => None
      case Taken(topic, rest) =>
        match TakeField(rest)
        case TooShort => None
        case Taken(payload, end) => Some((Some(Will(topic, payload, flags / 8 % 4, flags / 32 % 2 == 1)), end))
  }

  function ParseConnect(body: seq<byte>): Option<Connect> {
    match TakeField(body)
    case TooShort => None
    case Taken(name, h) =>
      if |h| < 4 || !((name == NAME_V311 && h[0] == 4) || (name == NAME_V31 && h[0] == 3)) then None
      else
        match TakeField(h[4..])
        case TooShort => None
        case Taken(id, rest) =>
          match ParseWill(h[1], rest)
          case None => None
          case Some((will, rest2)) =>
            match ParseCredentials(h[1], rest2)
            case None => None
            case Some((user, pass)) =>
              Some(Connect(h[0] == 4, h[1] / 2 % 2 == 1, Join(h[2], h[3]), id, will, user, pass))
  }

  /** The options as they go on the wire: a password needs a user name, a will has two QoS bits. */
  function Normal(c: Connect): Connect {
    c.(password := if c.username.Some? then c.password else None,
       will := if c.will.Some? then Some(c.will.value.(qos := c.will.value.qos % 4)) else None)
  }

  /** The bits of a flags byte, from its parts. */
  lemma FlagBits(clean: nat, will: nat, qos: nat, retain: nat, pass: nat, user: nat)
    requires clean <= 1 && will <= 1 && qos <= 3 && retain <= 1 && pass <= 1 && user <= 1
    ensures var b := 2 * clean + 4 * will + 8 * qos + 32 * retain + 64 * pass + 128 * user;
            && b / 128 == user && b / 64 % 2 == pass && b / 32 % 2 == retain && b / 8 % 4 == qos
            && b / 4 % 2 == will && b / 2 % 2 == clean
  {
    var b6 := pass + 2 * user;
    var b5 := retain + 2 * b6;
    var b3 := qos + 4 * b5;
    var b2 := will + 2 * b3;
    var b1 := clean + 2 * b2;
    var b := 2 * clean + 4 * will + 8 * qos + 32 * retain + 64 * pass + 128 * user;
    assert b == 2 * b1;
    assert b / 2 == b1 && b / 4 == b2 && b / 8 == b3 && b / 32 == b5 && b / 64 == b6;
  }

  lemma FlagFields(c: Connect)
    ensures var b := ConnectFlags(c);
            && (b / 128 == 1 <==> c.username.Some?)
            && (b / 64 % 2 == 1 <==> c.username.Some? && c.password.Some?)
            && (b / 4 % 2 == 0 <==> c.will.None?)
            && (c.will.Some? ==> b / 8 % 4 == c.will.value.qos % 4 && (b / 32 % 2 == 1 <==> c.will.value.retain))
            && (b / 2 % 2 == 1 <==> c.clean)
  {
    var user, pass := Bit(c.username.Some?), Bit(c.username.Some? && c.password.Some?);
    if c.will.Some? {
      FlagBits(Bit(c.clean), 1, c.will.value.qos % 4, Bit(c.will.value.retain), pass, user);
    } else {
      FlagBits(Bit(c.clean), 0, 0, 0, pass, user);
    }
  }

  lemma CredentialsRoundTrip(c: Connect)
    requires FieldsFit(c)
    ensures ParseCredentials(ConnectFlags(c), Credentials(c))
         == Some((c.username, Normal(c).password))
  {
    FlagFields(c);
    hide ConnectFlags, Field, TakeField;
    if c.username.Some? {
      TakeFieldInverts(c.username.value, OptField(c.password));
      if c.password.Some? {
        TakeFieldInverts(c.password.value, []);
        assert Field(c.password.value) + [] == Field(c.password.value);
      }
    }
  }

  lemma WillRoundTrip(c: Connect, rest: seq<byte>)
    requires FieldsFit(c)
    ensures ParseWill(ConnectFlags(c), WillFields(c) + rest) == Some((Normal(c).will, rest))
  {
    FlagFields(c);
    hide ConnectFlags, Field, TakeField;
    if c.will.Some? {
      var w := c.will.value;
      assert Field(w.topic) + Field(w.payload) + rest == Field(w.topic) + (Field(w.payload) + rest);
      TakeFieldInverts(w.topic, Field(w.payload) + rest);
      TakeFieldInverts(w.payload, rest);
    } else {
      assert [] + rest == rest;
    }
  }

  /**
   A section 3.1 parser recovers every CONNECT whose fields fit, for both protocol versions and all
   option combinations.
   */
  lemma ConnectRoundTrip(c: Connect)
    requires FieldsFit(c)
    ensures ParseConnect(ConnectBody(c)) == Some(Normal(c))
  {
    FlagFields(c);
    hide ConnectFlags, WillFields, Credentials, Field, TakeField, ParseWill, ParseCredentials, OptFits;
    var name := if c.mqtt311 then NAME_V311 else NAME_V31;
    var version: byte := if c.mqtt311 then 4 else 3;
    var tail := Field(c.id) + (WillFields(c) + Credentials(c));
    var h := [version, ConnectFlags(c)] + Word(c.keepalive) + tail;
    assert ConnectBody(c) == Field(name) + h;
    assert h[4..] == tail && Join(h[2], h[3]) == c.keepalive;
    TakeFieldInverts(name, h);
    TakeFieldInverts(c.id, WillFields(c) + Credentials(c));
    WillRoundTrip(c, Credentials(c));
    CredentialsRoundTrip(c);
  }
}
