/**
 From the engine to the peer: the bytes of every packet of the QoS flows, and what a peer that follows
 MQTT 3.1.1 reads from them.
 */
module Frames {
  import opened Builders
  import opened Engine
  import opened Mqtt
  import opened PacketBuffer
  import opened PacketQueue
  import opened PublishPipeline
  import PacketReader

  // ---- Reading, after sections 3.3 to 3.10 of MQTT 3.1.1 ------------------------------------------------

  /** Exactly an id. */
  function ReadMid(body: seq<byte>): Option<uint16> {
    if |body| == 2 then Some(Join(body[0], body[1])) else None
  }

  function ReadPublish(command: byte, body: seq<byte>): Option<Packet> {
    match DecodePublish(command, body)
    case Rejected => None
    case Message(dup, qos, retain, topic, mid, payload) =>
      Some(Publish(0, mid, qos, dup, AppMessage(topic, payload, retain)))
  }

  /** An id, one filter and its requested QoS. */
  function ReadSubscribe(body: seq<byte>): Option<Packet> {
    if |body| < 2 then None
    else
      match TakeField(body[2..])
      case TooShort => None
      case Taken(filter, rest) =>
        if |rest| == 1 then Some(Subscribe(Join(body[0], body[1]), filter, rest[0])) else None
  }

  /** An id and one filter. */
  function ReadUnsubscribe(body: seq<byte>): Option<Packet> {
    if |body| < 2 then None
    else
      match TakeField(body[2..])
      case TooShort => None
      case Taken(filter, rest) =>
        if rest == [] then Some(Unsubscribe(Join(body[0], body[1]), filter)) else None
  }

  /** A packet with its type in the upper four bits and the flags that section 2.2.2 asks for in the others. */
  function Read(command: byte, body: seq<byte>): Option<Packet> {
    if command / 16 == 3 then ReadPublish(command, body)
    else if command == 0x82 then ReadSubscribe(body)
    else if command == 0xA2 then ReadUnsubscribe(body)
    else if command !in {0x40, 0x50, 0x62, 0x70} then None
    else
      match ReadMid(body)
      case None => None
      case Some(mid) =>
        Some(if command == 0x40 then Puback(mid)
             else if command == 0x50 then Pubrec(mid)
             else if command == 0x62 then Pubrel(0, mid, 2)
             else Pubcomp(mid))
  }

  // ---- Sending -------------------------------------------------------------------------------------------

  /** What the client sends: lengths fit, topics are C strings, and PUBRELs have their flag. */
  predicate Sound(p: Packet) {
    match p
    case Publish(_, _, _, _, _) => Publishable(RequestOf(p))
    case Pubrel(_, _, flags) => flags == 2
    case Subscribe(_, filter, _) => |filter| <= MAX_FIELD
    case Unsubscribe(_, filter) => |filter| <= MAX_FIELD
    case _ => true
  }

  function RequestOf(p: Packet): PublishPipeline.Request
    requires p.Publish?
  {
    PublishPipeline.Request(p.mid, p.app.topic, p.app.payload, p.qos, p.app.retain, p.dup)
  }

  /** What is on the wire of a packet: no serial, and no id at QoS 0. */
  function OnWire(p: Packet): Packet {
    match p
    case Publish(_, mid, qos, dup, app) => Publish(0, if qos > 0 then mid else 0, qos, dup, app)
    case Pubrel(_, mid, flags) => Pubrel(0, mid, flags)
    case _ => p
  }

  /** The packet has been built from `p`: a peer that is handed its frame reads `p`. */
  ghost predicate Carries(q: Pkt, p: Packet) {
    && (exists r :: PacketReader.IsFrameOf(q, r) && Read(r.command, r.body) == Some(OnWire(p)))
    && !IsDisconnect(q) && (IsQos0(q) <==> p.Publish? && p.qos == 0) && (p.Publish? ==> q.mid == p.mid)
  }

  lemma SubscribeReads(mid: uint16, filter: seq<byte>, wanted: byte)
    requires |filter| <= MAX_FIELD
    ensures ReadSubscribe(SubscribeBody(mid, filter, wanted)) == Some(Subscribe(mid, filter, wanted))
    ensures ReadUnsubscribe(UnsubscribeBody(mid, filter)) == Some(Unsubscribe(mid, filter))
  {
    hide TakeField, Field;
    TakeFieldInverts(filter, [wanted]);
    TakeFieldInverts(filter, []);
    assert SubscribeBody(mid, filter, wanted)[2..] == Field(filter) + [wanted];
    assert UnsubscribeBody(mid, filter)[2..] == Field(filter) + [];
  }

  lemma PublishReads(p: Packet)
    requires p.Publish? && Sound(p)
    ensures var r := PublishPipeline.Received(RequestOf(p)); Read(r.command, r.body) == Some(OnWire(p))
    ensures HighNibble(PublishCommand(p.qos, p.app.retain, p.dup)) == PUBLISH
    ensures PublishCommand(p.qos, p.app.retain, p.dup) / 2 % 4 == p.qos
  {
    ArrivesAs(RequestOf(p));
    CommandFields(p.qos, p.app.retain, p.dup);
  }

  /** The bytes of a built packet are a frame. */
  lemma BuiltFrame(q: Pkt, command: byte, body: seq<byte>, p: Packet)
    requires q.command == command && q.bytes == Frame(command, body) && |body| < REMAINING_LIMIT
    requires Read(command, body) == Some(OnWire(p)) && !p.Publish? && command / 16 !in {3, 14}
    ensures Carries(q, p)
  {
    assert PacketReader.IsFrameOf(q, PacketReader.Received(command, body));
  }

  method SendSubscribe(p: Packet) returns (rc: Rc, q: Pkt)
    requires p.Subscribe? && Sound(p)
    ensures rc == Success && Carries(q, p)
  {
    var packet;
    SubscribeFills(p.mid, p.filter, p.wanted);
    SubscribeReads(p.mid, p.filter, p.wanted);
    hide Carries, SubscribeBody;
    rc, packet := BuildSubscribe(p.mid, p.filter, p.wanted);
    q := Pkt(packet.command, 0, packet.payload[..]);
    BuiltFrame(q, 0x82, SubscribeBody(p.mid, p.filter, p.wanted), p);
  }

  method SendUnsubscribe(p: Packet) returns (rc: Rc, q: Pkt)
    requires p.Unsubscribe? && Sound(p)
    ensures rc == Success && Carries(q, p)
  {
    var packet;
    SubscribeFills(p.mid, p.filter, 0);
    SubscribeReads(p.mid, p.filter, 0);
    hide Carries, UnsubscribeBody;
    rc, packet := BuildUnsubscribe(p.mid, p.filter);
    q := Pkt(packet.command, 0, packet.payload[..]);
    BuiltFrame(q, 0xA2, UnsubscribeBody(p.mid, p.filter), p);
  }

  /** `_mosquitto_send_puback`, `_mosquitto_send_pubrec`, `_mosquitto_send_pubrel` and `_mosquitto_send_pubcomp`. */
  method SendAck(p: Packet) returns (rc: Rc, q: Pkt)
    requires (p.Puback? || p.Pubrec? || p.Pubrel? || p.Pubcomp?) && Sound(p)
    ensures rc == Success && Carries(q, p)
  {
    var command: byte := if p.Puback? then 0x40 else if p.Pubrec? then 0x50 else if p.Pubrel? then 0x62 else 0x70;
    var packet;
    rc, packet := BuildCommandWithMid(command, p.mid, false);
    q := Pkt(packet.command, 0, packet.payload[..]);
    var body := q.bytes[2..];
    assert q.bytes == Frame(command, body);
    BuiltFrame(q, command, body, p);
  }

  method SendPublishPacket(p: Packet) returns (rc: Rc, q: Pkt)
    requires p.Publish? && Sound(p)
    ensures rc == Success && Carries(q, p)
  {
    PublishReads(p);
    hide Read, Sound, DecodePublish;
    rc, q := SendRealPublish(RequestOf(p));
  }

  /** Every packet that the engine sends can be built; the peer reads it back from its frame. */
  method SendPacket(p: Packet) returns (rc: Rc, q: Pkt)
    requires Sound(p)
    ensures rc == Success && Carries(q, p)
  {
    hide Carries;
    if p.Publish? {
      rc, q := SendPublishPacket(p);
    } else if p.Subscribe? {
      rc, q := SendSubscribe(p);
    } else if p.Unsubscribe? {
      rc, q := SendUnsubscribe(p);
    } else {
      rc, q := SendAck(p);
    }
  }

  // ---- From queue to peer ----------------------------------------------------------------------------------

  function ReadAll(rs: seq<PacketReader.Received>): (ps: seq<Option<Packet>>)
    ensures |ps| == |rs| && forall i :: 0 <= i < |rs| ==> ps[i] == Read(rs[i].command, rs[i].body)
  {
    seq(|rs|, i requires 0 <= i < |rs| => Read(rs[i].command, rs[i].body))
  }

  ghost predicate CarryAll(qs: seq<Pkt>, ps: seq<Packet>) {
    |qs| == |ps| && forall i :: 0 <= i < |qs| ==> Carries(qs[i], ps[i])
  }

  /** The ids of the QoS 0 PUBLISHes. */
  function UnackedIds(ps: seq<Packet>): seq<uint16> {
    if ps == [] then []
    else (if ps[0].Publish? && ps[0].qos == 0 then [ps[0].mid] else []) + UnackedIds(ps[1..])
  }

  lemma {:induction false} IdsCarried(qs: seq<Pkt>, ps: seq<Packet>)
    requires CarryAll(qs, ps)
    ensures Qos0Ids(qs) == UnackedIds(ps)
  {
    if qs != [] {
      assert Carries(qs[0], ps[0]);
      hide Read, IsQos0, IsDisconnect;
      IdsCarried(qs[1..], ps[1..]);
    }
  }

  lemma {:induction false} TheirFrames(qs: seq<Pkt>, ps: seq<Packet>) returns (rs: seq<PacketReader.Received>)
    requires CarryAll(qs, ps)
    ensures |rs| == |qs|
    ensures forall i :: 0 <= i < |qs| ==>
              PacketReader.IsFrameOf(qs[i], rs[i]) && Read(rs[i].command, rs[i].body) == Some(OnWire(ps[i]))
  {
    rs := [];
    if qs != [] {
      assert Carries(qs[0], ps[0]);
      var r :| PacketReader.IsFrameOf(qs[0], r) && Read(r.command, r.body) == Some(OnWire(ps[0]));
      hide Carries, Read, OnWire, PacketReader.IsFrameOf;
      assert CarryAll(qs[1..], ps[1..]);
      var more := TheirFrames(qs[1..], ps[1..]);
      rs := [r] + more;
    }
  }

  /**
   However the bytes are split by partial writes, the peer reads a prefix of the packets sent, in order; and
   once the queue has been written, all of them, and on_publish has been called for each QoS 0 message once.
   */
  lemma PacketsArrive(o: Out, ops: seq<Op>, t: Out, ps: seq<Packet>)
    requires o == Out(None, 0, [], true, [], []) && PacketQueue.Run(o, ops, t) && CarryAll(Enqueued(ops), ps)
    ensures var got := ReadAll(PacketReader.Parse(t.wire).packets);
            && |got| <= |ps| && (forall i :: 0 <= i < |got| ==> got[i] == Some(OnWire(ps[i])))
            && (t.cur.None? && t.queue == [] ==> |got| == |ps| && t.published == UnackedIds(ps))
  {
    hide Read, OnWire, PacketReader.IsFrameOf, PacketReader.Parse, PacketQueue.Run, Carries;
    var rs := TheirFrames(Enqueued(ops), ps);
    PacketReader.WireCarriesPackets(o, ops, t, rs);
    if t.cur.None? && t.queue == [] {
      Reported(o, ops, t, ps);
    }
  }

  lemma Reported(o: Out, ops: seq<Op>, t: Out, ps: seq<Packet>)
    requires o == Out(None, 0, [], true, [], []) && PacketQueue.Run(o, ops, t) && CarryAll(Enqueued(ops), ps)
    requires t.cur.None? && t.queue == []
    ensures t.published == UnackedIds(ps)
  {
    hide Carries, PacketQueue.Run;
    var all := Enqueued(ops);
    StreamIsConserved(o, ops, t);
    var k: nat :| PacketQueue.Inv(t, all, k);
    assert all[k..] == [];
    assert all[..k] == all;
    IdsCarried(all, ps);
  }
}
