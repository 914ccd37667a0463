/**
 From a publish to the peer's application: builder, packet queue, partial writes, stream parser and
 PUBLISH parser.
 */
module PublishPipeline {
  import opened Builders
  import opened Mqtt
  import opened PacketQueue
  import PacketReader

  /** What one call of `_mosquitto_send_real_publish` is given. */
  datatype Request = Request(mid: uint16, topic: seq<byte>, payload: seq<byte>, qos: Qos, retain: bool, dup: bool)

  /** The topic is a C string that fits its length prefix, and the packet length can be encoded. */
  predicate Publishable(m: Request) {
    && 0 < |m.topic| <= MAX_FIELD && 0 !in m.topic
    && 2 + |m.topic| + |m.payload| + (if m.qos > 0 then 2 else 0) < REMAINING_LIMIT
  }

  function Received(m: Request): PacketReader.Received {
    PacketReader.Received(PublishCommand(m.qos, m.retain, m.dup), PublishBody(m.mid, m.topic, m.payload, m.qos))
  }

  function Meaning(m: Request): Decoded {
    Message(m.dup, m.qos, m.retain, m.topic, if m.qos > 0 then m.mid else 0, m.payload)
  }

  /** `_mosquitto_send_real_publish`: the packet it hands to the queue. */
  method SendRealPublish(m: Request) returns (rc: Rc, p: Pkt)
    requires Publishable(m)
    ensures rc == Success && PacketReader.IsFrameOf(p, Received(m)) && p.mid == m.mid
  {
    var packet;
    PublishFills(m.mid, m.topic, m.payload, m.qos);
    rc, packet := BuildPublish(m.mid, m.topic, m.payload, m.qos, m.retain, m.dup);
    p := Pkt(packet.command, m.mid, packet.payload[..]);
  }

  function DecodeAll(ps: seq<PacketReader.Received>): (ds: seq<Decoded>)
    ensures |ds| == |ps| && forall i :: 0 <= i < |ps| ==> ds[i] == DecodePublish(ps[i].command, ps[i].body)
  {
    seq(|ps|, i requires 0 <= i < |ps| => DecodePublish(ps[i].command, ps[i].body))
  }

  /**
   However the bytes are split by partial writes, the peer reads a prefix of the messages published, in
   order and with nothing changed; and all of them once the queue has been written.
   */
  lemma PublishesArrive(o: Out, ops: seq<Op>, t: Out, ms: seq<Request>)
    requires o == Out(None, 0, [], true, [], []) && PacketQueue.Run(o, ops, t) && |ms| == |Enqueued(ops)|
    requires forall i :: 0 <= i < |ms| ==>
               Publishable(ms[i]) && PacketReader.IsFrameOf(Enqueued(ops)[i], Received(ms[i]))
    ensures var ds := DecodeAll(PacketReader.Parse(t.wire).packets);
            && |ds| <= |ms| && (forall i :: 0 <= i < |ds| ==> ds[i] == Meaning(ms[i]))
            && (t.cur.None? && t.queue == [] ==> |ds| == |ms|)
  {
    hide PacketReader.IsFrameOf, PacketReader.Parse, DecodePublish, PublishBody, PublishCommand, PacketQueue.Run,
         Publishable;
    var rs := seq(|ms|, i requires 0 <= i < |ms| => Received(ms[i]));
    PacketReader.WireCarriesPackets(o, ops, t, rs);
    forall i | 0 <= i < |ms| ensures DecodePublish(rs[i].command, rs[i].body) == Meaning(ms[i]) {
      ArrivesAs(ms[i]);
    }
  }

  lemma ArrivesAs(m: Request)
    requires Publishable(m)
    ensures DecodePublish(Received(m).command, Received(m).body) == Meaning(m)
  {
    PublishRoundTrip(m.mid, m.topic, m.payload, m.qos, m.retain, m.dup);
  }
}
