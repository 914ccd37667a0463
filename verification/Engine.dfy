/**
 The QoS 1/2 engine of the client as functions on values.

 Each function is one entry point of the C client run to completion: a publish, one
 packet handled, one retry pass, one reconnect. The methods of module ClientLists run
 the same steps on linked lists and are proved equal to these functions; the theorems
 about whole runs are proved about these functions.
 */
module Engine {
  import opened Mqtt
  import Topics
  import MessageIds

  datatype AppMessage = AppMessage(topic: seq<byte>, payload: seq<byte>, retain: bool)

  /** The states of `mosquitto_msg_state` that the client ever assigns. */
  datatype MsgState = Invalid | WaitForPuback | WaitForPubrec | WaitForPubrel | WaitForPubcomp

  /**
   A `mosquitto_message_all`. `serial` numbers the publishes of a run; the C structure has no
   such field. It lets theorems tell two messages apart after their id has been reused.
   */
  datatype Msg = Msg(serial: nat, mid: uint16, qos: Qos, app: AppMessage,
                     state: MsgState, dup: bool, timestamp: int)

  /** What travels between client and broker. `serial` is not on the wire. */
  datatype Packet =
    | Publish(serial: nat, mid: uint16, qos: Qos, dup: bool, app: AppMessage)
    | Pubrel(serial: nat, mid: uint16, flags: byte)
    | Puback(mid: uint16)
    | Pubrec(mid: uint16)
    | Pubcomp(mid: uint16)
    | Subscribe(mid: uint16, filter: seq<byte>, wanted: byte)
    | Unsubscribe(mid: uint16, filter: seq<byte>)

  /** A call of `mosquitto_subscribe` or `mosquitto_unsubscribe`. */
  datatype Request = ToSubscribe(filter: cstring, qos: int) | ToUnsubscribe(filter: cstring)

  datatype Client = Client(
    max: nat,             // max_inflight_messages
    retry: nat,           // message_retry
    mqtt311: bool,        // protocol == mosq_p_mqtt311
    connected: bool,      // sock != INVALID_SOCKET
    lastMid: uint16,
    published: nat,       // publishes accepted so far: the next serial
    inflight: int,        // inflight_messages
    out: seq<Msg>,        // out_messages
    inq: seq<Msg>)        // in_messages

  /** Effect of one call: new state, packets sent, callbacks fired, return code. */
  datatype Outcome = Outcome(
    c: Client,
    sent: seq<Packet>,
    onPublish: seq<Msg>,  // messages whose id was passed to on_publish
    onMessage: seq<Msg>,  // messages passed to on_message
    rc: Rc)

  // ---- Helpers -------------------------------------------------------------------------

  predicate Room(max: nat, inflight: int) {
    max == 0 || inflight < max
  }

  /** Whether the packet length for this message can be encoded. */
  predicate Fits(app: AppMessage, qos: Qos) {
    2 + |app.topic| + (if qos > 0 then 2 else 0) + |app.payload| < REMAINING_LIMIT
  }

  /** State a message gets when it enters the in-flight window. */
  function FirstState(qos: Qos, otherwise: MsgState): MsgState {
    if qos == 1 then WaitForPuback else if qos == 2 then WaitForPubrec else otherwise
  }

  function ToPublish(m: Msg): Packet {
    Publish(m.serial, m.mid, m.qos, m.dup, m.app)
  }

  /** `_mosquitto_send_publish` in threaded mode: sending is queueing. */
  function SendPublish(connected: bool, m: Msg): (seq<Packet>, Rc) {
    if !connected then ([], NoConn)
    else if !Fits(m.app, m.qos) then ([], PayloadSize)
    else ([ToPublish(m)], Success)
  }

  /** Index of the first message with this id, or the length of the list. */
  function Find(ms: seq<Msg>, mid: uint16): (k: nat)
    ensures k <= |ms|
    ensures k < |ms| ==> ms[k].mid == mid
    ensures forall i :: 0 <= i < k ==> ms[i].mid != mid
  {
    if ms == [] then 0 else if ms[0].mid == mid then 0 else 1 + Find(ms[1..], mid)
  }

  // ---- Publishing ------------------------------------------------------------------------

  /** The end of `mosquitto_publish`: queue the message, and send it if there is room in the window. */
  function Enqueue(c: Client, m: Msg): Outcome {
    if Room(c.max, c.inflight) then
      var m1 := m.(state := FirstState(m.qos, Invalid));
      var (sent, rc) := SendPublish(c.connected, m1);
      Outcome(c.(out := c.out + [m1], inflight := c.inflight + 1), sent, [], [], rc)
    else Outcome(c.(out := c.out + [m]), [], [], [], Success)
  }

  /** `mosquitto_publish`. */
  function DoPublish(c: Client, app: AppMessage, qos: int, now: int): Outcome {
    if qos < 0 || qos > 2 || app.topic == [] then Outcome(c, [], [], [], Inval)
    else if |app.payload| > MQTT_MAX_PAYLOAD then Outcome(c, [], [], [], PayloadSize)
    else if !Topics.ValidTopic(app.topic) then Outcome(c, [], [], [], Inval)
    else
      var c1 := c.(lastMid := MessageIds.Next(c.lastMid), published := c.published + 1);
      var m := Msg(c.published, c1.lastMid, qos, app, Invalid, false, now);
      if qos == 0 then
        var (sent, rc) := SendPublish(c.connected, m);
        Outcome(c1, sent, [], [], rc)
      else Enqueue(c1, m)
  }

  // ---- Subscribing -----------------------------------------------------------------------

  /** The packet for a request; the requested QoS is cut to a byte. */
  function RequestPacket(r: Request, mid: uint16): Packet {
    match r
    case ToSubscribe(filter, qos) => Subscribe(mid, filter, qos % 256)
    case ToUnsubscribe(filter) => Unsubscribe(mid, filter)
  }

  /** `mosquitto_subscribe` and `mosquitto_unsubscribe`: each takes an id from the same counter as publishes. */
  function DoRequest(c: Client, r: Request): Outcome {
    if !c.connected then Outcome(c, [], [], [], NoConn)
    else if !Topics.ValidFilter(r.filter) then Outcome(c, [], [], [], Inval)
    else
      var mid := MessageIds.Next(c.lastMid);
      Outcome(c.(lastMid := mid), [RequestPacket(r, mid)], [], [], Success)
  }

  // ---- Acknowledgements --------------------------------------------------------------------

  datatype Promotion = Promotion(ms: seq<Msg>, inflight: int, sent: seq<Packet>, rc: Rc)

  /** Second loop of `_mosquitto_message_remove`: start queued messages while there is room. */
  function Promote(ms: seq<Msg>, inflight: int, max: nat, connected: bool): (p: Promotion)
    ensures |p.ms| == |ms|
  {
    if ms == [] || !Room(max, inflight) then Promotion(ms, inflight, [], Success)
    else if ms[0].qos > 0 && ms[0].state == Invalid then
      var m := ms[0].(state := FirstState(ms[0].qos, Invalid));
      var (sent, rc) := SendPublish(connected, m);
      if rc != Success then Promotion([m] + ms[1..], inflight + 1, sent, rc)
      else
        var p := Promote(ms[1..], inflight + 1, max, connected);
        p.(ms := [m] + p.ms, sent := sent + p.sent)
    else
      var p := Promote(ms[1..], inflight, max, connected);
      p.(ms := [ms[0]] + p.ms)
  }

  function Without(ms: seq<Msg>, k: nat): seq<Msg>
    requires k < |ms|
  {
    ms[..k] + ms[k + 1..]
  }

  /** `_mosquitto_message_remove` on the outgoing list. */
  function RemoveOut(c: Client, mid: uint16): (Client, seq<Packet>, Rc) {
    var k := Find(c.out, mid);
    if k == |c.out| then (c, [], NotFound)
    else
      var p := Promote(Without(c.out, k), c.inflight - (if c.out[k].qos > 0 then 1 else 0), c.max, c.connected);
      (c.(out := p.ms, inflight := p.inflight), p.sent, p.rc)
  }

  /** `_mosquitto_handle_pubackcomp`: PUBACK and PUBCOMP are treated alike. */
  function DoPubackcomp(c: Client, mid: uint16): Outcome {
    var k := Find(c.out, mid);
    var (c1, sent, rc) := RemoveOut(c, mid);
    Outcome(c1, sent, if rc == Success && k < |c.out| then [c.out[k]] else [], [], Success)
  }

  /** `_mosquitto_handle_pubrec`. */
  function DoPubrec(c: Client, mid: uint16, now: int): Outcome {
    var k := Find(c.out, mid);
    if k == |c.out| then Outcome(c, [], [], [], NotFound)
    else
      var m := c.out[k].(state := WaitForPubcomp, timestamp := now);
      Outcome(c.(out := c.out[k := m]), [Pubrel(m.serial, mid, 2)], [], [], Success)
  }

  // ---- Incoming messages ---------------------------------------------------------------------

  /** `_mosquitto_handle_publish` after the packet has been parsed. The topic is not empty there. */
  function DoReceivedPublish(c: Client, p: Packet, now: int): Outcome
    requires p.Publish?
  {
    var m := Msg(p.serial, p.mid, p.qos, p.app, Invalid, p.dup, now);
    if p.app.topic == [] then Outcome(c, [], [], [], Protocol)
    else if p.qos == 0 then Outcome(c, [], [], [m], Success)
    else if p.qos == 1 then Outcome(c, [Puback(p.mid)], [], [m], Success)
    else Outcome(c.(inq := c.inq + [m.(state := WaitForPubrel)]), [Pubrec(p.mid)], [], [], Success)
  }

  /** `_mosquitto_handle_pubrel`. */
  function DoPubrel(c: Client, flags: byte, mid: uint16): Outcome {
    if c.mqtt311 && flags != 2 then Outcome(c, [], [], [], Protocol)
    else
      var k := Find(c.inq, mid);
      if k == |c.inq| then Outcome(c, [Pubcomp(mid)], [], [], Success)
      else Outcome(c.(inq := Without(c.inq, k)), [Pubcomp(mid)], [], [c.inq[k]], Success)
  }

  /** `_mosquitto_packet_handle` for the packets of the two QoS flows; others named here are never sent to a client. */
  function DoReceive(c: Client, p: Packet, now: int): Outcome {
    match p
    case Publish(_, _, _, _, _) => DoReceivedPublish(c, p, now)
    case Pubrel(_, mid, flags) => DoPubrel(c, flags, mid)
    case Puback(mid) => DoPubackcomp(c, mid)
    case Pubcomp(mid) => DoPubackcomp(c, mid)
    case Pubrec(mid) => DoPubrec(c, mid, now)
    case _ => Outcome(c, [], [], [], Protocol)
  }

  // ---- Retry and reconnect -------------------------------------------------------------------

  /** One turn of the retry loop: the message afterwards, and what is sent for it. */
  function RetryOne(m: Msg, connected: bool, retry: nat, now: int): (Msg, seq<Packet>) {
    if m.timestamp + retry >= now then (m, [])
    else
      var m1 := m.(timestamp := now, dup := true);
      match m.state
      case WaitForPuback => (m1, SendPublish(connected, m1).0)
      case WaitForPubrec => (m1, SendPublish(connected, m1).0)
      case WaitForPubrel => (m1, [Pubrec(m.mid)])
      case WaitForPubcomp => (m1, [Pubrel(m.serial, m.mid, 2)])
      case Invalid => (m, [])
  }

  /** `_mosquitto_message_retry_check_actual`. */
  function RetryAll(ms: seq<Msg>, connected: bool, retry: nat, now: int): (r: (seq<Msg>, seq<Packet>))
    ensures |r.0| == |ms|
    ensures forall i :: 0 <= i < |ms| ==> r.0[i] == RetryOne(ms[i], connected, retry, now).0
  {
    if ms == [] then ([], [])
    else
      var (m, sent) := RetryOne(ms[0], connected, retry, now);
      var (rest, more) := RetryAll(ms[1..], connected, retry, now);
      ([m] + rest, sent + more)
  }

  /** `_mosquitto_message_retry_check`. */
  function DoRetry(c: Client, now: int): Outcome {
    var (out, sentOut) := RetryAll(c.out, c.connected, c.retry, now);
    var (inq, sentIn) := RetryAll(c.inq, c.connected, c.retry, now);
    Outcome(c.(out := out, inq := inq), sentOut + sentIn, [], [], Success)
  }

  /** Outgoing half of `_mosquitto_messages_reconnect_reset`. */
  function ResetOut(ms: seq<Msg>, inflight: int, max: nat): (r: (seq<Msg>, int))
    ensures |r.0| == |ms|
  {
    if ms == [] then ([], inflight)
    else if Room(max, inflight) then
      var m := ms[0].(timestamp := 0, state := if ms[0].qos == 1 then WaitForPuback else ms[0].state);
      var (rest, n) := ResetOut(ms[1..], inflight + (if m.qos > 0 then 1 else 0), max);
      ([m] + rest, n)
    else
      var (rest, n) := ResetOut(ms[1..], inflight, max);
      ([ms[0].(timestamp := 0, state := Invalid)] + rest, n)
  }

  function Untimed(ms: seq<Msg>): (r: seq<Msg>)
    ensures |r| == |ms| && forall i :: 0 <= i < |ms| ==> r[i] == ms[i].(timestamp := 0)
  {
    seq(|ms|, i requires 0 <= i < |ms| => ms[i].(timestamp := 0))
  }

  /** `_mosquitto_reconnect`; `ok` is the result of the connection attempt. */
  function DoReconnect(c: Client, ok: bool): Client {
    var (out, n) := ResetOut(c.out, 0, c.max);
    c.(out := out, inflight := n, inq := Untimed(c.inq), connected := ok)
  }
}
