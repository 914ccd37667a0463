/**
 The client's calls on its message lists, step by step in place. Each is proved equal to its
 function in module Engine.
 */
module ClientLists {
  import opened Engine
  import opened MessageLists
  import opened Mqtt
  import MessageIds
  import Topics
  import Window

  class Mosquitto {
    const maxInflight: nat
    const messageRetry: nat
    const mqtt311: bool
    const outList: MessageList    // out_messages, out_messages_last, out_queue_len
    const inList: MessageList     // in_messages, in_messages_last, in_queue_len
    var connected: bool
    var lastMid: uint16
    var inflightMessages: int
    var sent: seq<Packet>         // packets handed to the packet queue, oldest first
    var published: seq<Msg>       // calls of on_publish, oldest first
    var delivered: seq<Msg>       // calls of on_message, oldest first
    var serial: nat               // numbers the publishes; not in the C structure

    ghost predicate Separate()
      reads outList, inList
    {
      outList != inList && forall i :: 0 <= i < |inList.spine| ==> inList.spine[i] !in outList.spine
    }

    ghost function OutNodes(): set<Node>
      reads outList
    {
      set n | n in outList.spine
    }

    ghost function InNodes(): set<Node>
      reads inList
    {
      set n | n in inList.spine
    }

    ghost function Other(list: MessageList): MessageList {
      if list == outList then inList else outList
    }

    ghost predicate Valid()
      reads outList, inList, outList.spine, inList.spine
    {
      outList.Valid() && inList.Valid() && inList.Sound() && Separate() && Window.InHeld(Vals(inList.spine))
    }

    ghost function Abs(): Client
      reads this, outList, inList, outList.spine, inList.spine
    {
      Client(maxInflight, messageRetry, mqtt311, connected, lastMid, serial,
             inflightMessages, Vals(outList.spine), Vals(inList.spine))
    }

    constructor (maxInflight: nat, messageRetry: nat, mqtt311: bool)
      ensures Valid() && outList.Sound() && fresh(outList) && fresh(inList)
      ensures Abs() == Client(maxInflight, messageRetry, mqtt311, false, 0, 0, 0, [], [])
      ensures sent == [] && published == [] && delivered == []
    {
      this.maxInflight, this.messageRetry, this.mqtt311 := maxInflight, messageRetry, mqtt311;
      connected, lastMid, inflightMessages, serial := false, 0, 0, 0;
      sent, published, delivered := [], [], [];
      outList := new MessageList();
      inList := new MessageList();
    }

    /** `_mosquitto_send_publish` in threaded mode. */
    method SendPublishPacket(m: Msg) returns (rc: Rc)
      modifies this`sent
      ensures var (s, r) := SendPublish(connected, m); sent == old(sent) + s && rc == r
    {
      if !connected { return NoConn; }
      if !Fits(m.app, m.qos) { return PayloadSize; }
      sent := sent + [ToPublish(m)];
      return Success;
    }

    // ---- Publishing ----------------------------------------------------------------------------

    /**
     `_mosquitto_message_queue` on the outgoing list. With a stale tail pointer the message is counted, but
     linked behind a foreign node, and the head of the list stays null.
     */
    method QueueOut(message: Node) returns (full: bool)
      requires Valid() && message !in outList.spine && message !in inList.spine && message != outList.last
      modifies this`inflightMessages, outList, message`next, (if outList.last == null then {} else {outList.last})`next
      ensures old(outList.Sound()) ==>
                && Valid() && outList.Sound() && outList.spine == old(outList.spine) + [message]
                && Vals(inList.spine) == old(Vals(inList.spine))
                && Vals(outList.spine) == old(Vals(outList.spine)) + [message.val]
      ensures !old(outList.Sound()) ==>
                && outList.head == null && outList.len == 1 && outList.last == message
                && old(outList.last).next == message
      ensures message.val.qos > 0 ==> full == !Room(maxInflight, old(inflightMessages))
      ensures inflightMessages == old(inflightMessages) + if message.val.qos > 0 && !full then 1 else 0
    {
      full := false;
      assert outList.last != null && outList.Sound() ==> outList.last in outList.spine && outList.last !in inList.spine;
      outList.Append(message);
      assert old(outList.Sound()) ==> inList.Valid() && Vals(inList.spine) == old(Vals(inList.spine));
      if message.val.qos > 0 {
        if maxInflight == 0 || inflightMessages < maxInflight {
          inflightMessages := inflightMessages + 1;
        } else {
          full := true;
        }
      }
    }

    /** Assignment to the data of one message. */
    method Store(list: MessageList, node: Node, m: Msg, ghost i: nat)
      requires Valid() && i < |list.spine| && node == list.spine[i]
      requires list == outList || (list == inList && m.qos == 2 && m.state == WaitForPubrel)
      modifies node`val
      ensures Valid() && Vals(list.spine) == old(Vals(list.spine))[i := m]
      ensures Vals(Other(list).spine) == old(Vals(Other(list).spine))
    {
      list.Put(node, m, i);
      if list == outList {
        assert node !in inList.spine;
      } else {
        assert node !in outList.spine;
      }
    }

    lemma ListsAreValid()
      requires Valid()
      ensures outList.Valid() && inList.Valid() && inList.Sound() && outList != inList
    {
    }

    /** A list of the client, read through its links. */
    lemma LinksOf(list: MessageList, i: nat)
      requires Valid() && (list == outList || list == inList) && i <= |list.spine|
      ensures i == 0 ==> list.head == if i < |list.spine| then list.spine[i] else null
      ensures i < |list.spine| ==> list.spine[i].next == if i + 1 < |list.spine| then list.spine[i + 1] else null
      ensures i < |list.spine| ==> Vals(list.spine)[i] == list.spine[i].val
    {
    }

    /** Queue a new message in the state that the window allows. */
    method Enqueue(m: Msg) returns (m1: Msg, full: bool)
      requires Valid() && outList.Sound() && m.qos > 0 && m.state == Invalid
      modifies this`inflightMessages, outList, outList.spine`next
      ensures Valid() && outList.Sound() && Vals(inList.spine) == old(Vals(inList.spine))
      ensures full == !Room(maxInflight, old(inflightMessages))
      ensures m1 == m.(state := if full then Invalid else FirstState(m.qos, Invalid))
      ensures Vals(outList.spine) == old(Vals(outList.spine)) + [m1]
      ensures fresh(OutNodes() - old(OutNodes()))
      ensures inflightMessages == old(inflightMessages) + if full then 0 else 1
    {
      hide Valid, Vals;
      var message := new Node(m);
      ghost var before := Vals(outList.spine);
      full := QueueOut(message);
      m1 := m.(state := if full then Invalid else if m.qos == 1 then WaitForPuback else WaitForPubrec);
      Store(outList, message, m1, |before|);
    }

    /** The end of `mosquitto_publish`: queue the message, and send it if there is room. */
    method QueueAndSend(m: Msg) returns (rc: Rc)
      requires Valid() && outList.Sound() && m.qos > 0 && m.state == Invalid
      modifies this`inflightMessages, this`sent, outList, outList.spine`next
      ensures Valid() && outList.Sound()
      ensures var o := Engine.Enqueue(old(Abs()), m);
              Abs() == o.c && sent == old(sent) + o.sent && rc == o.rc
      ensures fresh(OutNodes() - old(OutNodes()))
    {
      hide Valid;
      var m1, full := Enqueue(m);
      rc := Success;
      if !full {
        rc := SendPublishPacket(m1);
      }
    }

    /** `_mosquitto_mid_generate`. */
    method MidGenerate() returns (mid: uint16)
      modifies this`lastMid
      ensures mid == lastMid == MessageIds.Next(old(lastMid))
    {
      lastMid := (lastMid + 1) % 0x1_0000;
      if lastMid == 0 {
        lastMid := (lastMid + 1) % 0x1_0000;
      }
      mid := lastMid;
    }

    /** `mosquitto_publish` once its arguments have been checked. */
    method PublishChecked(app: AppMessage, qos: Qos, now: int) returns (rc: Rc)
      requires Valid() && app.topic != [] && |app.payload| <= MQTT_MAX_PAYLOAD && Topics.ValidTopic(app.topic)
      requires qos > 0 ==> outList.Sound()
      modifies this`lastMid, this`serial, this`inflightMessages, this`sent, outList, outList.spine`next
      ensures Valid() && (outList.Sound() <==> old(outList.Sound()))
      ensures var o := DoPublish(old(Abs()), app, qos, now);
              Abs() == o.c && sent == old(sent) + o.sent && rc == o.rc
      ensures fresh(OutNodes() - old(OutNodes()))
    {
      hide Valid, Vals, Topics.ValidTopic, SendPublish, Engine.Enqueue, MessageIds.Next;
      ghost var c := Abs();
      var mid := MidGenerate();
      var m := Msg(serial, mid, qos, app, Invalid, false, now);
      serial := serial + 1;
      assert Abs() == c.(lastMid := lastMid, published := serial);
      if qos == 0 {
        rc := SendPublishPacket(m);
      } else {
        rc := QueueAndSend(m);
      }
    }

    /** `mosquitto_publish`. */
    method Publish(app: AppMessage, qos: int, now: int) returns (rc: Rc)
      requires Valid() && (1 <= qos <= 2 ==> outList.Sound())
      modifies this`lastMid, this`serial, this`inflightMessages, this`sent, outList, outList.spine`next
      ensures Valid() && (outList.Sound() <==> old(outList.Sound()))
      ensures var o := DoPublish(old(Abs()), app, qos, now);
              Abs() == o.c && sent == old(sent) + o.sent && rc == o.rc
      ensures fresh(OutNodes() - old(OutNodes()))
    {
      if qos < 0 || qos > 2 || app.topic == [] { return Inval; }
      if |app.payload| > MQTT_MAX_PAYLOAD { return PayloadSize; }
      if !Topics.ValidTopic(app.topic) { return Inval; }
      rc := PublishChecked(app, qos, now);
    }

    // ---- Subscribing ----------------------------------------------------------------------------

    /** `mosquitto_subscribe`. A filter that passes the check is short enough for every packet. */
    method Subscribe(filter: cstring, qos: int) returns (rc: Rc)
      modifies this`lastMid, this`sent
      ensures var o := DoRequest(old(Abs()), ToSubscribe(filter, qos));
              Abs() == o.c && sent == old(sent) + o.sent && rc == o.rc
    {
      if !connected { return NoConn; }
      rc := Topics.SubTopicCheck(filter);
      if rc != Success { return; }
      var mid := MidGenerate();
      sent := sent + [Engine.Subscribe(mid, filter, qos % 256)];
    }

    /** `mosquitto_unsubscribe`. */
    method Unsubscribe(filter: cstring) returns (rc: Rc)
      modifies this`lastMid, this`sent
      ensures var o := DoRequest(old(Abs()), ToUnsubscribe(filter));
              Abs() == o.c && sent == old(sent) + o.sent && rc == o.rc
    {
      if !connected { return NoConn; }
      rc := Topics.SubTopicCheck(filter);
      if rc != Success { return; }
      var mid := MidGenerate();
      sent := sent + [Engine.Unsubscribe(mid, filter)];
    }

    // ---- Acknowledgements -----------------------------------------------------------------------

    /** Let a queued message into the window and send it. */
    method Start(cur: Node, ghost i: nat) returns (rc: Rc)
      requires Valid() && i < |outList.spine| && cur == outList.spine[i] && cur.val.qos > 0
      modifies this`inflightMessages, this`sent, cur`val
      ensures Valid() && Vals(inList.spine) == old(Vals(inList.spine))
      ensures var m := old(cur.val).(state := FirstState(old(cur.val).qos, old(cur.val).state));
              var (s, r) := SendPublish(connected, m);
              && Vals(outList.spine) == old(Vals(outList.spine))[i := m]
              && inflightMessages == old(inflightMessages) + 1 && sent == old(sent) + s && rc == r
    {
      hide Valid, Vals;
      inflightMessages := inflightMessages + 1;
      if cur.val.qos == 1 {
        Store(outList, cur, cur.val.(state := WaitForPuback), i);
      } else if cur.val.qos == 2 {
        Store(outList, cur, cur.val.(state := WaitForPubrec), i);
      }
      rc := SendPublishPacket(cur.val);
    }

    /** Second loop of `_mosquitto_message_remove`: walk the list, starting messages while there is room. */
    method StartQueued() returns (rc: Rc)
      requires Valid()
      modifies this`inflightMessages, this`sent, outList.spine`val
      ensures Valid() && Vals(inList.spine) == old(Vals(inList.spine))
      ensures var p := Promote(old(Vals(outList.spine)), old(inflightMessages), maxInflight, connected);
              Vals(outList.spine) == p.ms && inflightMessages == p.inflight && sent == old(sent) + p.sent && rc == p.rc
    {
      hide Valid, Vals, Promote, PromotedUpTo;
      ghost var ms0 := Vals(outList.spine);
      ghost var p := Promote(ms0, inflightMessages, maxInflight, connected);
      PromoteBegin(ms0, inflightMessages, maxInflight, connected, sent);
      rc := StartLoop(p, ms0);
    }

    /** The loop itself. */
    method StartLoop(ghost p: Promotion, ghost ms0: seq<Msg>) returns (rc: Rc)
      requires Valid()
               && PromotedUpTo(p, 0, ms0, Vals(outList.spine), inflightMessages, maxInflight, connected, sent, sent)
      modifies this`inflightMessages, this`sent, outList.spine`val
      ensures Valid() && Vals(inList.spine) == old(Vals(inList.spine))
      ensures p == Promotion(Vals(outList.spine), inflightMessages, p.sent, rc) && old(sent) + p.sent == sent
    {
      hide Valid, Vals, Promote, PromotedUpTo;
      ghost var i := 0;
      var cur := outList.head;
      LinksOf(outList, 0);
      while cur != null
        invariant 0 <= i <= |outList.spine| && cur == if i < |outList.spine| then outList.spine[i] else null
        invariant Valid() && Vals(inList.spine) == old(Vals(inList.spine))
        invariant PromotedUpTo(p, i, ms0, Vals(outList.spine), inflightMessages, maxInflight, connected,
                               old(sent), sent)
        decreases |outList.spine| - i
      {
        LinksOf(outList, i);
        if maxInflight == 0 || inflightMessages < maxInflight {
          if cur.val.qos > 0 && cur.val.state == Invalid {
            PromoteStart(p, i, ms0, Vals(outList.spine), inflightMessages, maxInflight, connected, old(sent), sent);
            rc := Start(cur, i);
            if rc != Success {
              return;
            }
          } else {
            PromoteSkip(p, i, ms0, Vals(outList.spine), inflightMessages, maxInflight, connected, old(sent), sent);
          }
        } else {
          PromoteFull(p, i, ms0, Vals(outList.spine), inflightMessages, maxInflight, connected, old(sent), sent);
          return Success;
        }
        LinksOf(outList, i);
        cur := cur.next;
        i := i + 1;
      }
      PromoteEnd(p, ms0, Vals(outList.spine), inflightMessages, maxInflight, connected, old(sent), sent);
      return Success;
    }

    /** `_mosquitto_message_remove` on the outgoing list. */
    method RemoveOutgoing(mid: uint16) returns (rc: Rc, message: Node?)
      requires Valid()
      modifies this`inflightMessages, this`sent, outList, OutNodes()
      ensures Valid() && (outList.Sound() <==> old(outList.Sound())) && Vals(inList.spine) == old(Vals(inList.spine))
      ensures var (c, s, r) := RemoveOut(old(Abs()), mid);
              Abs() == c && sent == old(sent) + s && rc == r
      ensures var k := Find(old(Vals(outList.spine)), mid);
              message == (if k < |old(outList.spine)| then old(outList.spine)[k] else null)
              && (message != null ==> message.val == old(Vals(outList.spine))[k])
      ensures OutNodes() <= old(OutNodes())
    {
      hide Valid, Vals, Promote, Find, Without;
      message := UnlinkOutgoing(mid);
      if message == null {
        return NotFound, null;
      }
      if message.val.qos > 0 {
        inflightMessages := inflightMessages - 1;
      }
      rc := StartQueued();
    }

    method UnlinkOutgoing(mid: uint16) returns (message: Node?)
      requires Valid()
      modifies outList, outList.spine`next
      ensures Valid() && (outList.Sound() <==> old(outList.Sound())) && Vals(inList.spine) == old(Vals(inList.spine))
      ensures forall n :: n in outList.spine ==> n in old(outList.spine)
      ensures var k := Find(old(Vals(outList.spine)), mid);
              if k == |old(outList.spine)| then message == null && Vals(outList.spine) == old(Vals(outList.spine))
              else message == old(outList.spine)[k] && message !in outList.spine
                   && message.val == old(Vals(outList.spine))[k]
                   && Vals(outList.spine) == Without(old(Vals(outList.spine)), k)
    {
      hide Vals, Find, Without, Window.InHeld;
      message := outList.Unlink(mid);
      SameVals(inList.spine);
      if message == null {
        SameVals(outList.spine);
      }
      assert inList.Valid();
    }

    /** `_mosquitto_handle_pubackcomp`, after the id has been read. */
    method HandlePubackcomp(mid: uint16)
      requires Valid()
      modifies this`inflightMessages, this`sent, this`published, outList, OutNodes()
      ensures Valid() && (outList.Sound() <==> old(outList.Sound()))
      ensures var o := DoPubackcomp(old(Abs()), mid);
              Abs() == o.c && sent == old(sent) + o.sent && published == old(published) + o.onPublish
      ensures OutNodes() <= old(OutNodes())
    {
      hide Valid, Vals;
      var rc, message := RemoveOutgoing(mid);
      if rc == Success {
        published := published + [message.val];
      }
    }

    /** `_mosquitto_message_out_update`. The serial is that of the message found. */
    method OutUpdate(mid: uint16, state: MsgState, now: int) returns (rc: Rc, serial: nat)
      requires Valid()
      modifies OutNodes()
      ensures Valid() && Vals(inList.spine) == old(Vals(inList.spine))
      ensures var ms := old(Vals(outList.spine)); var k := Find(ms, mid);
              if k == |ms| then rc == NotFound && Vals(outList.spine) == ms
              else rc == Success && serial == ms[k].serial
                   && Vals(outList.spine) == ms[k := ms[k].(state := state, timestamp := now)]
    {
      hide Valid, Vals, Find;
      ListsAreValid();
      var prev, cur, k := outList.Locate(mid);
      if cur == null {
        return NotFound, 0;
      }
      LinksOf(outList, k);
      Store(outList, cur, cur.val.(state := state, timestamp := now), k);
      return Success, cur.val.serial;
    }

    /** `_mosquitto_handle_pubrec`, after the id has been read. */
    method HandlePubrec(mid: uint16, now: int) returns (rc: Rc)
      requires Valid()
      modifies this`sent, OutNodes()
      ensures Valid()
      ensures var o := DoPubrec(old(Abs()), mid, now);
              Abs() == o.c && sent == old(sent) + o.sent && rc == o.rc
    {
      hide Valid, Vals;
      var serial;
      rc, serial := OutUpdate(mid, WaitForPubcomp, now);
      if rc == Success {
        sent := sent + [Pubrel(serial, mid, 2)];
      }
    }

    // ---- Incoming messages ------------------------------------------------------------------------

    /** `_mosquitto_message_queue` on the incoming list. */
    method QueueIn(m: Msg)
      requires Valid() && m.qos == 2 && m.state == WaitForPubrel
      modifies inList, inList.spine`next
      ensures Valid() && Vals(outList.spine) == old(Vals(outList.spine))
      ensures Vals(inList.spine) == old(Vals(inList.spine)) + [m]
      ensures fresh(InNodes() - old(InNodes()))
    {
      hide Vals, Window.InHeld;
      var message := new Node(m);
      assert inList.last != null ==> inList.last in inList.spine && inList.last !in outList.spine;
      HeldAppend(Vals(inList.spine), m);
      inList.Append(message);
      SameVals(outList.spine);
      ValsAppend(old(inList.spine), message);
      SameVals(old(inList.spine));
    }

    /** `_mosquitto_handle_publish`, after the packet has been parsed into `p`. */
    method HandlePublish(p: Packet, now: int) returns (rc: Rc)
      requires Valid() && p.Publish?
      modifies this`sent, this`delivered, inList, inList.spine`next
      ensures Valid()
      ensures var o := DoReceivedPublish(old(Abs()), p, now);
              Abs() == o.c && sent == old(sent) + o.sent && delivered == old(delivered) + o.onMessage && rc == o.rc
      ensures fresh(InNodes() - old(InNodes()))
    {
      hide Valid, Vals;
      var message := Msg(p.serial, p.mid, p.qos, p.app, Invalid, p.dup, now);
      if message.app.topic == [] {
        return Protocol;
      }
      match message.qos {
        case 0 =>
          delivered := delivered + [message];
        case 1 =>
          sent := sent + [Puback(message.mid)];
          delivered := delivered + [message];
        case _ =>
          sent := sent + [Pubrec(message.mid)];
          QueueIn(message.(state := WaitForPubrel));
      }
      return Success;
    }

    method UnlinkIncoming(mid: uint16) returns (message: Node?)
      requires Valid()
      modifies inList, inList.spine`next
      ensures Valid() && Vals(outList.spine) == old(Vals(outList.spine))
      ensures var k := Find(old(Vals(inList.spine)), mid);
              if k == |old(inList.spine)| then message == null && Vals(inList.spine) == old(Vals(inList.spine))
              else message == old(inList.spine)[k] && message.val == old(Vals(inList.spine))[k]
                   && Vals(inList.spine) == Without(old(Vals(inList.spine)), k)
      ensures InNodes() <= old(InNodes())
    {
      hide Vals, Window.InHeld, Without, Find;
      ghost var ms := Vals(inList.spine);
      if Find(ms, mid) < |ms| {
        HeldWithout(ms, Find(ms, mid));
      }
      message := inList.Unlink(mid);
      SameVals(outList.spine);
      if message == null {
        SameVals(inList.spine);
      }
      assert outList.Valid();
    }

    /** `_mosquitto_handle_pubrel`, with the flags of the packet and its id. */
    method HandlePubrel(flags: byte, mid: uint16) returns (rc: Rc)
      requires Valid()
      modifies this`sent, this`delivered, inList, inList.spine`next
      ensures Valid()
      ensures var o := DoPubrel(old(Abs()), flags, mid);
              Abs() == o.c && sent == old(sent) + o.sent && delivered == old(delivered) + o.onMessage && rc == o.rc
      ensures InNodes() <= old(InNodes())
    {
      hide Valid, Vals, Find, Without, InNodes;
      if mqtt311 && flags != 2 {
        return Protocol;
      }
      var message := UnlinkIncoming(mid);
      if message != null {
        delivered := delivered + [message.val];
      }
      sent := sent + [Pubcomp(mid)];
      return Success;
    }

    // ---- Retry and reconnect ------------------------------------------------------------------------

    /** What a retry sends for a message of this state. */
    method RetrySend(m: Msg)
      requires m.state != Invalid
      modifies this`sent
      ensures sent == old(sent) + Resent(m, connected)
    {
      match m.state {
        case WaitForPuback => var _ := SendPublishPacket(m);
        case WaitForPubrec => var _ := SendPublishPacket(m);
        case WaitForPubrel => sent := sent + [Pubrec(m.mid)];
        case WaitForPubcomp => sent := sent + [Pubrel(m.serial, m.mid, 2)];
      }
    }

    /** One turn of the retry loop. */
    method RetryMessage(list: MessageList, cur: Node, now: int, ghost i: nat)
      requires Valid() && (list == outList || list == inList) && i < |list.spine| && cur == list.spine[i]
      modifies this`sent, cur`val
      ensures Valid() && sent == old(sent) + RetryOne(old(cur.val), connected, messageRetry, now).1
      ensures Vals(list.spine) == old(Vals(list.spine))[i := RetryOne(old(cur.val), connected, messageRetry, now).0]
      ensures Vals(Other(list).spine) == old(Vals(Other(list).spine))
    {
      hide Valid, Vals, RetryOne, Resent;
      LinksOf(list, i);
      if list == inList {
        HeldAt(i);
      }
      RetryOneIs(cur.val, connected, messageRetry, now);
      if cur.val.timestamp + messageRetry < now && cur.val.state != Invalid {
        var m := cur.val.(timestamp := now, dup := true);
        Store(list, cur, m, i);
        RetrySend(m);
      } else {
        SameAt(Vals(list.spine), i, cur.val);
      }
    }

    /** One turn, as a step of the pass `r` over the list `ms0`. Returns the node after `cur`. */
    method RetryTurn(list: MessageList, cur: Node, now: int, ghost i: nat, ghost r: (seq<Msg>, seq<Packet>),
                     ghost ms0: seq<Msg>, ghost before: seq<Packet>) returns (next: Node?)
      requires Valid() && (list == outList || list == inList) && i < |list.spine| && cur == list.spine[i]
      requires RetriedUpTo(r, i, ms0, Vals(list.spine), connected, messageRetry, now, before, sent)
      modifies this`sent, cur`val
      ensures Valid() && next == if i + 1 < |list.spine| then list.spine[i + 1] else null
      ensures RetriedUpTo(r, i + 1, ms0, Vals(list.spine), connected, messageRetry, now, before, sent)
      ensures Vals(Other(list).spine) == old(Vals(Other(list).spine))
    {
      hide Valid, Vals, Other, RetryAll, RetriedUpTo, RetryOne;
      LinksOf(list, i);
      RetryAt(r, i, ms0, Vals(list.spine), connected, messageRetry, now, before, sent);
      RetryMessage(list, cur, now, i);
      LinksOf(list, i);
      next := cur.next;
    }

    /** `_mosquitto_message_retry_check_actual`. */
    method RetryList(list: MessageList, now: int)
      requires Valid() && (list == outList || list == inList)
      modifies this`sent, list.spine`val
      ensures Valid() && sent == old(sent) + RetryAll(old(Vals(list.spine)), connected, messageRetry, now).1
      ensures Vals(list.spine) == RetryAll(old(Vals(list.spine)), connected, messageRetry, now).0
      ensures Vals(Other(list).spine) == old(Vals(Other(list).spine))
    {
      hide Valid, Vals, Other, RetryAll, RetriedUpTo, RetryOne;
      ghost var ms0 := Vals(list.spine);
      ghost var r := RetryAll(ms0, connected, messageRetry, now);
      RetryBegin(ms0, connected, messageRetry, now, sent);
      RetryLoop(list, now, r, ms0);
      RetryEnd(r, ms0, Vals(list.spine), connected, messageRetry, now, old(sent), sent);
    }

    /** The loop itself. */
    method RetryLoop(list: MessageList, now: int, ghost r: (seq<Msg>, seq<Packet>), ghost ms0: seq<Msg>)
      requires Valid() && (list == outList || list == inList)
      requires RetriedUpTo(r, 0, ms0, Vals(list.spine), connected, messageRetry, now, sent, sent)
      modifies this`sent, list.spine`val
      ensures Valid() && Vals(Other(list).spine) == old(Vals(Other(list).spine))
      ensures RetriedUpTo(r, |list.spine|, ms0, Vals(list.spine), connected, messageRetry, now, old(sent), sent)
    {
      hide Valid, Vals, Other, RetryAll, RetriedUpTo, RetryOne;
      ghost var i := 0;
      var cur := list.head;
      LinksOf(list, 0);
      while cur != null
        invariant 0 <= i <= |list.spine| && cur == if i < |list.spine| then list.spine[i] else null
        invariant Valid() && Vals(Other(list).spine) == old(Vals(Other(list).spine))
        invariant RetriedUpTo(r, i, ms0, Vals(list.spine), connected, messageRetry, now, old(sent), sent)
        decreases |list.spine| - i
      {
        cur := RetryTurn(list, cur, now, i, r, ms0, old(sent));
        i := i + 1;
      }
    }

    /** `_mosquitto_message_retry_check`. */
    method RetryCheck(now: int)
      requires Valid()
      modifies this`sent, outList.spine`val, inList.spine`val
      ensures Valid()
      ensures var o := DoRetry(old(Abs()), now); Abs() == o.c && sent == old(sent) + o.sent
    {
      hide Valid, Vals, RetryAll;
      RetryList(outList, now);
      RetryList(inList, now);
    }

    /**
     First loop of `_mosquitto_messages_reconnect_reset`. `prev` comes back pointing at the last
     incoming message, and the second loop starts from it.
     */
    method ResetIncoming() returns (prev: Node?)
      requires Valid()
      modifies inList, InNodes()
      ensures Valid() && prev == Last(inList.spine) && inList.spine == old(inList.spine)
      ensures Vals(inList.spine) == Untimed(old(Vals(inList.spine)))
      ensures Vals(outList.spine) == old(Vals(outList.spine))
    {
      hide Valid, Vals, Untimed, UntimedUpTo;
      ghost var ms := Vals(inList.spine);
      ghost var i := 0;
      var message := inList.head;
      prev := null;
      var count := 0;
      LinksOf(inList, 0);
      UntimedBegin(ms);
      while message != null
        invariant 0 <= i <= |inList.spine| && message == if i < |inList.spine| then inList.spine[i] else null
        invariant count == i && inList.spine == old(inList.spine)
        invariant prev == if i == 0 then null else inList.spine[i - 1]
        invariant UntimedUpTo(i, ms, Vals(inList.spine))
        invariant Valid() && Vals(outList.spine) == old(Vals(outList.spine))
        decreases |inList.spine| - i
      {
        LinksOf(inList, i);
        HeldAt(i);
        UntimedAt(i, ms, Vals(inList.spine));
        count := count + 1;
        if message.val.qos != 2 {
          assert false;  // the branch that unlinks and frees the message
        }
        Store(inList, message, message.val.(timestamp := 0), i);
        LinksOf(inList, i);
        prev := message;
        message := message.next;
        i := i + 1;
      }
      UntimedEnd(ms, Vals(inList.spine));
      FinishIncoming(prev, count);
    }

    /** Every incoming message has QoS 2. */
    lemma HeldAt(i: nat)
      requires Valid() && i < |inList.spine|
      ensures Vals(inList.spine)[i].qos == 2 && Vals(inList.spine)[i].state == WaitForPubrel
    {
    }

    method FinishIncoming(prev: Node?, count: nat)
      requires Valid() && prev == Last(inList.spine) && count == |inList.spine|
      modifies inList
      ensures Valid() && inList.spine == old(inList.spine)
    {
      inList.last := prev;
      inList.len := count;
    }

    /** Second loop of `_mosquitto_messages_reconnect_reset`, started with `prev0`. */
    method ResetOutgoing(prev0: Node?)
      requires Valid()
      modifies this`inflightMessages, outList, OutNodes()
      ensures Valid() && outList.spine == old(outList.spine)
      ensures outList.last == if outList.spine == [] then prev0 else Last(outList.spine)
      ensures var (ms, n) := ResetOut(old(Vals(outList.spine)), 0, maxInflight);
              Vals(outList.spine) == ms && inflightMessages == n
      ensures Vals(inList.spine) == old(Vals(inList.spine))
    {
      hide Valid, Vals, ResetOut, ResetUpTo;
      ghost var ms := Vals(outList.spine);
      inflightMessages := 0;
      ResetBegin(ms, maxInflight);
      var prev, count := ResetLoop(prev0, ms);
      ResetEnd(ms, Vals(outList.spine), inflightMessages, maxInflight);
      FinishOutgoing(prev, count);
    }

    /** The loop itself. */
    method ResetLoop(prev0: Node?, ghost ms: seq<Msg>) returns (prev: Node?, count: nat)
      requires Valid() && ResetUpTo(0, ms, Vals(outList.spine), inflightMessages, maxInflight)
      modifies this`inflightMessages, outList.spine`val
      ensures Valid() && Vals(inList.spine) == old(Vals(inList.spine))
      ensures count == |outList.spine| && prev == if outList.spine == [] then prev0 else Last(outList.spine)
      ensures ResetUpTo(|outList.spine|, ms, Vals(outList.spine), inflightMessages, maxInflight)
    {
      hide Valid, Vals, ResetOut, ResetUpTo;
      ghost var i := 0;
      prev := prev0;
      var message := outList.head;
      count := 0;
      LinksOf(outList, 0);
      while message != null
        invariant 0 <= i <= |outList.spine| && message == if i < |outList.spine| then outList.spine[i] else null
        invariant count == i
        invariant prev == if i == 0 then prev0 else outList.spine[i - 1]
        invariant ResetUpTo(i, ms, Vals(outList.spine), inflightMessages, maxInflight)
        invariant Valid() && Vals(inList.spine) == old(Vals(inList.spine))
        decreases |outList.spine| - i
      {
        count := count + 1;
        prev := message;
        message := ResetTurn(message, i, ms);
        i := i + 1;
      }
    }

    /** One turn of the loop. Returns the node after `message`. */
    method ResetTurn(message: Node, ghost i: nat, ghost ms: seq<Msg>) returns (next: Node?)
      requires Valid() && i < |outList.spine| && message == outList.spine[i]
      requires ResetUpTo(i, ms, Vals(outList.spine), inflightMessages, maxInflight)
      modifies this`inflightMessages, message`val
      ensures Valid() && Vals(inList.spine) == old(Vals(inList.spine))
      ensures next == if i + 1 < |outList.spine| then outList.spine[i + 1] else null
      ensures ResetUpTo(i + 1, ms, Vals(outList.spine), inflightMessages, maxInflight)
    {
      hide Valid, Vals, ResetOut, ResetUpTo;
      LinksOf(outList, i);
      ResetAt(i, ms, Vals(outList.spine), inflightMessages, maxInflight);
      var m := message.val.(timestamp := 0);
      if maxInflight == 0 || inflightMessages < maxInflight {
        if m.qos > 0 {
          inflightMessages := inflightMessages + 1;
        }
        if m.qos == 1 {
          m := m.(state := WaitForPuback);
        }
      } else {
        m := m.(state := Invalid);
      }
      Store(outList, message, m, i);
      LinksOf(outList, i);
      next := message.next;
    }

    method FinishOutgoing(prev: Node?, count: nat)
      requires Valid() && count == |outList.spine| && (outList.spine != [] ==> prev == Last(outList.spine))
      modifies outList
      ensures Valid() && outList.spine == old(outList.spine)
      ensures outList.last == prev && Vals(outList.spine) == old(Vals(outList.spine))
              && Vals(inList.spine) == old(Vals(inList.spine))
    {
      outList.last := prev;
      outList.len := count;
    }

    /**
     `_mosquitto_messages_reconnect_reset`. The tail pointer of the outgoing list is right afterwards
     exactly if there is an outgoing message or there is no incoming one; otherwise it points at the
     last incoming message.
     */
    method ReconnectReset()
      requires Valid()
      modifies this`inflightMessages, outList, inList, OutNodes(), InNodes()
      ensures Valid() && outList.spine == old(outList.spine) && inList.spine == old(inList.spine)
      ensures outList.last == Last(if outList.spine == [] then inList.spine else outList.spine)
      ensures outList.Sound() <==> outList.spine != [] || inList.spine == []
      ensures var (ms, n) := ResetOut(old(Vals(outList.spine)), 0, maxInflight);
              Vals(outList.spine) == ms && inflightMessages == n
      ensures Vals(inList.spine) == Untimed(old(Vals(inList.spine)))
    {
      var prev := ResetIncoming();
      ResetOutgoing(prev);
    }

    /** `_mosquitto_reconnect`; `ok` is the result of the connection attempt. */
    method Reconnect(ok: bool)
      requires Valid()
      modifies this`inflightMessages, this`connected, this`sent, outList, inList, OutNodes(), InNodes()
      ensures Valid() && (outList.Sound() <==> Abs().out != [] || Abs().inq == [])
      ensures Abs() == DoReconnect(old(Abs()), ok)
      ensures sent == [] && outList.spine == old(outList.spine) && inList.spine == old(inList.spine)
    {
      hide Valid, Vals, ResetOut, Untimed;
      sent := [];
      ReconnectReset();
      connected := ok;
    }
  }

  /** How the tail pointer goes stale: a QoS 2 message comes in, and the client reconnects with nothing to send. */
  method StaleClient(incoming: Packet, now: int) returns (client: Mosquitto)
    requires incoming.Publish? && incoming.qos == 2 && incoming.app.topic != []
    ensures fresh(client) && fresh(client.outList) && fresh(client.inList) && fresh(client.InNodes())
    ensures client.Valid() && !client.outList.Sound()
    ensures client.outList.last != null && fresh(client.outList.last) && client.outList.last == client.inList.head
  {
    hide ResetOut, Untimed, Window.InHeld;
    client := new Mosquitto(20, 20, true);
    var _ := client.HandlePublish(incoming, now);
    assert |Vals(client.inList.spine)| == 1 && Vals(client.outList.spine) == [];
    client.ReconnectReset();
  }

  /**
   What a stale tail pointer does: a queued publish is linked behind the incoming message. `out_queue_len`
   counts it, but no call that walks the outgoing list will ever find it.
   */
  method LosePublish(incoming: Packet, outgoing: Msg, now: int) returns (client: Mosquitto)
    requires incoming.Publish? && incoming.qos == 2 && incoming.app.topic != []
    ensures client.outList.len == 1 && client.outList.head == null
    ensures client.inList.head != null && client.inList.head.next != null && client.inList.head.next.val == outgoing
  {
    client := StaleClient(incoming, now);
    var message := new Node(outgoing);
    hide Vals, Window.InHeld;
    var _ := client.QueueOut(message);
  }

  /** What is sent for a message that is due. */
  function Resent(m: Msg, connected: bool): seq<Packet> {
    match m.state
    case WaitForPubrel => [Pubrec(m.mid)]
    case WaitForPubcomp => [Pubrel(m.serial, m.mid, 2)]
    case Invalid => []
    case _ => SendPublish(connected, m).0
  }

  lemma RetryOneIs(m: Msg, connected: bool, retry: nat, now: int)
    ensures RetryOne(m, connected, retry, now)
         == if m.timestamp + retry < now && m.state != Invalid
            then (m.(timestamp := now, dup := true), Resent(m.(timestamp := now, dup := true), connected))
            else (m, [])
  {
  }

  lemma SameAt(ms: seq<Msg>, i: nat, m: Msg)
    requires i < |ms| && ms[i] == m
    ensures ms[i := m] == ms
  {
  }

  lemma HeldAppend(ms: seq<Msg>, m: Msg)
    requires Window.InHeld(ms) && m.qos == 2 && m.state == WaitForPubrel
    ensures Window.InHeld(ms + [m])
  {
  }

  lemma HeldWithout(ms: seq<Msg>, k: nat)
    requires Window.InHeld(ms) && k < |ms|
    ensures Window.InHeld(Without(ms, k))
  {
  }

  /** The promotion `p` of the list `ms0`, when `i` messages have been looked at. */
  ghost predicate PromotedUpTo(p: Promotion, i: nat, ms0: seq<Msg>, ms: seq<Msg>, n: int, max: nat, connected: bool,
                               before: seq<Packet>, sent: seq<Packet>)
  {
    i <= |ms| == |ms0| && ms[i..] == ms0[i..]
    && var rest := Promote(ms0[i..], n, max, connected);
       && p.ms == ms[..i] + rest.ms && p.inflight == rest.inflight
       && before + p.sent == sent + rest.sent && p.rc == rest.rc
  }

  lemma PromoteBegin(ms: seq<Msg>, n: int, max: nat, connected: bool, sent: seq<Packet>)
    ensures PromotedUpTo(Promote(ms, n, max, connected), 0, ms, ms, n, max, connected, sent, sent)
  {
  }

  /** One turn of the promotion loop with no room left. */
  lemma PromoteFull(p: Promotion, i: nat, ms0: seq<Msg>, ms: seq<Msg>, n: int, max: nat, connected: bool,
                    before: seq<Packet>, sent: seq<Packet>)
    requires PromotedUpTo(p, i, ms0, ms, n, max, connected, before, sent) && i < |ms| && !Room(max, n)
    ensures p == Promotion(ms, n, p.sent, Success) && before + p.sent == sent
  {
    assert ms == ms[..i] + ms[i..];
  }

  /** One turn for a message that has been sent already. */
  lemma PromoteSkip(p: Promotion, i: nat, ms0: seq<Msg>, ms: seq<Msg>, n: int, max: nat, connected: bool,
                    before: seq<Packet>, sent: seq<Packet>)
    requires PromotedUpTo(p, i, ms0, ms, n, max, connected, before, sent) && i < |ms| && Room(max, n)
    requires !(ms[i].qos > 0 && ms[i].state == Invalid)
    ensures PromotedUpTo(p, i + 1, ms0, ms, n, max, connected, before, sent)
  {
    hide SendPublish, FirstState, Room;
    assert ms0[i..][0] == ms[i] && ms0[i..][1..] == ms0[i + 1..];
    assert ms[..i + 1] == ms[..i] + [ms[i]];
  }

  /** One turn for a queued message: it is sent, or the promotion ends with the failure to send it. */
  lemma PromoteStart(p: Promotion, i: nat, ms0: seq<Msg>, ms: seq<Msg>, n: int, max: nat, connected: bool,
                     before: seq<Packet>, sent: seq<Packet>)
    requires PromotedUpTo(p, i, ms0, ms, n, max, connected, before, sent) && i < |ms| && Room(max, n)
    requires ms[i].qos > 0 && ms[i].state == Invalid
    ensures var m := ms[i].(state := FirstState(ms[i].qos, Invalid));
            var (s, rc) := SendPublish(connected, m);
            if rc != Success then p == Promotion(ms[i := m], n + 1, p.sent, rc) && before + p.sent == sent + s
            else PromotedUpTo(p, i + 1, ms0, ms[i := m], n + 1, max, connected, before, sent + s)
  {
    hide SendPublish, FirstState, Room;
    assert ms0[i..][0] == ms[i] && ms0[i..][1..] == ms0[i + 1..];
    var m := ms[i].(state := FirstState(ms[i].qos, Invalid));
    assert ms[i := m] == ms[..i] + ([m] + ms0[i + 1..]);
    assert ms[i := m][..i + 1] == ms[..i] + [m];
  }

  lemma PromoteEnd(p: Promotion, ms0: seq<Msg>, ms: seq<Msg>, n: int, max: nat, connected: bool,
                   before: seq<Packet>, sent: seq<Packet>)
    requires PromotedUpTo(p, |ms|, ms0, ms, n, max, connected, before, sent)
    ensures p == Promotion(ms, n, p.sent, Success) && before + p.sent == sent
  {
  }

  /** The retry `r` of the list `ms0`, when `i` messages have been looked at. */
  ghost predicate RetriedUpTo(r: (seq<Msg>, seq<Packet>), i: nat, ms0: seq<Msg>, ms: seq<Msg>,
                              connected: bool, retry: nat, now: int, before: seq<Packet>, sent: seq<Packet>)
  {
    i <= |ms| == |ms0| && ms[i..] == ms0[i..]
    && var rest := RetryAll(ms0[i..], connected, retry, now);
       r.0 == ms[..i] + rest.0 && before + r.1 == sent + rest.1
  }

  lemma RetryBegin(ms: seq<Msg>, connected: bool, retry: nat, now: int, sent: seq<Packet>)
    ensures RetriedUpTo(RetryAll(ms, connected, retry, now), 0, ms, ms, connected, retry, now, sent, sent)
  {
  }

  /** One turn of the retry loop. */
  lemma RetryAt(r: (seq<Msg>, seq<Packet>), i: nat, ms0: seq<Msg>, ms: seq<Msg>,
                connected: bool, retry: nat, now: int, before: seq<Packet>, sent: seq<Packet>)
    requires RetriedUpTo(r, i, ms0, ms, connected, retry, now, before, sent) && i < |ms|
    ensures var (m, one) := RetryOne(ms[i], connected, retry, now);
            RetriedUpTo(r, i + 1, ms0, ms[i := m], connected, retry, now, before, sent + one)
  {
    hide RetryOne;
    var m := RetryOne(ms[i], connected, retry, now).0;
    assert ms0[i..][0] == ms[i] && ms0[i..][1..] == ms0[i + 1..];
    var rest := RetryAll(ms0[i + 1..], connected, retry, now);
    assert ms[..i] + ([m] + rest.0) == ms[i := m][..i + 1] + rest.0;
  }

  lemma RetryEnd(r: (seq<Msg>, seq<Packet>), ms0: seq<Msg>, ms: seq<Msg>,
                 connected: bool, retry: nat, now: int, before: seq<Packet>, sent: seq<Packet>)
    requires RetriedUpTo(r, |ms|, ms0, ms, connected, retry, now, before, sent)
    ensures r.0 == ms && before + r.1 == sent
  {
  }

  /** The reset of the list `ms0`, when `i` messages have been looked at. */
  ghost predicate ResetUpTo(i: nat, ms0: seq<Msg>, ms: seq<Msg>, n: int, max: nat) {
    i <= |ms| == |ms0| && ms[i..] == ms0[i..]
    && var rest := ResetOut(ms0[i..], n, max);
       ResetOut(ms0, 0, max).0 == ms[..i] + rest.0 && ResetOut(ms0, 0, max).1 == rest.1
  }

  lemma ResetBegin(ms: seq<Msg>, max: nat)
    ensures ResetUpTo(0, ms, ms, 0, max)
  {
  }

  /** One turn of the reset loop. */
  lemma ResetAt(i: nat, ms0: seq<Msg>, ms: seq<Msg>, n: int, max: nat)
    requires ResetUpTo(i, ms0, ms, n, max) && i < |ms|
    ensures var m := ms[i].(timestamp := 0);
            if !Room(max, n) then ResetUpTo(i + 1, ms0, ms[i := m.(state := Invalid)], n, max)
            else ResetUpTo(i + 1, ms0, ms[i := m.(state := if m.qos == 1 then WaitForPuback else m.state)],
                           n + (if m.qos > 0 then 1 else 0), max)
  {
  }

  lemma ResetEnd(ms0: seq<Msg>, ms: seq<Msg>, n: int, max: nat)
    requires ResetUpTo(|ms|, ms0, ms, n, max)
    ensures ResetOut(ms0, 0, max).0 == ms && ResetOut(ms0, 0, max).1 == n
  {
  }

  /** The first `i` messages of `ms0` have lost their timestamps. */
  ghost predicate UntimedUpTo(i: nat, ms0: seq<Msg>, ms: seq<Msg>) {
    i <= |ms| == |ms0| && forall j :: 0 <= j < |ms| ==> ms[j] == if j < i then ms0[j].(timestamp := 0) else ms0[j]
  }

  lemma UntimedBegin(ms: seq<Msg>)
    ensures UntimedUpTo(0, ms, ms)
  {
  }

  lemma UntimedAt(i: nat, ms0: seq<Msg>, ms: seq<Msg>)
    requires UntimedUpTo(i, ms0, ms) && i < |ms|
    ensures UntimedUpTo(i + 1, ms0, ms[i := ms[i].(timestamp := 0)])
  {
  }

  lemma UntimedEnd(ms0: seq<Msg>, ms: seq<Msg>)
    requires UntimedUpTo(|ms|, ms0, ms)
    ensures ms == Untimed(ms0)
  {
  }
}
