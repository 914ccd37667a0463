/**
 Messages that belong to no list: QoS 0 in both directions, and incoming QoS 1. Over every run each is
 sent, acknowledged and handed over once, in order, and never repeated.
 */
module Direct {
  import opened Calls
  import opened ClientLists
  import opened ClientRuns
  import opened Engine
  import opened Mqtt
  import opened Runs
  import MessageIds
  import Topics
  import Window

  /** A QoS 0 PUBLISH or a PUBACK. */
  predicate IsDirect(p: Packet) {
    p.Puback? || (p.Publish? && p.qos == 0)
  }

  function DirectOnes(ps: seq<Packet>): seq<Packet> {
    if ps == [] then [] else (if IsDirect(ps[0]) then [ps[0]] else []) + DirectOnes(ps[1..])
  }

  /** The messages of QoS 0 and QoS 1. */
  function Below2(ms: seq<Msg>): seq<Msg> {
    if ms == [] then [] else (if ms[0].qos < 2 then [ms[0]] else []) + Below2(ms[1..])
  }

  // ---- What is due ---------------------------------------------------------------------------------------

  /** A QoS 0 publish with good arguments, while there is a connection, is due as one PUBLISH with the next id. */
  function PublishDue(c: Client, app: AppMessage, qos: int): seq<Packet> {
    if qos == 0 && ArgumentsPass(app, 0) && c.connected && Short(app, 0)
    then [Publish(c.published, MessageIds.Next(c.lastMid), 0, false, app)] else []
  }

  /** A received QoS 1 PUBLISH is due its PUBACK. */
  function AckDue(p: Packet): seq<Packet> {
    if p.Publish? && p.qos == 1 && p.app.topic != [] then [Puback(p.mid)] else []
  }

  function SendDue(c: Client, e: Event): seq<Packet> {
    match e
    case Call(app, qos, _) => PublishDue(c, app, qos)
    case Receive(p, _) => AckDue(p)
    case _ => []
  }

  /** A received PUBLISH of QoS 0 or 1 is due at on_message, as it was received. */
  function HandOverDue(e: Event): seq<Msg> {
    if e.Receive? && e.p.Publish? && e.p.qos < 2 && e.p.app.topic != []
    then [Msg(e.p.serial, e.p.mid, e.p.qos, e.p.app, Invalid, e.p.dup, e.now)] else []
  }

  function AllSendsDue(h: History, es: seq<Event>): seq<Packet>
    decreases |es|
  {
    if es == [] then [] else SendDue(h.c, es[0]) + AllSendsDue(Step(h, es[0]), es[1..])
  }

  function AllHandOversDue(es: seq<Event>): seq<Msg> {
    if es == [] then [] else HandOverDue(es[0]) + AllHandOversDue(es[1..])
  }

  /** What has become due since the last reconnect; `so` was due before. */
  function SendsDueSince(h: History, es: seq<Event>, so: seq<Packet>): seq<Packet>
    decreases |es|
  {
    if es == [] then so
    else SendsDueSince(Step(h, es[0]), es[1..], if es[0].Reconnect? then [] else so + SendDue(h.c, es[0]))
  }

  // ---- One step ------------------------------------------------------------------------------------------

  /** Both lists hold only what belongs into them. */
  predicate ListsApart(c: Client) {
    AboveZero(c.out) && Window.InHeld(c.inq)
  }

  predicate AboveZero(ms: seq<Msg>) {
    forall i :: 0 <= i < |ms| ==> ms[i].qos > 0
  }

  predicate NoneDirect(ps: seq<Packet>) {
    forall i :: 0 <= i < |ps| ==> !IsDirect(ps[i])
  }

  lemma {:induction false} NoneLeft(ps: seq<Packet>)
    requires NoneDirect(ps)
    ensures DirectOnes(ps) == []
  {
    if ps != [] {
      NoneLeft(ps[1..]);
    }
  }

  lemma {:induction false} DirectAppend(a: seq<Packet>, b: seq<Packet>)
    ensures DirectOnes(a + b) == DirectOnes(a) + DirectOnes(b)
  {
    if a == [] {
      assert a + b == b;
    } else {
      assert (a + b)[1..] == a[1..] + b;
      DirectAppend(a[1..], b);
    }
  }

  lemma {:induction false} Below2Append(a: seq<Msg>, b: seq<Msg>)
    ensures Below2(a + b) == Below2(a) + Below2(b)
  {
    if a == [] {
      assert a + b == b;
    } else {
      assert (a + b)[1..] == a[1..] + b;
      Below2Append(a[1..], b);
    }
  }

  lemma {:induction false} PromoteIsApart(ms: seq<Msg>, n: int, max: nat, connected: bool)
    requires AboveZero(ms)
    ensures var p := Promote(ms, n, max, connected);
            NoneDirect(p.sent) && AboveZero(p.ms)
  {
    if ms != [] {
      PromoteIsApart(ms[1..], n + 1, max, connected);
      PromoteIsApart(ms[1..], n, max, connected);
      hide Fits;
    }
  }

  lemma {:induction false} ResetIsApart(ms: seq<Msg>, n: int, max: nat)
    requires AboveZero(ms)
    ensures AboveZero(ResetOut(ms, n, max).0)
  {
    if ms != [] {
      ResetIsApart(ms[1..], n + (if ms[0].qos > 0 then 1 else 0), max);
      ResetIsApart(ms[1..], n, max);
    }
  }

  lemma RetryOneIsApart(m: Msg, connected: bool, retry: nat, now: int)
    requires m.qos > 0
    ensures NoneDirect(RetryOne(m, connected, retry, now).1)
  {
    hide Fits;
    var sent := RetryOne(m, connected, retry, now).1;
    assert |sent| <= 1;
    if sent != [] {
      assert sent[0].Pubrec? || sent[0].Pubrel? || (sent[0].Publish? && sent[0].qos == m.qos);
    }
  }

  lemma {:induction false} RetryIsApart(ms: seq<Msg>, connected: bool, retry: nat, now: int)
    requires AboveZero(ms)
    ensures NoneDirect(RetryAll(ms, connected, retry, now).1)
  {
    if ms != [] {
      RetryOneIsApart(ms[0], connected, retry, now);
      hide RetryOne, IsDirect;
      RetryIsApart(ms[1..], connected, retry, now);
    }
  }

  lemma RetryKeepsRest(m: Msg, connected: bool, retry: nat, now: int)
    ensures var m1 := RetryOne(m, connected, retry, now).0; m1.qos == m.qos && m1.state == m.state
  {
    hide SendPublish;
  }

  lemma NoneAppend(a: seq<Packet>, b: seq<Packet>)
    requires NoneDirect(a) && NoneDirect(b)
    ensures NoneDirect(a + b)
  {
    hide IsDirect;
  }

  lemma RetryKeepsApart(c: Client, now: int)
    requires ListsApart(c)
    ensures ListsApart(DoRetry(c, now).c) && NoneDirect(DoRetry(c, now).sent)
  {
    hide RetryOne, NoneDirect;
    RetryIsApart(c.out, c.connected, c.retry, now);
    RetryIsApart(c.inq, c.connected, c.retry, now);
    NoneAppend(RetryAll(c.out, c.connected, c.retry, now).1, RetryAll(c.inq, c.connected, c.retry, now).1);
    forall i | 0 <= i < |c.out| ensures RetryOne(c.out[i], c.connected, c.retry, now).0.qos > 0 {
      RetryKeepsRest(c.out[i], c.connected, c.retry, now);
    }
    forall i | 0 <= i < |c.inq|
      ensures var m := RetryOne(c.inq[i], c.connected, c.retry, now).0; m.qos == 2 && m.state == WaitForPubrel
    {
      RetryKeepsRest(c.inq[i], c.connected, c.retry, now);
    }
  }

  lemma RemoveIsApart(c: Client, mid: uint16)
    requires ListsApart(c)
    ensures ListsApart(RemoveOut(c, mid).0) && NoneDirect(RemoveOut(c, mid).1)
  {
    var k := Find(c.out, mid);
    if k < |c.out| {
      PromoteIsApart(Without(c.out, k), c.inflight - (if c.out[k].qos > 0 then 1 else 0), c.max, c.connected);
    }
    hide Promote;
  }

  lemma PublishSendsDue(c: Client, app: AppMessage, qos: int, now: int)
    requires ListsApart(c)
    ensures var o := DoPublish(c, app, qos, now);
            && ListsApart(o.c) && o.onMessage == []
            && (qos == 0 ==> o.sent == PublishDue(c, app, qos)) && (qos != 0 ==> NoneDirect(o.sent))
  {
    if !ArgumentsPass(app, qos) {
      BadPublish(c, app, qos, now);
    } else if qos == 0 {
      PublishWithoutAck(c, app, now);
    } else {
      PublishWithAck(c, app, qos, now);
    }
    hide DoPublish, Topics.ValidTopic, MessageIds.Next;
  }

  /** Anything received sends the PUBACK that is due and nothing else of this kind, and hands over what is due. */
  lemma ReceiveSendsDue(c: Client, p: Packet, now: int)
    requires ListsApart(c)
    ensures var o := DoReceive(c, p, now);
            && ListsApart(o.c)
            && (if p.Publish? && p.qos == 1 then o.sent == AckDue(p) else NoneDirect(o.sent))
            && (if p.Publish? then o.onMessage == HandOverDue(Receive(p, now))
                else |o.onMessage| <= 1 && forall i :: 0 <= i < |o.onMessage| ==> o.onMessage[i].qos == 2)
  {
    RemoveIsApart(c, p.mid);
    hide RemoveOut;
  }

  /** Each event sends what is due, and hands over what is due. */
  lemma StepIsDue(h: History, e: Event)
    requires ListsApart(h.c)
    ensures DoesWhatIsDue(h, e)
  {
    match e
    case Call(_, _, _) => CallIsDue(h, e);
    case Receive(_, _) => ReceiveIsDue(h, e);
    case _ => OtherIsDue(h, e);
  }

  predicate DoesWhatIsDue(h: History, e: Event) {
    var t := Step(h, e);
    && ListsApart(t.c)
    && DirectOnes(t.log) == DirectOnes(h.log) + SendDue(h.c, e)
    && DirectOnes(t.sent) == (if e.Reconnect? then [] else DirectOnes(h.sent) + SendDue(h.c, e))
    && Below2(t.given) == Below2(h.given) + HandOverDue(e)
  }

  lemma CallIsDue(h: History, e: Event)
    requires ListsApart(h.c) && e.Call?
    ensures DoesWhatIsDue(h, e)
  {
    hide ListsApart, DoPublish, Below2, Short, ArgumentsPass, MessageIds.Next;
    var o := DoPublish(h.c, e.app, e.qos, e.now);
    PublishSendsDue(h.c, e.app, e.qos, e.now);
    Queues(h, Step(h, e), o, SendDue(h.c, e));
    assert h.given + [] == h.given;
  }

  lemma ReceiveIsDue(h: History, e: Event)
    requires ListsApart(h.c) && e.Receive?
    ensures DoesWhatIsDue(h, e)
  {
    hide ListsApart, DoReceive;
    var o := DoReceive(h.c, e.p, e.now);
    ReceiveSendsDue(h.c, e.p, e.now);
    Queues(h, Step(h, e), o, SendDue(h.c, e));
    Below2Append(h.given, o.onMessage);
  }

  lemma OtherIsDue(h: History, e: Event)
    requires ListsApart(h.c) && !e.Call? && !e.Receive?
    ensures DoesWhatIsDue(h, e)
  {
    hide Below2, RetryAll, ResetOut, Topics.ValidFilter, MessageIds.Next;
    var t := Step(h, e);
    assert h.given + [] == h.given;
    match e
    case Ask(r) => Queues(h, t, DoRequest(h.c, r), []);
    case Retry(now) =>
      RetryKeepsApart(h.c, now);
      Queues(h, t, DoRetry(h.c, now), []);
    case Reconnect(ok) =>
      ResetIsApart(h.c.out, 0, h.c.max);
      assert t.log == h.log && t.sent == [] && t.given == h.given && DirectOnes(h.log) + [] == DirectOnes(h.log);
      assert ListsApart(t.c);
    case Drop =>
  }

  lemma StepKeepsApart(h: History, e: Event)
    requires ListsApart(h.c)
    ensures ListsApart(Step(h, e).c)
  {
    StepIsDue(h, e);
  }

  lemma Queues(h: History, t: History, o: Outcome, due: seq<Packet>)
    requires t.log == h.log + o.sent && t.sent == h.sent + o.sent
    requires (NoneDirect(o.sent) && due == []) || (o.sent == due && DirectOnes(due) == due)
    ensures DirectOnes(t.log) == DirectOnes(h.log) + due && DirectOnes(t.sent) == DirectOnes(h.sent) + due
  {
    DirectAppend(h.log, o.sent);
    DirectAppend(h.sent, o.sent);
    if NoneDirect(o.sent) && due == [] {
      NoneLeft(o.sent);
    }
  }

  // ---- Runs ----------------------------------------------------------------------------------------------

  lemma {:induction false} RunIsDue(h: History, es: seq<Event>)
    requires ListsApart(h.c)
    ensures var t := Run(h, es);
            && DirectOnes(t.log) == DirectOnes(h.log) + AllSendsDue(h, es)
            && DirectOnes(t.sent) == SendsDueSince(h, es, DirectOnes(h.sent))
            && Below2(t.given) == Below2(h.given) + AllHandOversDue(es)
    decreases |es|
  {
    hide ListsApart, Step, SendDue, HandOverDue, DirectOnes, Below2;
    if es != [] {
      StepIsDue(h, es[0]);
      RunIsDue(Step(h, es[0]), es[1..]);
    }
  }

  /**
   In every run, reconnects included: the QoS 0 PUBLISHes and PUBACKs ever queued are one for each QoS 0
   publish that could be sent and one for each QoS 1 PUBLISH received, in order and with their contents;
   those queued since the last reconnect are the ones due since then; and the QoS 0 and QoS 1 messages
   passed to on_message are the ones received, in order and unchanged.
   */
  lemma DirectMessages(h: History, es: seq<Event>)
    requires New(h)
    ensures var t := Run(h, es);
            && DirectOnes(t.log) == AllSendsDue(h, es) && DirectOnes(t.sent) == SendsDueSince(h, es, [])
            && Below2(t.given) == AllHandOversDue(es)
  {
    RunIsDue(h, es);
  }

  /** The linked-list client does the same. */
  method SendsAndDeliversWhatIsDue(client: Mosquitto, es: seq<Event>, ghost h: History)
    requires Follows(client, h) && New(h) && Possible(h, es)
    modifies Parts(client)
    ensures client.Valid()
    ensures DirectOnes(client.sent) == SendsDueSince(h, es, []) && Below2(client.delivered) == AllHandOversDue(es)
  {
    DirectMessages(h, es);
    Drive(client, es, h);
  }
}
