/** Whole runs of the client, read at the other end of the connection. */
module Arrivals {
  import opened Engine
  import opened Frames
  import opened Mqtt
  import opened Runs
  import Calls
  import Direct
  import PacketQueue
  import PacketReader
  import PublishPipeline
  import Topics

  /** Topics of publishes are C strings. */
  predicate CStrings(es: seq<Event>) {
    forall i :: 0 <= i < |es| && es[i].Call? ==> 0 !in es[i].app.topic
  }

  /** Topics of listed messages have passed the checks. */
  predicate GoodTopics(ms: seq<Msg>) {
    forall i :: 0 <= i < |ms| ==> GoodTopic(ms[i].app)
  }

  predicate GoodTopic(app: AppMessage) {
    0 < |app.topic| <= MAX_FIELD && 0 !in app.topic
  }

  predicate AllSound(ps: seq<Packet>) {
    forall i :: 0 <= i < |ps| ==> Sound(ps[i])
  }

  lemma SendPublishIsSound(connected: bool, m: Msg)
    requires GoodTopic(m.app)
    ensures AllSound(SendPublish(connected, m).0)
  {
  }

  lemma AppendSound(a: seq<Packet>, b: seq<Packet>)
    requires AllSound(a) && AllSound(b)
    ensures AllSound(a + b)
  {
    hide Sound;
  }

  lemma {:induction false} PromoteIsSound(ms: seq<Msg>, n: int, max: nat, connected: bool)
    requires GoodTopics(ms)
    ensures var p := Promote(ms, n, max, connected); AllSound(p.sent) && GoodTopics(p.ms)
    decreases |ms|
  {
    if ms != [] && Room(max, n) {
      assert GoodTopic(ms[0].app) && GoodTopics(ms[1..]);
      var m := ms[0].(state := FirstState(ms[0].qos, Invalid));
      SendPublishIsSound(connected, m);
      PromoteIsSound(ms[1..], n + 1, max, connected);
      PromoteIsSound(ms[1..], n, max, connected);
      AppendSound(SendPublish(connected, m).0, Promote(ms[1..], n + 1, max, connected).sent);
      hide SendPublish, Sound, GoodTopic;
    }
  }

  lemma {:induction false} ResetKeepsTopics(ms: seq<Msg>, n: int, max: nat)
    requires GoodTopics(ms)
    ensures GoodTopics(ResetOut(ms, n, max).0)
  {
    hide GoodTopic;
    if ms != [] {
      assert GoodTopics(ms[1..]) && GoodTopic(ms[0].app);
      ResetKeepsTopics(ms[1..], n + (if ms[0].qos > 0 then 1 else 0), max);
      ResetKeepsTopics(ms[1..], n, max);
    }
  }

  lemma RetryOneIsSound(m: Msg, connected: bool, retry: nat, now: int)
    requires GoodTopic(m.app) || m.state == WaitForPubrel
    ensures AllSound(RetryOne(m, connected, retry, now).1) && RetryOne(m, connected, retry, now).0.app == m.app
  {
    hide PublishPipeline.Publishable, GoodTopic, SendPublish;
    if m.state != WaitForPubrel {
      SendPublishIsSound(connected, m.(timestamp := now, dup := true));
    }
  }

  lemma {:induction false} RetryIsSound(ms: seq<Msg>, connected: bool, retry: nat, now: int)
    requires forall i :: 0 <= i < |ms| ==> GoodTopic(ms[i].app) || ms[i].state == WaitForPubrel
    ensures AllSound(RetryAll(ms, connected, retry, now).1)
  {
    if ms != [] {
      RetryOneIsSound(ms[0], connected, retry, now);
      RetryIsSound(ms[1..], connected, retry, now);
      AppendSound(RetryOne(ms[0], connected, retry, now).1, RetryAll(ms[1..], connected, retry, now).1);
    }
  }

  lemma RetryPassIsSound(c: Client, now: int)
    requires Direct.ListsApart(c) && GoodTopics(c.out)
    ensures AllSound(DoRetry(c, now).sent) && GoodTopics(DoRetry(c, now).c.out)
  {
    hide Sound, GoodTopic;
    RetryIsSound(c.out, c.connected, c.retry, now);
    RetryIsSound(c.inq, c.connected, c.retry, now);
    AppendSound(RetryAll(c.out, c.connected, c.retry, now).1, RetryAll(c.inq, c.connected, c.retry, now).1);
    forall i | 0 <= i < |c.out| ensures RetryOne(c.out[i], c.connected, c.retry, now).0.app == c.out[i].app {
      RetryOneIsSound(c.out[i], c.connected, c.retry, now);
    }
    hide RetryOne;
  }

  lemma PublishIsSound(c: Client, app: AppMessage, qos: int, now: int)
    requires GoodTopics(c.out) && 0 !in app.topic
    ensures AllSound(DoPublish(c, app, qos, now).sent) && GoodTopics(DoPublish(c, app, qos, now).c.out)
  {
    if !Calls.ArgumentsPass(app, qos) {
      Calls.BadPublish(c, app, qos, now);
    } else if qos == 0 {
      Calls.PublishWithoutAck(c, app, now);
    } else {
      Calls.PublishWithAck(c, app, qos, now);
    }
    hide DoPublish, Topics.Literal;
  }

  lemma ReceiveIsSound(c: Client, p: Packet, now: int)
    requires GoodTopics(c.out)
    ensures AllSound(DoReceive(c, p, now).sent) && GoodTopics(DoReceive(c, p, now).c.out)
  {
    hide PublishPipeline.Publishable, GoodTopic, Promote;
    var k := Find(c.out, p.mid);
    if k < |c.out| {
      PromoteIsSound(Without(c.out, k), c.inflight - (if c.out[k].qos > 0 then 1 else 0), c.max, c.connected);
    }
  }

  lemma StepIsSound(h: History, e: Event)
    requires Direct.ListsApart(h.c) && GoodTopics(h.c.out) && AllSound(h.log) && AllSound(h.sent) && CStrings([e])
    ensures var t := Step(h, e); GoodTopics(t.c.out) && AllSound(t.log) && AllSound(t.sent)
  {
    hide GoodTopics, AllSound, Direct.ListsApart, DoPublish, DoReceive, DoRetry, DoRequest;
    match e
    case Call(app, qos, now) =>
      assert CStrings([e]) ==> 0 !in [e][0].app.topic;
      PublishIsSound(h.c, app, qos, now);
      AppendSound(h.log, DoPublish(h.c, app, qos, now).sent);
      AppendSound(h.sent, DoPublish(h.c, app, qos, now).sent);
    case Ask(r) =>
      RequestIsSound(h.c, r);
      AppendSound(h.log, DoRequest(h.c, r).sent);
      AppendSound(h.sent, DoRequest(h.c, r).sent);
    case Receive(p, now) =>
      ReceiveIsSound(h.c, p, now);
      AppendSound(h.log, DoReceive(h.c, p, now).sent);
      AppendSound(h.sent, DoReceive(h.c, p, now).sent);
    case Retry(now) =>
      RetryPassIsSound(h.c, now);
      AppendSound(h.log, DoRetry(h.c, now).sent);
      AppendSound(h.sent, DoRetry(h.c, now).sent);
    case Reconnect(ok) =>
      ResetKeepsTopics(h.c.out, 0, h.c.max);
      NothingIsSound();
    case Drop =>
  }

  lemma NothingIsSound()
    ensures AllSound([])
  {
  }

  lemma RequestIsSound(c: Client, r: Request)
    requires GoodTopics(c.out)
    ensures AllSound(DoRequest(c, r).sent) && GoodTopics(DoRequest(c, r).c.out)
  {
    hide Topics.LevelsOk, Topics.Levels, GoodTopic;
  }

  lemma {:induction false} RunIsSound(h: History, es: seq<Event>)
    requires Direct.ListsApart(h.c) && GoodTopics(h.c.out) && AllSound(h.log) && AllSound(h.sent) && CStrings(es)
    ensures AllSound(Run(h, es).log) && AllSound(Run(h, es).sent)
    decreases |es|
  {
    if es != [] {
      assert CStrings([es[0]]) && CStrings(es[1..]);
      hide Direct.ListsApart, GoodTopics, AllSound, Step, CStrings, Direct.DirectOnes, Direct.Below2;
      StepIsSound(h, es[0]);
      Direct.StepKeepsApart(h, es[0]);
      RunIsSound(Step(h, es[0]), es[1..]);
    }
  }

  /** Whatever happens, everything the client queues can be built and is read back by the peer. */
  lemma RunsSendSoundPackets(h: History, es: seq<Event>)
    requires New(h) && CStrings(es)
    ensures AllSound(Run(h, es).log) && AllSound(Run(h, es).sent)
  {
    RunIsSound(h, es);
  }

  /**
   The whole way: a run of the client, its packets built and queued since the last reconnect, partial writes,
   and the peer. It reads what the client has sent, in order; once the queue has been written, all of it.
   */
  lemma RunsArrive(h: History, es: seq<Event>, o: PacketQueue.Out, ops: seq<PacketQueue.Op>, t: PacketQueue.Out)
    requires New(h) && CStrings(es) && o == PacketQueue.Out(None, 0, [], true, [], []) && PacketQueue.Run(o, ops, t)
    requires CarryAll(PacketQueue.Enqueued(ops), Run(h, es).sent)
    ensures var got := ReadAll(PacketReader.Parse(t.wire).packets); var sent := Run(h, es).sent;
            && AllSound(sent) && |got| <= |sent| && (forall i :: 0 <= i < |got| ==> got[i] == Some(OnWire(sent[i])))
            && (t.cur.None? && t.queue == [] ==> |got| == |sent| && t.published == UnackedIds(sent))
  {
    hide Run, CarryAll, AllSound, Read, OnWire, PacketQueue.Run, PacketReader.Parse;
    RunsSendSoundPackets(h, es);
    PacketsArrive(o, ops, t, Run(h, es).sent);
  }
}
