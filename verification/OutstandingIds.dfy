/**
 Ids of outstanding messages over whole runs, for arbitrary packets from the broker: when they are
 distinct, and when the next id is free.
 */
module OutstandingIds {
  import opened Engine
  import opened Mqtt
  import opened Runs
  import Delivery
  import MessageIds
  import Topics

  /** Each message of the list carries the id generated for its publish. */
  predicate Numbered(first: uint16, numbers: seq<nat>, ms: seq<Msg>) {
    forall i :: 0 <= i < |ms| ==>
      ms[i].serial < |numbers| && ms[i].mid == MessageIds.Nth(first, numbers[ms[i].serial])
  }

  /** Publishes got their ids in order; subscribes and unsubscribes got those in between. */
  predicate Counted(first: uint16, h: History) {
    && Numbered(first, h.numbers, h.c.out) && Delivery.Increasing(h.c.out)
    && |h.numbers| == h.c.published && h.c.lastMid == MessageIds.Nth(first, h.generated)
    && (forall n :: 0 <= n < |h.numbers| ==> 0 < h.numbers[n] <= h.generated)
    && (forall n, m :: 0 <= n < m < |h.numbers| ==> h.numbers[n] < h.numbers[m])
  }

  predicate SameNames(a: seq<Msg>, b: seq<Msg>) {
    |a| == |b| && forall i :: 0 <= i < |a| ==> a[i].serial == b[i].serial && a[i].mid == b[i].mid
  }

  lemma {:induction false} PromoteKeepsNames(ms: seq<Msg>, n: int, max: nat, connected: bool)
    ensures SameNames(ms, Promote(ms, n, max, connected).ms)
  {
    if ms != [] {
      PromoteKeepsNames(ms[1..], n + 1, max, connected);
      PromoteKeepsNames(ms[1..], n, max, connected);
    }
  }

  lemma {:induction false} ResetKeepsNames(ms: seq<Msg>, n: int, max: nat)
    ensures SameNames(ms, ResetOut(ms, n, max).0)
  {
    if ms != [] {
      ResetKeepsNames(ms[1..], n + (if ms[0].qos > 0 then 1 else 0), max);
      ResetKeepsNames(ms[1..], n, max);
    }
  }

  /** Nothing changes but the rest of the messages, and perhaps some messages leave. */
  lemma NamesKeepCounted(first: uint16, h: History, t: History)
    requires Counted(first, h) && SameNames(h.c.out, t.c.out)
    requires t.c.lastMid == h.c.lastMid && t.c.published == h.c.published
    requires t.generated == h.generated && t.numbers == h.numbers
    ensures Counted(first, t)
  {
  }

  lemma WithoutKeepsCounted(first: uint16, h: History, k: nat)
    requires Counted(first, h) && k < |h.c.out|
    ensures Counted(first, h.(c := h.c.(out := Without(h.c.out, k))))
  {
    var rest := Without(h.c.out, k);
    assert forall i :: 0 <= i < |rest| ==> rest[i] == h.c.out[if i < k then i else i + 1];
  }

  lemma RemoveKeepsCounted(first: uint16, h: History, mid: uint16)
    requires Counted(first, h)
    ensures Counted(first, h.(c := RemoveOut(h.c, mid).0))
  {
    hide Counted, Promote;
    var c := h.c;
    var k := Find(c.out, mid);
    if k < |c.out| {
      var h1 := h.(c := c.(out := Without(c.out, k)));
      WithoutKeepsCounted(first, h, k);
      PromoteKeepsNames(h1.c.out, c.inflight - (if c.out[k].qos > 0 then 1 else 0), c.max, c.connected);
      NamesKeepCounted(first, h1, h.(c := RemoveOut(c, mid).0));
    }
  }

  lemma NextIs(first: uint16, n: nat)
    ensures MessageIds.Next(MessageIds.Nth(first, n)) == MessageIds.Nth(first, n + 1)
  {
  }

  lemma AppendKeepsNumbered(first: uint16, numbers: seq<nat>, ms: seq<Msg>, m: Msg, more: seq<nat>)
    requires Numbered(first, numbers, ms)
    requires m.serial < |numbers + more| && m.mid == MessageIds.Nth(first, (numbers + more)[m.serial])
    ensures Numbered(first, numbers + more, ms + [m])
  {
  }

  /** A publish either fails its checks, or takes the next id and the next serial. */
  lemma PublishTakesId(c: Client, app: AppMessage, qos: int, now: int)
    ensures var c1 := DoPublish(c, app, qos, now).c;
            if c1.published == c.published then c1 == c
            else c1.published == c.published + 1 && c1.lastMid == MessageIds.Next(c.lastMid)
  {
    hide Topics.ValidTopic, SendPublish;
  }

  lemma PublishKeepsCounted(first: uint16, h: History, app: AppMessage, qos: int, now: int)
    requires Counted(first, h)
    ensures Counted(first, Step(h, Call(app, qos, now)))
  {
    hide MessageIds.Nth, MessageIds.Next, DoPublish;
    NextIs(first, h.generated);
    PublishTakesId(h.c, app, qos, now);
    var o := DoPublish(h.c, app, qos, now);
    Delivery.PublishQueuesOne(h.c, app, qos, now);
    if o.c.out != h.c.out {
      AppendKeepsNumbered(first, h.numbers, h.c.out, o.c.out[|h.c.out|], [h.generated + 1]);
    }
  }

  lemma AskKeepsCounted(first: uint16, h: History, r: Request)
    requires Counted(first, h)
    ensures Counted(first, Step(h, Ask(r)))
  {
    hide MessageIds.Nth, MessageIds.Next;
    NextIs(first, h.generated);
  }

  lemma ReceiveKeepsCounted(first: uint16, h: History, p: Packet, now: int)
    requires Counted(first, h)
    ensures Counted(first, Step(h, Receive(p, now)))
  {
    hide Counted, RemoveOut, Find, Without;
    RemoveKeepsCounted(first, h, p.mid);
    var t := Step(h, Receive(p, now));
    if p.Puback? || p.Pubcomp? {
      NamesKeepCounted(first, h.(c := RemoveOut(h.c, p.mid).0), t);
    } else {
      NamesKeepCounted(first, h, t);
    }
  }

  lemma StepKeepsCounted(first: uint16, h: History, e: Event)
    requires Counted(first, h)
    ensures Counted(first, Step(h, e))
  {
    hide Counted, DoPublish, DoRequest, DoReceive, RetryAll, ResetOut;
    match e
    case Call(app, qos, now) => PublishKeepsCounted(first, h, app, qos, now);
    case Ask(r) => AskKeepsCounted(first, h, r);
    case Receive(p, now) => ReceiveKeepsCounted(first, h, p, now);
    case Retry(now) =>
      Delivery.RetryKeepsIds(h.c, now);
      NamesKeepCounted(first, h, Step(h, e));
    case Reconnect(ok) =>
      ResetKeepsNames(h.c.out, 0, h.c.max);
      NamesKeepCounted(first, h, Step(h, e));
    case Drop => NamesKeepCounted(first, h, Step(h, e));
  }

  lemma {:induction false} RunKeepsCounted(first: uint16, h: History, es: seq<Event>)
    requires Counted(first, h)
    ensures Counted(first, Run(h, es))
    decreases |es|
  {
    if es != [] {
      StepKeepsCounted(first, h, es[0]);
      RunKeepsCounted(first, Step(h, es[0]), es[1..]);
    }
  }

  /** How many ids have been generated since this message got its own. */
  function Age(h: History, m: Msg): int {
    h.generated - if m.serial < |h.numbers| then h.numbers[m.serial] else 0
  }

  /** Every outstanding message has one of the last 65535 ids generated. */
  predicate Recent(h: History) {
    forall i :: 0 <= i < |h.c.out| ==> Age(h, h.c.out[i]) < 65535
  }

  lemma CountedIdsAreDistinct(first: uint16, h: History)
    requires Counted(first, h) && Recent(h)
    ensures Delivery.DistinctMids(h.c.out)
    ensures forall i :: 0 <= i < |h.c.out| ==>
              var m := h.c.out[i];
              m.mid != 0 && (m.mid == MessageIds.Next(h.c.lastMid) <==> Age(h, m) == 65534)
  {
    hide MessageIds.Nth, MessageIds.Next;
    var ms := h.c.out;
    forall i, j | 0 <= i < j < |ms| ensures ms[i].mid != ms[j].mid {
      MessageIds.RecentIdsDiffer(first, h.numbers[ms[i].serial], h.numbers[ms[j].serial]);
    }
    forall i | 0 <= i < |ms|
      ensures ms[i].mid != 0 && (ms[i].mid == MessageIds.Next(h.c.lastMid) <==> Age(h, ms[i]) == 65534)
    {
      NextIs(first, h.generated);
      MessageIds.NthEqualIff(first, h.numbers[ms[i].serial], h.generated + 1);
    }
  }

  /**
   In every run, subscribes and unsubscribes included: while each outstanding message has one of the
   last 65535 ids generated, the ids in the list are distinct, so an acknowledgement finds the message
   it names; and the next id is taken exactly if the oldest of those 65535 is still outstanding.
   */
  lemma RecentIdsAreDistinct(h: History, es: seq<Event>)
    requires New(h) && Recent(Run(h, es))
    ensures var t := Run(h, es);
            && Delivery.DistinctMids(t.c.out)
            && (forall i :: 0 <= i < |t.c.out| ==> t.c.out[i].mid != 0 && Find(t.c.out, t.c.out[i].mid) == i)
            && (Delivery.Look(t.c.out, MessageIds.Next(t.c.lastMid)) == None
                <==> forall i :: 0 <= i < |t.c.out| ==> Age(t, t.c.out[i]) < 65534)
  {
    hide Run, MessageIds.Next;
    RunKeepsCounted(h.c.lastMid, h, es);
    var t := Run(h, es);
    CountedIdsAreDistinct(h.c.lastMid, t);
    forall i | 0 <= i < |t.c.out| ensures Find(t.c.out, t.c.out[i].mid) == i {
      Delivery.FindAt(t.c.out, i);
    }
  }
}
