/**
 Incoming QoS 2 messages end to end: the client's receiving side composed with a sender that follows
 section 4.3.3 of MQTT 3.1.1, over two FIFO channels.

 The sender keeps its messages until they are acknowledged, repeats them when the client reconnects
 (section 4.4), and uses an id again only when it is free. A reconnect loses everything in transit.
 */
module InboundDelivery {
  import opened Engine
  import opened Inbound
  import opened Mqtt
  import opened Runs
  import Topics
  import Window

  datatype Net = Net(
    h: History,              // the client
    toClient: seq<Packet>,
    toSender: seq<Packet>,
    flights: seq<Msg>,       // the sender's unacknowledged messages, in order
    submitted: seq<Msg>)     // everything it was given to send, in order

  datatype Move =
    | Submit(mid: uint16, app: AppMessage)
    | SenderTake
    | ClientTake(now: int)
    | ClientDoes(e: Event)
    | Other(p: Packet)
    | NewConnection(ok: bool)

  // ---- The transition system ---------------------------------------------------------------------------

  /** The packets of this flow. */
  predicate OfFlow(toClient: bool, p: Packet) {
    if toClient then p.Pubrel? || (p.Publish? && p.qos == 2) else p.Pubrec? || p.Pubcomp?
  }

  predicate CanMove(n: Net, a: Move) {
    match a
    case Submit(mid, app) => app.topic != [] && Find(n.flights, mid) == |n.flights|
    case SenderTake => n.toSender != []
    case ClientTake(_) => n.h.c.connected && n.toClient != []
    case ClientDoes(e) => !e.Receive? && !e.Reconnect? && Enabled(n.h, e)
    case Other(p) => !OfFlow(true, p)
    case NewConnection(_) => true
  }

  /** What the client sends in one step. */
  function Sends(h: History, e: Event): seq<Packet> {
    match e
    case Call(app, qos, now) => DoPublish(h.c, app, qos, now).sent
    case Ask(r) => DoRequest(h.c, r).sent
    case Receive(p, now) => DoReceive(h.c, p, now).sent
    case Retry(now) => DoRetry(h.c, now).sent
    case _ => []
  }

  function ClientStep(n: Net, e: Event): Net {
    n.(h := Step(n.h, e), toSender := n.toSender + Sends(n.h, e))
  }

  /** The sender handles a PUBREC or PUBCOMP; one it does not expect is ignored. */
  function Handle(n: Net, p: Packet): Net {
    var k := Find(n.flights, p.mid);
    if k == |n.flights| then n
    else if p.Pubrec? then
      n.(flights := n.flights[k := n.flights[k].(state := WaitForPubcomp)],
         toClient := n.toClient + [Pubrel(n.flights[k].serial, p.mid, 2)])
    else if p.Pubcomp? && n.flights[k].state == WaitForPubcomp then n.(flights := Without(n.flights, k))
    else n
  }

  /** What the sender repeats for a message after a reconnect. */
  function Repeat(m: Msg): Packet {
    if m.state == WaitForPubcomp then Pubrel(m.serial, m.mid, 2) else ToPublish(m.(dup := true))
  }

  function RepeatAll(ms: seq<Msg>): seq<Packet> {
    if ms == [] then [] else [Repeat(ms[0])] + RepeatAll(ms[1..])
  }

  function After(n: Net, a: Move): Net
    requires CanMove(n, a)
  {
    match a
    case Submit(mid, app) =>
      var m := Msg(|n.submitted|, mid, 2, app, WaitForPubrec, false, 0);
      n.(flights := n.flights + [m], submitted := n.submitted + [m], toClient := n.toClient + [ToPublish(m)])
    case SenderTake => Handle(n.(toSender := n.toSender[1..]), n.toSender[0])
    case ClientTake(now) => ClientStep(n.(toClient := n.toClient[1..]), Receive(n.toClient[0], now))
    case ClientDoes(e) => ClientStep(n, e)
    case Other(p) => n.(toClient := n.toClient + [p])
    case NewConnection(ok) => n.(h := Step(n.h, Reconnect(ok)), toSender := [], toClient := RepeatAll(n.flights))
  }

  predicate Start(n: Net) {
    New(n.h) && n.toClient == [] && n.toSender == [] && n.flights == [] && n.submitted == []
  }

  predicate Moves(n: Net, ms: seq<Move>, t: Net)
    decreases |ms|
  {
    if ms == [] then n == t else CanMove(n, ms[0]) && Moves(After(n, ms[0]), ms[1..], t)
  }

  /** The client is about to take a QoS 2 PUBLISH under an id that it still holds. */
  predicate TakesHeld(n: Net, a: Move, mid: uint16) {
    a.ClientTake? && n.toClient != []
    && var p := n.toClient[0]; Accepted(p) && p.mid == mid && Find(n.h.c.inq, mid) < |n.h.c.inq|
  }

  predicate NeverTakesHeld(n: Net, ms: seq<Move>, mid: uint16)
    decreases |ms|
  {
    ms == [] || !CanMove(n, ms[0]) || (!TakesHeld(n, ms[0], mid) && NeverTakesHeld(After(n, ms[0]), ms[1..], mid))
  }

  // ---- One id ------------------------------------------------------------------------------------------

  predicate Mine(toClient: bool, mid: uint16, p: Packet) {
    p.mid == mid && OfFlow(toClient, p)
  }

  function Pick(toClient: bool, mid: uint16, ch: seq<Packet>): seq<Packet> {
    if ch == [] then []
    else (if Mine(toClient, mid, ch[0]) then [ch[0]] else []) + Pick(toClient, mid, ch[1..])
  }

  function Flight(ms: seq<Msg>, mid: uint16): Option<Msg> {
    var k := Find(ms, mid);
    if k < |ms| then Some(ms[k]) else None
  }

  /** What concerns one id: the message in flight, its packets, and what the client holds, took and was to get. */
  datatype View = View(f: Option<Msg>, u: seq<Packet>, d: seq<Packet>, held: seq<Content>, taken: seq<Content>,
    sub: seq<Content>)

  function See(n: Net, mid: uint16): View {
    View(Flight(n.flights, mid), Pick(true, mid, n.toClient), Pick(false, mid, n.toSender),
         Of(n.h.c.inq, mid), Of(n.h.taken, mid), Of(n.submitted, mid))
  }

  predicate IsPub(p: Packet, m: Msg) {
    p.Publish? && p.qos == 2 && p.serial == m.serial && p.app == m.app
  }

  predicate IsRel(p: Packet) {
    p.Pubrel? && p.flags == 2
  }

  predicate AllPubs(u: seq<Packet>, m: Msg) {
    forall i :: 0 <= i < |u| ==> IsPub(u[i], m)
  }

  predicate AllRels(u: seq<Packet>) {
    forall i :: 0 <= i < |u| ==> IsRel(u[i])
  }

  predicate Mixed(u: seq<Packet>, m: Msg) {
    forall i :: 0 <= i < |u| ==> IsPub(u[i], m) || IsRel(u[i])
  }

  predicate RelsFirst(u: seq<Packet>) {
    forall i, j :: 0 <= i < j < |u| && u[i].Publish? ==> u[j].Publish?
  }

  predicate PubsFirst(u: seq<Packet>) {
    forall i, j :: 0 <= i < j < |u| && u[i].Pubrel? ==> u[j].Pubrel?
  }

  predicate AllComps(d: seq<Packet>) {
    forall i :: 0 <= i < |d| ==> d[i].Pubcomp?
  }

  predicate AllRecs(d: seq<Packet>) {
    forall i :: 0 <= i < |d| ==> d[i].Pubrec?
  }

  predicate CompsFirst(d: seq<Packet>) {
    forall i, j :: 0 <= i < j < |d| && d[i].Pubrec? ==> d[j].Pubrec?
  }

  predicate RecsFirst(d: seq<Packet>) {
    forall i, j :: 0 <= i < j < |d| && d[i].Pubcomp? ==> d[j].Pubcomp?
  }

  predicate Acks(d: seq<Packet>) {
    forall i :: 0 <= i < |d| ==> d[i].Pubrec? || d[i].Pubcomp?
  }

  /** What holds of one id as long as the client has taken no PUBLISH under it while holding it. */
  predicate Good(v: View) {
    match v.f
    case None => v.held == [] && v.taken == v.sub && AllRels(v.u) && AllComps(v.d)
    case Some(m) =>
      var c := ContentOf(m);
      && m.app.topic != []
      && if m.state == WaitForPubrec then
           || (v.held == [] && v.taken + [c] == v.sub && Mixed(v.u, m) && RelsFirst(v.u) && AllComps(v.d))
           || (v.held == [c] && v.taken == v.sub && v.sub != [] && v.sub[|v.sub| - 1] == c
               && AllPubs(v.u, m) && Acks(v.d) && CompsFirst(v.d))
         else
           && m.state == WaitForPubcomp && v.taken == v.sub && v.sub != [] && v.sub[|v.sub| - 1] == c
           && ((v.held == [c] && Mixed(v.u, m) && PubsFirst(v.u) && AllRecs(v.d))
               || (v.held == [] && AllRels(v.u) && Acks(v.d) && RecsFirst(v.d)))
  }

  // ---- The steps, as one id sees them --------------------------------------------------------------------

  lemma {:induction false} PickAppend(toClient: bool, mid: uint16, a: seq<Packet>, b: seq<Packet>)
    ensures Pick(toClient, mid, a + b) == Pick(toClient, mid, a) + Pick(toClient, mid, b)
  {
    if a == [] {
      assert a + b == b;
    } else {
      var ab := a + b;
      var first := if Mine(toClient, mid, a[0]) then [a[0]] else [];
      assert Pick(toClient, mid, ab) == first + Pick(toClient, mid, ab[1..]);
      assert Pick(toClient, mid, a) == first + Pick(toClient, mid, a[1..]);
      hide Pick, Mine;
      assert ab[1..] == a[1..] + b;
      PickAppend(toClient, mid, a[1..], b);
    }
  }

  lemma PickOne(toClient: bool, mid: uint16, p: Packet)
    ensures Pick(toClient, mid, [p]) == if Mine(toClient, mid, p) then [p] else []
  {
    assert [p][1..] == [];
  }

  lemma {:induction false} PickNone(toClient: bool, mid: uint16, ch: seq<Packet>)
    requires forall i :: 0 <= i < |ch| ==> !Mine(toClient, mid, ch[i])
    ensures Pick(toClient, mid, ch) == []
  {
    if ch != [] {
      PickNone(toClient, mid, ch[1..]);
    }
  }

  lemma PickHead(toClient: bool, mid: uint16, ch: seq<Packet>)
    requires ch != []
    ensures var rest := Pick(toClient, mid, ch[1..]);
            Pick(toClient, mid, ch) == if Mine(toClient, mid, ch[0]) then [ch[0]] + rest else rest
  {
  }

  lemma {:induction false} PickRepeats(ms: seq<Msg>, mid: uint16)
    requires forall i :: 0 <= i < |ms| ==> ms[i].qos == 2
    requires forall i, j :: 0 <= i < j < |ms| ==> ms[i].mid != ms[j].mid
    ensures Pick(true, mid, RepeatAll(ms)) == if Flight(ms, mid).Some? then [Repeat(Flight(ms, mid).value)] else []
  {
    if ms != [] {
      PickHead(true, mid, RepeatAll(ms));
      assert RepeatAll(ms)[1..] == RepeatAll(ms[1..]);
      PickRepeats(ms[1..], mid);
      if ms[0].mid == mid {
        assert Find(ms[1..], mid) == |ms| - 1;
      }
    }
  }

  /** The sender's messages have QoS 2 and distinct ids; they and the submitted ones are numbered. */
  predicate SenderOk(n: Net) {
    && (forall i :: 0 <= i < |n.flights| ==> n.flights[i].qos == 2)
    && (forall i, j :: 0 <= i < j < |n.flights| ==> n.flights[i].mid != n.flights[j].mid)
    && (forall i :: 0 <= i < |n.submitted| ==> n.submitted[i].serial == i)
  }

  lemma FlightAppend(ms: seq<Msg>, m: Msg, mid: uint16)
    requires Find(ms, m.mid) == |ms|
    ensures Flight(ms + [m], mid) == if m.mid == mid then Some(m) else Flight(ms, mid)
  {
    var k := Find(ms, mid);
    assert forall i :: 0 <= i < |ms| ==> (ms + [m])[i] == ms[i];
    assert (ms + [m])[|ms|] == m;
    FindIs(ms + [m], mid, if k < |ms| then k else if m.mid == mid then |ms| else |ms| + 1);
  }

  lemma FindIs(ms: seq<Msg>, mid: uint16, k: nat)
    requires k <= |ms| && (k < |ms| ==> ms[k].mid == mid) && forall i :: 0 <= i < k ==> ms[i].mid != mid
    ensures Find(ms, mid) == k
  {
  }

  lemma SubmitSeen(n: Net, a: Move, mid: uint16)
    requires CanMove(n, a) && a.Submit? && Good(See(n, mid))
    ensures Good(See(After(n, a), mid))
  {
    var m := Msg(|n.submitted|, a.mid, 2, a.app, WaitForPubrec, false, 0);
    hide Find, Flight, Of, Pick, Good;
    var v := See(n, mid);
    FlightAppend(n.flights, m, mid);
    PickAppend(true, mid, n.toClient, [ToPublish(m)]);
    PickOne(true, mid, ToPublish(m));
    OfAppend(n.submitted, [m], mid);
    OfOne(m, mid);
    if a.mid == mid {
      FreeId(n, mid);
      SubmitGood(v, m);
    } else {
      assert v.sub + [] == v.sub && v.u + [] == v.u;
    }
  }

  lemma SubmitGood(v: View, m: Msg)
    requires Good(v) && v.f == None && m.qos == 2 && m.state == WaitForPubrec && m.app.topic != []
    ensures Good(v.(f := Some(m), u := v.u + [ToPublish(m)], sub := v.sub + [ContentOf(m)]))
  {
  }

  lemma FreeId(n: Net, mid: uint16)
    requires Find(n.flights, mid) == |n.flights|
    ensures Flight(n.flights, mid) == None
  {
  }

  lemma OfOne(m: Msg, mid: uint16)
    ensures Of([m], mid) == if m.mid == mid then [ContentOf(m)] else []
  {
    assert [m][1..] == [];
  }

  /** The sender handling a packet for this id. */
  lemma HandleGood(v: View)
    requires Good(v) && v.d != [] && (v.d[0].Pubrec? || v.d[0].Pubcomp?)
    ensures v.d[0].Pubrec? ==> v.f.Some?
    ensures v.d[0].Pubrec? ==>
              forall p :: IsRel(p) ==>
                Good(v.(f := Some(v.f.value.(state := WaitForPubcomp)), u := v.u + [p], d := v.d[1..]))
    ensures v.d[0].Pubcomp? && v.f.Some? && v.f.value.state == WaitForPubcomp ==> Good(v.(f := None, d := v.d[1..]))
    ensures v.d[0].Pubcomp? && (v.f.Some? ==> v.f.value.state != WaitForPubcomp) ==> Good(v.(d := v.d[1..]))
  {
  }

  lemma FlightUpdate(ms: seq<Msg>, k: nat, m: Msg, mid: uint16)
    requires k < |ms| && m.mid == ms[k].mid && k == Find(ms, m.mid)
    ensures Flight(ms[k := m], mid) == if m.mid == mid then Some(m) else Flight(ms, mid)
  {
    FindIs(ms[k := m], mid, Find(ms, mid));
  }

  lemma FlightWithout(ms: seq<Msg>, k: nat, mid: uint16)
    requires k < |ms| && forall i, j :: 0 <= i < j < |ms| ==> ms[i].mid != ms[j].mid
    ensures Flight(Without(ms, k), mid) == if ms[k].mid == mid then None else Flight(ms, mid)
  {
    Window.WithoutAt(ms, k);
    hide Without;
    var j := Find(ms, mid);
    FindIs(Without(ms, k), mid, if j == |ms| || j == k then |ms| - 1 else if j < k then j else j - 1);
  }

  lemma SenderTakeSeen(n: Net, mid: uint16)
    requires CanMove(n, SenderTake) && Good(See(n, mid)) && SenderOk(n)
    ensures Good(See(After(n, SenderTake), mid))
  {
    hide Find, Of, Pick, Good;
    var p := n.toSender[0];
    var v := See(n, mid);
    PickHead(false, mid, n.toSender);
    var k := Find(n.flights, p.mid);
    if k < |n.flights| && p.Pubrec? {
      var m := n.flights[k].(state := WaitForPubcomp);
      FlightUpdate(n.flights, k, m, mid);
      PickAppend(true, mid, n.toClient, [Pubrel(m.serial, p.mid, 2)]);
      PickOne(true, mid, Pubrel(m.serial, p.mid, 2));
    } else if k < |n.flights| && p.Pubcomp? && n.flights[k].state == WaitForPubcomp {
      FlightWithout(n.flights, k, mid);
    }
    assert v.u + [] == v.u;
    if Mine(false, mid, p) {
      HandleGood(v);
    }
  }

  lemma {:induction false} OfEmptyIff(ms: seq<Msg>, mid: uint16)
    ensures Of(ms, mid) == [] <==> Find(ms, mid) == |ms|
  {
    if ms != [] {
      OfEmptyIff(ms[1..], mid);
    }
  }

  /** A PUBREL takes the first message with its id off the list, and is answered with PUBCOMP. */
  lemma PubrelSeen(h: History, p: Packet, now: int, mid: uint16)
    requires IsRel(p)
    ensures var t := Step(h, Receive(p, now)); var held := Of(h.c.inq, mid);
            && t.taken == h.taken && Sends(h, Receive(p, now)) == [Pubcomp(p.mid)]
            && Of(t.c.inq, mid) == if p.mid == mid && held != [] then held[1..] else held
  {
    var k := Find(h.c.inq, p.mid);
    OfEmptyIff(h.c.inq, mid);
    if k < |h.c.inq| {
      OfWithout(h.c.inq, k, mid);
      hide Of, Find, Without;
      if p.mid == mid {
        var c, rest := ContentOf(h.c.inq[k]), Of(Without(h.c.inq, k), mid);
        assert Of(h.c.inq, mid) == [c] + rest && ([c] + rest)[1..] == rest;
      } else {
        assert [] + Of(Without(h.c.inq, k), mid) == Of(Without(h.c.inq, k), mid);
      }
    }
  }

  /** A QoS 2 PUBLISH is queued and answered with PUBREC. */
  lemma PublishSeen(h: History, p: Packet, now: int, mid: uint16)
    requires Accepted(p)
    ensures var t := Step(h, Receive(p, now)); var more := if p.mid == mid then [Content(p.serial, p.app)] else [];
            && Of(t.c.inq, mid) == Of(h.c.inq, mid) + more && Of(t.taken, mid) == Of(h.taken, mid) + more
            && Sends(h, Receive(p, now)) == [Pubrec(p.mid)]
  {
    var t := Step(h, Receive(p, now));
    var m := t.c.inq[|h.c.inq|];
    assert t.c.inq == h.c.inq + [m] && t.taken == h.taken + [m];
    OfAppend(h.c.inq, [m], mid);
    OfAppend(h.taken, [m], mid);
    OfOne(m, mid);
  }

  /** Packets for another id do not touch this one. */
  lemma OtherIdSeen(h: History, p: Packet, now: int, mid: uint16)
    requires OfFlow(true, p) && p.mid != mid
    ensures var t := Step(h, Receive(p, now)); var sent := Sends(h, Receive(p, now));
            && Of(t.c.inq, mid) == Of(h.c.inq, mid) && Of(t.taken, mid) == Of(h.taken, mid)
            && forall i :: 0 <= i < |sent| ==> !Mine(false, mid, sent[i])
  {
    if Accepted(p) {
      PublishSeen(h, p, now, mid);
    } else if p.Pubrel? {
      PubrelReleases(h.c, p, now);
      var k := Find(h.c.inq, p.mid);
      if k < |h.c.inq| {
        OfWithout(h.c.inq, k, mid);
      }
      hide Of, Find, Without;
    }
  }

  predicate NoneOfFlow(sent: seq<Packet>) {
    forall i :: 0 <= i < |sent| ==> !OfFlow(false, sent[i])
  }

  /** Other packets do not touch the flow. */
  lemma OtherSeen(h: History, p: Packet, now: int)
    requires !OfFlow(true, p)
    ensures var t := Step(h, Receive(p, now));
            t.c.inq == h.c.inq && t.taken == h.taken && NoneOfFlow(Sends(h, Receive(p, now)))
  {
    if p.Puback? || p.Pubcomp? {
      AckSendsPublishes(h.c, p.mid);
      hide RemoveOut;
    }
  }

  lemma AckSendsPublishes(c: Client, mid: uint16)
    ensures var (c1, sent, rc) := RemoveOut(c, mid); c1.inq == c.inq && NoneOfFlow(sent)
  {
    var k := Find(c.out, mid);
    if k < |c.out| {
      PromoteSendsPublishes(Without(c.out, k), c.inflight - (if c.out[k].qos > 0 then 1 else 0), c.max, c.connected);
      hide Promote;
    }
  }

  lemma {:induction false} PromoteSendsPublishes(ms: seq<Msg>, n: int, max: nat, connected: bool)
    ensures NoneOfFlow(Promote(ms, n, max, connected).sent)
  {
    if ms != [] && Room(max, n) {
      var sent := SendPublish(connected, ms[0].(state := FirstState(ms[0].qos, Invalid))).0;
      assert NoneOfFlow(sent);
      hide SendPublish, FirstState;
      PromoteSendsPublishes(ms[1..], n + 1, max, connected);
      PromoteSendsPublishes(ms[1..], n, max, connected);
      NoneAppend(sent, Promote(ms[1..], n + 1, max, connected).sent);
    }
  }

  lemma NoneAppend(a: seq<Packet>, b: seq<Packet>)
    requires NoneOfFlow(a) && NoneOfFlow(b)
    ensures NoneOfFlow(a + b)
  {
    assert forall i :: 0 <= i < |a + b| ==> (a + b)[i] == if i < |a| then a[i] else b[i - |a|];
  }

  /** The client handling a packet for this id, if it is no PUBLISH while the id is held. */
  lemma TakeGood(v: View, p: Packet)
    requires Good(v) && v.u != [] && p == v.u[0] && (IsRel(p) || (p.Publish? && v.held == []))
    ensures IsRel(p) ==>
              forall q: Packet :: q.Pubcomp? ==>
                Good(v.(u := v.u[1..], d := v.d + [q], held := if v.held == [] then [] else v.held[1..]))
    ensures p.Publish? ==>
              forall q: Packet :: q.Pubrec? ==>
                var c := Content(p.serial, p.app);
                Good(v.(u := v.u[1..], d := v.d + [q], held := v.held + [c], taken := v.taken + [c]))
  {
  }

  /** The packets of an id in good order are a PUBLISH of its message or a PUBREL with the right flags. */
  lemma GoodPackets(v: View)
    requires Good(v) && v.u != []
    ensures IsRel(v.u[0]) || (v.u[0].Publish? && v.u[0].qos == 2 && v.u[0].app.topic != [])
    ensures v.u[0].Publish? ==> v.f.Some? && IsPub(v.u[0], v.f.value)
  {
  }

  lemma ClientTakeSeen(n: Net, now: int, mid: uint16)
    requires CanMove(n, ClientTake(now)) && Good(See(n, mid)) && !TakesHeld(n, ClientTake(now), mid)
    ensures Good(See(After(n, ClientTake(now)), mid))
  {
    hide Step, Sends, Of, Pick, Good, Flight;
    var p := n.toClient[0];
    var v := See(n, mid);
    var sent := Sends(n.h, Receive(p, now));
    PickHead(true, mid, n.toClient);
    PickAppend(false, mid, n.toSender, sent);
    if Mine(true, mid, p) {
      GoodPackets(v);
      OfEmptyIff(n.h.c.inq, mid);
      TakeGood(v, p);
      if IsRel(p) {
        PubrelSeen(n.h, p, now, mid);
        PickOne(false, mid, Pubcomp(p.mid));
      } else {
        PublishSeen(n.h, p, now, mid);
        PickOne(false, mid, Pubrec(p.mid));
      }
    } else {
      if OfFlow(true, p) {
        OtherIdSeen(n.h, p, now, mid);
      } else {
        OtherSeen(n.h, p, now);
      }
      PickNone(false, mid, sent);
      assert v.d + [] == v.d;
    }
  }

  // ---- Calls, retries and reconnects ---------------------------------------------------------------------

  /** A retry repeats the PUBREC of each held message that is due. */
  lemma {:induction false} RetryInSeen(ms: seq<Msg>, connected: bool, retry: nat, now: int, mid: uint16)
    requires Window.InHeld(ms)
    ensures var d := Pick(false, mid, RetryAll(ms, connected, retry, now).1);
            AllRecs(d) && (Of(ms, mid) == [] ==> d == [])
  {
    if ms != [] {
      var one := RetryOne(ms[0], connected, retry, now).1;
      assert one == [] || one == [Pubrec(ms[0].mid)];
      PickOne(false, mid, Pubrec(ms[0].mid));
      PickAppend(false, mid, one, RetryAll(ms[1..], connected, retry, now).1);
      hide RetryOne;
      RetryInSeen(ms[1..], connected, retry, now, mid);
    }
  }

  lemma {:induction false} RetryOutSeen(ms: seq<Msg>, connected: bool, retry: nat, now: int)
    requires forall i :: 0 <= i < |ms| ==> ms[i].state != WaitForPubrel
    ensures NoneOfFlow(RetryAll(ms, connected, retry, now).1)
  {
    if ms != [] {
      var one := RetryOne(ms[0], connected, retry, now).1;
      assert NoneOfFlow(one);
      hide RetryOne;
      RetryOutSeen(ms[1..], connected, retry, now);
      NoneAppend(one, RetryAll(ms[1..], connected, retry, now).1);
    }
  }

  /** No message of the outgoing list waits for a PUBREL. */
  predicate OutOk(ms: seq<Msg>) {
    forall i :: 0 <= i < |ms| ==> ms[i].state != WaitForPubrel
  }

  lemma CallsSend(h: History, e: Event)
    requires e.Call? || e.Ask? || e.Drop?
    ensures NoneOfFlow(Sends(h, e))
  {
  }

  lemma ClientDoesSeen(n: Net, e: Event, mid: uint16)
    requires CanMove(n, ClientDoes(e)) && Good(See(n, mid)) && Window.InHeld(n.h.c.inq) && OutOk(n.h.c.out)
    ensures Good(See(After(n, ClientDoes(e)), mid))
  {
    hide Step, Sends, Of, Pick, Good, Flight, Window.InHeld;
    var v := See(n, mid);
    var sent := Sends(n.h, e);
    var t := Step(n.h, e);
    QuietStep(n.h, e);
    OfSame(n.h.c.inq, t.c.inq, mid);
    PickAppend(false, mid, n.toSender, sent);
    if e.Retry? {
      RetrySeen(n.h, e.now, mid);
      RecsKeepGood(v, Pick(false, mid, sent));
    } else {
      CallsSend(n.h, e);
      PickNone(false, mid, sent);
      assert v.d + [] == v.d;
    }
  }

  lemma RetrySeen(h: History, now: int, mid: uint16)
    requires Window.InHeld(h.c.inq) && OutOk(h.c.out)
    ensures var d := Pick(false, mid, Sends(h, Retry(now)));
            AllRecs(d) && (Of(h.c.inq, mid) == [] ==> d == [])
  {
    hide RetryAll, Of, Pick, Window.InHeld;
    var out := RetryAll(h.c.out, h.c.connected, h.c.retry, now).1;
    var inq := RetryAll(h.c.inq, h.c.connected, h.c.retry, now).1;
    RetryOutSeen(h.c.out, h.c.connected, h.c.retry, now);
    RetryInSeen(h.c.inq, h.c.connected, h.c.retry, now, mid);
    PickAppend(false, mid, out, inq);
    PickNone(false, mid, out);
    assert [] + Pick(false, mid, inq) == Pick(false, mid, inq);
  }

  lemma RecsKeepGood(v: View, recs: seq<Packet>)
    requires Good(v) && AllRecs(recs) && (v.held == [] ==> recs == [])
    ensures Good(v.(d := v.d + recs))
  {
    assert v.d + [] == v.d;
  }

  lemma ReconnectSeen(n: Net, ok: bool, mid: uint16)
    requires Good(See(n, mid)) && SenderOk(n)
    ensures Good(See(After(n, NewConnection(ok)), mid))
  {
    hide Step, Of, Pick, Good, RepeatAll, Flight;
    QuietStep(n.h, Reconnect(ok));
    OfSame(n.h.c.inq, Step(n.h, Reconnect(ok)).c.inq, mid);
    PickRepeats(n.flights, mid);
    NothingPicked(false, mid);
    FlightQos(n, mid);
    FreshStart(See(n, mid));
  }

  lemma FlightQos(n: Net, mid: uint16)
    requires SenderOk(n)
    ensures var f := Flight(n.flights, mid); f.Some? ==> f.value.qos == 2
  {
  }

  lemma NothingPicked(toClient: bool, mid: uint16)
    ensures Pick(toClient, mid, []) == []
  {
  }

  lemma FreshStart(v: View)
    requires Good(v)
    ensures v.f.None? ==> Good(v.(u := [], d := []))
    ensures v.f.Some? && v.f.value.qos == 2 ==> Good(v.(u := [Repeat(v.f.value)], d := []))
  {
  }

  lemma OtherPushSeen(n: Net, p: Packet, mid: uint16)
    requires CanMove(n, Other(p)) && Good(See(n, mid))
    ensures Good(See(After(n, Other(p)), mid))
  {
    hide Of, Good, Flight;
    PickAppend(true, mid, n.toClient, [p]);
    PickNone(true, mid, [p]);
    assert Pick(true, mid, n.toClient) + [] == Pick(true, mid, n.toClient);
  }

  // ---- Whole runs ------------------------------------------------------------------------------------------

  /** What holds in every run, whatever is repeated. */
  ghost predicate Sound(n: Net) {
    Inv(n.h) && SenderOk(n) && OutOk(n.h.c.out)
  }

  lemma AfterKeepsGood(n: Net, a: Move, mid: uint16)
    requires Sound(n) && CanMove(n, a) && Good(See(n, mid)) && !TakesHeld(n, a, mid)
    ensures Good(See(After(n, a), mid))
  {
    hide See, Good, After, TakesHeld, SenderOk, OutOk;
    match a
    case Submit(_, _) => SubmitSeen(n, a, mid);
    case SenderTake => SenderTakeSeen(n, mid);
    case ClientTake(now) => ClientTakeSeen(n, now, mid);
    case ClientDoes(e) => ClientDoesSeen(n, e, mid);
    case Other(p) => OtherPushSeen(n, p, mid);
    case NewConnection(ok) => ReconnectSeen(n, ok, mid);
  }

  /** The steps of the client's history that a move makes. */
  function EventOf(n: Net, a: Move): Option<Event> {
    match a
    case ClientTake(now) => if n.toClient == [] then None else Some(Receive(n.toClient[0], now))
    case ClientDoes(e) => Some(e)
    case NewConnection(ok) => Some(Reconnect(ok))
    case _ => None
  }

  lemma AfterIs(n: Net, a: Move)
    requires CanMove(n, a)
    ensures After(n, a).h == if EventOf(n, a).Some? then Step(n.h, EventOf(n, a).value) else n.h
  {
    hide Step;
  }

  lemma {:induction false} PromoteKeepsOutOk(ms: seq<Msg>, n: int, max: nat, connected: bool)
    requires OutOk(ms)
    ensures OutOk(Promote(ms, n, max, connected).ms)
  {
    if ms != [] {
      PromoteKeepsOutOk(ms[1..], n + 1, max, connected);
      PromoteKeepsOutOk(ms[1..], n, max, connected);
    }
  }

  lemma {:induction false} ResetKeepsOutOk(ms: seq<Msg>, n: int, max: nat)
    requires OutOk(ms)
    ensures OutOk(ResetOut(ms, n, max).0)
  {
    if ms != [] {
      ResetKeepsOutOk(ms[1..], n + (if ms[0].qos > 0 then 1 else 0), max);
      ResetKeepsOutOk(ms[1..], n, max);
    }
  }

  lemma RemoveKeepsOutOk(c: Client, mid: uint16)
    requires OutOk(c.out)
    ensures OutOk(RemoveOut(c, mid).0.out)
  {
    var k := Find(c.out, mid);
    if k < |c.out| {
      Window.WithoutAt(c.out, k);
      PromoteKeepsOutOk(Without(c.out, k), c.inflight - (if c.out[k].qos > 0 then 1 else 0), c.max, c.connected);
      hide Promote, Without;
    }
  }

  lemma StepKeepsOutOk(h: History, e: Event)
    requires OutOk(h.c.out)
    ensures OutOk(Step(h, e).c.out)
  {
    hide DoPublish, RemoveOut, ResetOut, RetryAll, RetryOne;
    match e
    case Call(app, qos, now) => PublishKeepsOutOk(h.c, app, qos, now);
    case Ask(r) =>
    case Receive(p, now) => RemoveKeepsOutOk(h.c, p.mid);
    case Retry(now) =>
      forall i | 0 <= i < |h.c.out|
        ensures RetryOne(h.c.out[i], h.c.connected, h.c.retry, now).0.state != WaitForPubrel
      {
        RetryKeepsState(h.c.out[i], h.c.connected, h.c.retry, now);
      }
    case Reconnect(ok) => ResetKeepsOutOk(h.c.out, 0, h.c.max);
    case Drop =>
  }

  lemma PublishKeepsOutOk(c: Client, app: AppMessage, qos: int, now: int)
    requires OutOk(c.out)
    ensures OutOk(DoPublish(c, app, qos, now).c.out)
  {
    hide Topics.ValidTopic, SendPublish;
  }

  lemma RetryKeepsState(m: Msg, connected: bool, retry: nat, now: int)
    ensures RetryOne(m, connected, retry, now).0.state == m.state
  {
  }

  lemma AfterKeepsSender(n: Net, a: Move)
    requires SenderOk(n) && CanMove(n, a)
    ensures SenderOk(After(n, a))
  {
    hide Step, Sends, RepeatAll;
    if a.SenderTake? {
      var k := Find(n.flights, n.toSender[0].mid);
      if k < |n.flights| {
        Window.WithoutAt(n.flights, k);
      }
      hide Without;
    }
  }

  lemma AfterKeepsSound(n: Net, a: Move)
    requires Sound(n) && CanMove(n, a)
    ensures Sound(After(n, a))
  {
    hide Inv, OutOk, SenderOk, After, Step;
    AfterKeepsSender(n, a);
    AfterIs(n, a);
    if EventOf(n, a).Some? {
      StepKeepsInv(n.h, EventOf(n, a).value);
      StepKeepsOutOk(n.h, EventOf(n, a).value);
    }
  }

  lemma {:induction false} MovesKeepGood(n: Net, ms: seq<Move>, t: Net, mid: uint16)
    requires Sound(n) && Good(See(n, mid)) && Moves(n, ms, t) && NeverTakesHeld(n, ms, mid)
    ensures Sound(t) && Good(See(t, mid))
    decreases |ms|
  {
    hide Sound, Good, See, After, TakesHeld;
    if ms != [] {
      AfterKeepsSound(n, ms[0]);
      AfterKeepsGood(n, ms[0], mid);
      MovesKeepGood(After(n, ms[0]), ms[1..], t, mid);
    }
  }

  lemma StartIsGood(n: Net, mid: uint16)
    requires Start(n)
    ensures Sound(n) && Good(See(n, mid))
  {
  }

  /** Some message stands twice in the sequence. */
  predicate Twice(cs: seq<Content>) {
    exists i, j :: 0 <= i < j < |cs| && cs[i].serial == cs[j].serial
  }

  /** Taking a PUBLISH while its id is held takes the same message a second time. */
  lemma HeldIsTakenTwice(n: Net, a: Move, mid: uint16)
    requires Good(See(n, mid)) && CanMove(n, a) && TakesHeld(n, a, mid)
    ensures Twice(Of(After(n, a).h.taken, mid))
  {
    hide Find, Of, Good, Flight;
    var p := n.toClient[0];
    var v := See(n, mid);
    PickHead(true, mid, n.toClient);
    GoodPackets(v);
    OfEmptyIff(n.h.c.inq, mid);
    HeldIsLast(v);
    PublishSeen(n.h, p, a.now, mid);
    AfterIs(n, a);
    var cs := Of(After(n, a).h.taken, mid);
    assert cs[|v.taken| - 1].serial == cs[|v.taken|].serial;
  }

  lemma HeldIsLast(v: View)
    requires Good(v) && v.held != []
    ensures v.f.Some? && v.taken != [] && v.taken[|v.taken| - 1] == ContentOf(v.f.value)
  {
  }

  lemma TakenGrows(h: History, e: Event, mid: uint16)
    ensures Of(h.taken, mid) <= Of(Step(h, e).taken, mid)
  {
    if e.Receive? && Accepted(e.p) {
      PublishSeen(h, e.p, e.now, mid);
    } else {
      hide Of, DoPublish, DoRequest, DoReceive, DoRetry, DoReconnect;
      assert Step(h, e).taken == h.taken;
    }
  }

  lemma {:induction false} TwiceStays(n: Net, ms: seq<Move>, t: Net, mid: uint16)
    requires Moves(n, ms, t) && Twice(Of(n.h.taken, mid))
    ensures Twice(Of(t.h.taken, mid))
    decreases |ms|
  {
    hide After, Of, Step;
    if ms != [] {
      AfterIs(n, ms[0]);
      if EventOf(n, ms[0]).Some? {
        TakenGrows(n.h, EventOf(n, ms[0]).value, mid);
      }
      TwiceGrows(Of(n.h.taken, mid), Of(After(n, ms[0]).h.taken, mid));
      TwiceStays(After(n, ms[0]), ms[1..], t, mid);
    }
  }

  lemma TwiceGrows(a: seq<Content>, b: seq<Content>)
    requires a <= b && Twice(a)
    ensures Twice(b)
  {
    var i, j :| 0 <= i < j < |a| && a[i].serial == a[j].serial;
    assert b[i] == a[i] && b[j] == a[j];
  }

  lemma {:induction false} MovesRepeat(n: Net, ms: seq<Move>, t: Net, mid: uint16)
    requires Sound(n) && Good(See(n, mid)) && Moves(n, ms, t)
    ensures Sound(t) && (!NeverTakesHeld(n, ms, mid) ==> Twice(Of(t.h.taken, mid)))
    decreases |ms|
  {
    hide Sound, Good, See, After, TakesHeld, Of, Twice;
    if ms != [] {
      AfterKeepsSound(n, ms[0]);
      if TakesHeld(n, ms[0], mid) {
        HeldIsTakenTwice(n, ms[0], mid);
        TwiceStays(After(n, ms[0]), ms[1..], t, mid);
        MovesKeepSound(After(n, ms[0]), ms[1..], t);
      } else {
        AfterKeepsGood(n, ms[0], mid);
        MovesRepeat(After(n, ms[0]), ms[1..], t, mid);
      }
    }
  }

  lemma {:induction false} MovesKeepSound(n: Net, ms: seq<Move>, t: Net)
    requires Sound(n) && Moves(n, ms, t)
    ensures Sound(t)
    decreases |ms|
  {
    hide Sound, After;
    if ms != [] {
      AfterKeepsSound(n, ms[0]);
      MovesKeepSound(After(n, ms[0]), ms[1..], t);
    }
  }

  lemma {:induction false} SubmittedOnce(ms: seq<Msg>, from: nat, mid: uint16)
    requires forall i :: 0 <= i < |ms| ==> ms[i].serial == from + i
    ensures forall i :: 0 <= i < |Of(ms, mid)| ==> Of(ms, mid)[i].serial >= from
    ensures !Twice(Of(ms, mid))
  {
    if ms != [] {
      SubmittedOnce(ms[1..], from + 1, mid);
    }
  }

  /**
   As long as the client takes no PUBLISH under an id while it still holds that id: what it has handed to
   on_message under the id is what was submitted, in order and without repetition, except that the message
   in flight may still be missing.
   */
  lemma ExactlyOnceUnlessHeld(n: Net, ms: seq<Move>, t: Net, mid: uint16)
    requires Start(n) && Moves(n, ms, t) && NeverTakesHeld(n, ms, mid)
    ensures var given, sub := Of(Qos2(t.h.given), mid), Of(t.submitted, mid);
            if Find(t.flights, mid) == |t.flights| then given == sub && Of(t.h.c.inq, mid) == []
            else given == sub || (sub != [] && given == sub[..|sub| - 1])
  {
    StartIsGood(n, mid);
    MovesKeepGood(n, ms, t, mid);
    hide Moves, NeverTakesHeld, Of, Qos2, Find, Pick;
    assert Conserved(t.h, mid);
    FlightIs(t.flights, mid);
    GoodGives(See(t, mid), Of(Qos2(t.h.given), mid));
  }

  lemma FlightIs(ms: seq<Msg>, mid: uint16)
    ensures Flight(ms, mid).None? <==> Find(ms, mid) == |ms|
  {
  }

  lemma GoodGives(v: View, given: seq<Content>)
    requires Good(v) && given + v.held == v.taken
    ensures v.f.None? ==> given == v.sub && v.held == []
    ensures v.f.Some? ==> given == v.sub || (v.sub != [] && given == v.sub[..|v.sub| - 1])
  {
    assert given + [] == given;
    assert v.held != [] ==> given == v.taken[..|v.taken| - 1];
  }

  /**
   The exact condition. At any time at which the sender has nothing in flight under an id, the client has
   handed over exactly what was submitted under it, in order, and holds nothing, if and only if it has never
   taken a PUBLISH under that id while it still held it.
   */
  lemma ExactlyOnceIff(n: Net, ms: seq<Move>, t: Net, mid: uint16)
    requires Start(n) && Moves(n, ms, t) && Find(t.flights, mid) == |t.flights|
    ensures Of(Qos2(t.h.given), mid) == Of(t.submitted, mid) && Of(t.h.c.inq, mid) == []
       <==> NeverTakesHeld(n, ms, mid)
  {
    if NeverTakesHeld(n, ms, mid) {
      ExactlyOnceUnlessHeld(n, ms, t, mid);
    } else {
      StartIsGood(n, mid);
      MovesRepeat(n, ms, t, mid);
      SubmittedOnce(t.submitted, 0, mid);
      hide Moves, NeverTakesHeld, Of, Qos2, Find, Twice;
      assert Conserved(t.h, mid);
      var given := Of(Qos2(t.h.given), mid);
      assert given + [] == given;
    }
  }

  // ---- The failure -----------------------------------------------------------------------------------------

  lemma {:induction false} MovesOn(n: Net, ms: seq<Move>, t: Net, a: Move)
    requires Moves(n, ms, t) && CanMove(t, a)
    ensures Moves(n, ms + [a], After(t, a))
    decreases |ms|
  {
    hide After, CanMove;
    if ms == [] {
      assert ([] + [a])[1..] == [];
    } else {
      assert (ms + [a])[1..] == ms[1..] + [a];
      MovesOn(After(n, ms[0]), ms[1..], t, a);
    }
  }

  /** The first message has been taken. */
  lemma TakenOnce(n: Net, a: AppMessage) returns (ms: seq<Move>, t: Net)
    requires Start(n) && n.h.c.connected && a.topic != []
    ensures Moves(n, ms, t) && t.h.given == [] && Window.InHeld(t.h.c.inq)
    ensures |t.h.c.inq| == 1 && t.h.c.inq[0].mid == 7 && ContentOf(t.h.c.inq[0]) == Content(0, a)
    ensures t.flights == t.submitted == [Msg(0, 7, 2, a, WaitForPubrec, false, 0)]
  {
    hide Moves;
    ms, t := [], n;
    StaysPut(n);
    MovesOn(n, ms, t, Submit(7, a));
    ms, t := ms + [Submit(7, a)], After(t, Submit(7, a));
    assert t.toClient == [Publish(0, 7, 2, false, a)];
    MovesOn(n, ms, t, ClientTake(0));
    ms, t := ms + [ClientTake(0)], After(t, ClientTake(0));
  }

  /** The connection breaks, and it is sent and taken again. */
  lemma TakenTwice(n: Net, a: AppMessage) returns (ms: seq<Move>, t: Net)
    requires Start(n) && n.h.c.connected && a.topic != []
    ensures Moves(n, ms, t) && t.h.c.connected && t.h.given == [] && t.toClient == [] && t.toSender == [Pubrec(7)]
    ensures |t.h.c.inq| == 2 && t.h.c.inq[0].mid == t.h.c.inq[1].mid == 7
    ensures ContentOf(t.h.c.inq[0]) == ContentOf(t.h.c.inq[1]) == Content(0, a)
    ensures Window.InHeld(t.h.c.inq) && t.flights == t.submitted == [Msg(0, 7, 2, a, WaitForPubrec, false, 0)]
  {
    hide Moves, Step, Sends;
    ms, t := TakenOnce(n, a);
    MovesOn(n, ms, t, NewConnection(true));
    QuietStep(t.h, Reconnect(true));
    ReconnectConnects(t.h);
    ms, t := ms + [NewConnection(true)], After(t, NewConnection(true));
    assert RepeatAll(t.flights[1..]) == [] && t.toClient == [Publish(0, 7, 2, true, a)];
    MovesOn(n, ms, t, ClientTake(0));
    AcceptAppends(t.h, t.toClient[0], 0);
    ms, t := ms + [ClientTake(0)], After(t, ClientTake(0));
  }

  lemma ReconnectConnects(h: History)
    ensures Step(h, Reconnect(true)).c.connected
  {
  }

  lemma AcceptAppends(h: History, p: Packet, now: int)
    requires Accepted(p)
    ensures var t := Step(h, Receive(p, now));
            && |t.c.inq| == |h.c.inq| + 1 && t.c.inq[..|h.c.inq|] == h.c.inq && t.given == h.given
            && t.c.connected == h.c.connected && Sends(h, Receive(p, now)) == [Pubrec(p.mid)]
            && var m := t.c.inq[|h.c.inq|];
               m.mid == p.mid && ContentOf(m) == Content(p.serial, p.app) && m.qos == 2 && m.state == WaitForPubrel
  {
    assert h.given + [] == h.given;
  }

  lemma StaysPut(n: Net)
    ensures Moves(n, [], n)
  {
  }

  /** A whole exchange for the first message in flight, when its PUBREC is on its way. */
  lemma Exchange(n0: Net, ms0: seq<Move>, n: Net) returns (ms: seq<Move>, t: Net)
    requires Moves(n0, ms0, n) && n.h.c.connected && n.toClient == [] && n.toSender == [Pubrec(7)]
    requires |n.flights| == 1 && n.flights[0].mid == 7 && n.h.c.inq != [] && n.h.c.inq[0].mid == 7
             && n.h.c.inq[0].qos == 2
    ensures Moves(n0, ms, t) && t.h.c.connected && t.toClient == [] && t.toSender == [] && t.flights == []
    ensures t.submitted == n.submitted && t.h.given == n.h.given + [n.h.c.inq[0]] && t.h.c.inq == n.h.c.inq[1..]
  {
    hide Moves;
    var m := n.flights[0];
    MovesOn(n0, ms0, n, SenderTake);
    ms, t := ms0 + [SenderTake], After(n, SenderTake);
    assert t.toClient == [Pubrel(m.serial, 7, 2)] && t.flights == [m.(state := WaitForPubcomp)];
    MovesOn(n0, ms, t, ClientTake(0));
    ms, t := ms + [ClientTake(0)], After(t, ClientTake(0));
    assert t.toSender == [Pubcomp(7)] && t.h.given == n.h.given + [n.h.c.inq[0]] && t.h.c.inq == n.h.c.inq[1..];
    MovesOn(n0, ms, t, SenderTake);
    ms, t := ms + [SenderTake], After(t, SenderTake);
    assert t.flights == [];
  }

  /**
   An input. The connection breaks after the first message has been taken; it is sent again and taken a
   second time, and its exchange is completed. The next message under the same id is then held back: the
   client hands over the old one again instead.
   */
  lemma StaleCopyIsDelivered(n: Net, a: AppMessage, b: AppMessage) returns (ms: seq<Move>, t: Net)
    requires Start(n) && n.h.c.connected && a.topic != [] && b.topic != []
    ensures Moves(n, ms, t) && t.flights == []
    ensures Of(t.submitted, 7) == [Content(0, a), Content(1, b)]
    ensures Of(t.h.given, 7) == [Content(0, a), Content(0, a)] && Of(t.h.c.inq, 7) == [Content(1, b)]
  {
    hide Moves, Of;
    ms, t := TakenTwice(n, a);
    ms, t := Exchange(n, ms, t);
    MovesOn(n, ms, t, Submit(7, b));
    ms, t := ms + [Submit(7, b)], After(t, Submit(7, b));
    assert t.toClient == [Publish(1, 7, 2, false, b)];
    MovesOn(n, ms, t, ClientTake(0));
    ms, t := ms + [ClientTake(0)], After(t, ClientTake(0));
    assert t.toSender == [Pubrec(7)];
    ms, t := Exchange(n, ms, t);
    OfTwo(t.submitted, 7);
    OfTwo(t.h.given, 7);
    OfOne(t.h.c.inq[0], 7);
    assert t.h.c.inq == [t.h.c.inq[0]];
  }

  lemma OfTwo(ms: seq<Msg>, mid: uint16)
    requires |ms| == 2 && ms[0].mid == ms[1].mid == mid
    ensures Of(ms, mid) == [ContentOf(ms[0]), ContentOf(ms[1])]
  {
    assert ms[1..] == [ms[1]];
    OfOne(ms[1], mid);
  }
}
