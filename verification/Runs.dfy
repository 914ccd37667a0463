/**
 Runs of the client in an arbitrary environment: any calls, any packets, connection losses and
 reconnects, in any order.
 */
module Runs {
  import opened Engine
  import opened Mqtt

  /** Anything that can happen to the client. Packets are arbitrary. */
  datatype Event =
    | Call(app: AppMessage, qos: int, now: int)
    | Ask(r: Request)
    | Receive(p: Packet, now: int)
    | Retry(now: int)
    | Reconnect(ok: bool)
    | Drop

  /** The client and what it has done so far. */
  datatype History = History(
    c: Client,
    sent: seq<Packet>,     // packets queued since the connection began
    log: seq<Packet>,      // packets ever queued
    reported: seq<Msg>,    // calls of on_publish
    given: seq<Msg>,       // calls of on_message
    taken: seq<Msg>,       // QoS 2 PUBLISHes accepted
    stale: bool,           // the last reconnect left the tail pointer of the outgoing list on an incoming message
    generated: nat,        // ids generated
    numbers: seq<nat>)     // for each publish, by serial: the number of the id it got

  /** A client that has done nothing yet. */
  predicate New(h: History) {
    && h.c.out == [] && h.c.inq == [] && h.c.published == 0
    && h == History(h.c, [], [], [], [], [], false, 0, [])
  }

  /** A QoS 2 PUBLISH the parser lets through. */
  predicate Accepted(p: Packet) {
    p.Publish? && p.qos == 2 && p.app.topic != []
  }

  /**
   After a reconnect with an empty outgoing list and a non-empty incoming one, the next queued
   publish would be linked into the incoming list.
   */
  predicate Enabled(h: History, e: Event) {
    e.Call? && 1 <= e.qos <= 2 ==> !h.stale
  }

  function Did(h: History, o: Outcome): History {
    h.(c := o.c, sent := h.sent + o.sent, log := h.log + o.sent, reported := h.reported + o.onPublish,
       given := h.given + o.onMessage)
  }

  function Step(h: History, e: Event): History {
    match e
    case Call(app, qos, now) =>
      var o := DoPublish(h.c, app, qos, now);
      if o.c.published == h.c.published then Did(h, o)
      else Did(h, o).(generated := h.generated + 1, numbers := h.numbers + [h.generated + 1])
    case Ask(r) =>
      var o := DoRequest(h.c, r);
      Did(h, o).(generated := h.generated + if o.rc == Success then 1 else 0)
    case Receive(p, now) =>
      var o := DoReceive(h.c, p, now);
      Did(h, o).(taken := if Accepted(p) then h.taken + [o.c.inq[|o.c.inq| - 1]] else h.taken)
    case Retry(now) => Did(h, DoRetry(h.c, now))
    case Reconnect(ok) => h.(c := DoReconnect(h.c, ok), sent := [], stale := h.c.out == [] && h.c.inq != [])
    case Drop => h.(c := h.c.(connected := false))
  }

  function Run(h: History, es: seq<Event>): History
    decreases |es|
  {
    if es == [] then h else Run(Step(h, es[0]), es[1..])
  }

  predicate Possible(h: History, es: seq<Event>)
    decreases |es|
  {
    es == [] || (Enabled(h, es[0]) && Possible(Step(h, es[0]), es[1..]))
  }
}
