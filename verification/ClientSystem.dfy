/**
 The linked-list client connected to the broker and the channels of module Delivery. What is proved
 about runs of that system holds of the object's own callbacks and packets.
 */
module ClientSystem {
  import opened ClientLists
  import opened ClientRuns
  import opened Delivery
  import opened Engine
  import opened Mqtt
  import SendOrder

  predicate IsSuffix(a: seq<Packet>, all: seq<Packet>) {
    |a| <= |all| && a == all[|all| - |a|..]
  }

  /** The object is the client of this system: its packets since the last connect are the end of the history. */
  ghost predicate Plays(client: Mosquitto, s: Sys)
    reads client, client.outList, client.inList, client.outList.spine, client.inList.spine
  {
    && client.Valid() && (s.stale <==> !Sound(client))
    && client.Abs() == s.c && client.published == s.done && IsSuffix(client.sent, s.log)
  }

  lemma SuffixGrows(a: seq<Packet>, all: seq<Packet>, more: seq<Packet>)
    requires IsSuffix(a, all)
    ensures IsSuffix(a + more, all + more)
  {
  }

  /** The client's part of a delivery: an error closes the connection. */
  method Receive(client: Mosquitto, p: Packet, now: int)
    requires client.Valid()
    modifies Parts(client)
    ensures client.Valid() && (Sound(client) <==> old(Sound(client))) && fresh(Parts(client) - old(Parts(client)))
    ensures var o := DoReceive(old(client.Abs()), p, now);
            Seen(client)
              == Effect(old(Seen(client)), o).(c := if o.rc != Success then o.c.(connected := false) else o.c)
  {
    hide Mosquitto.Valid, Mosquitto.Abs, Parts, Sound, DoReceive;
    var rc := Handle(client, p, now);
    if rc != Success {
      DoDrop(client);
    }
  }

  /** A step that sends and reports what the outcome says. */
  lemma EffectPlays(s: Sys, o: Outcome, handling: bool, v: View)
    requires v.published == s.done && IsSuffix(v.sent, s.log)
    ensures var t := After(s, o, handling); var w := Effect(v, o);
            w.published == t.done && IsSuffix(w.sent, t.log)
  {
    SuffixGrows(v.sent, s.log, o.sent);
  }

  /** One step of the system, with the client's part done by the object. */
  method Act(client: Mosquitto, a: Action, s: Sys)
    requires Plays(client, s) && Enabled(s, a)
    modifies Parts(client)
    ensures Plays(client, Next(s, a)) && fresh(Parts(client) - old(Parts(client)))
  {
    ghost var v := Seen(client);
    assert v.c == s.c && v.published == s.done && v.sent == client.sent;
    hide Mosquitto.Valid, Mosquitto.Abs, Parts, Sound, DoPublish, DoRequest, DoReceive, DoRetry, DoReconnect,
         IsSuffix, Take;
    match a {
      case AppPublish(app, qos, now) =>
        EffectPlays(s, DoPublish(s.c, app, qos, now), false, v);
        DoCall(client, app, qos, now);
      case AppRequest(r) =>
        EffectPlays(s, DoRequest(s.c, r), false, v);
        DoAsk(client, r);
      case Drop => DoDrop(client);
      case Reconnect(ok) =>
        DoConnect(client, ok);
        NothingIsSuffix(s.log);
      case Retry(now) =>
        EffectPlays(s, DoRetry(s.c, now), false, v);
        DoPass(client, now);
      case Deliver(now) =>
        EffectPlays(s, DoReceive(s.c, s.down[0], now), true, v);
        Receive(client, s.down[0], now);
      case BrokerTake => TakeLeavesClient(s);
      case BrokerPush(p) =>
    }
  }

  lemma NothingIsSuffix(all: seq<Packet>)
    ensures IsSuffix([], all)
  {
  }

  lemma TakeLeavesClient(s: Sys)
    requires s.up != []
    ensures Take(s).c == s.c && Take(s).done == s.done && Take(s).log == s.log && Take(s).stale == s.stale
  {
  }

  /** A whole run of the system with the object in it. */
  method Play(client: Mosquitto, acts: seq<Action>, s: Sys, ghost t: Sys)
    requires Plays(client, s) && Run(s, acts, t)
    modifies Parts(client)
    ensures Plays(client, t)
  {
    hide Plays, Next, Enabled;
    var now := s;
    assert acts[0..] == acts;
    for i := 0 to |acts|
      invariant Plays(client, now) && fresh(Parts(client) - old(Parts(client)))
      invariant Run(now, acts[i..], t)
    {
      assert acts[i..][0] == acts[i] && acts[i..][1..] == acts[i + 1..];
      Act(client, acts[i], now);
      now := Next(now, acts[i]);
    }
    assert acts[|acts|..] == [];
  }

  /**
   The linked-list client delivers exactly once: whatever happens, on_publish has been called at most
   once for each message, only for messages the broker has accepted, with the content that was
   published, and if the QoS is 2 the broker has accepted the message exactly once.
   */
  method ReportsExactlyOnce(client: Mosquitto, acts: seq<Action>, s: Sys, ghost t: Sys)
    requires Plays(client, s) && Init(s) && Run(s, acts, t)
    modifies Parts(client)
    ensures Plays(client, t)
    ensures forall i :: 0 <= i < |client.published| ==>
              var m := client.published[i];
              && m.serial < |t.issued| && t.issued[m.serial] == Issue(m.app, m.qos)
              && SendOrder.Count(t.accepted, m.serial) >= 1
              && (m.qos == 2 ==> SendOrder.Count(t.accepted, m.serial) == 1)
    ensures forall i, j :: 0 <= i < j < |client.published| ==> client.published[i].serial != client.published[j].serial
  {
    SendOrder.ExactlyOnce(s, acts, t);
    Play(client, acts, s, t);
  }
}
