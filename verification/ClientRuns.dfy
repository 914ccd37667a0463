/**
 The linked-list client driven by arbitrary events. Over a whole run it does what the model on values
 does, so what is proved about runs of the model holds of the object.
 */
module ClientRuns {
  import opened ClientLists
  import opened Engine
  import opened Inbound
  import opened MessageLists
  import opened Mqtt
  import opened Runs

  /** The objects that make up a client. */
  ghost function Parts(client: Mosquitto): set<object>
    reads client.outList, client.inList
  {
    {client, client.outList, client.inList} + client.OutNodes() + client.InNodes()
  }

  /** All that can be seen of a client: its state, the packets it has queued and its callbacks. */
  datatype View = View(c: Client, sent: seq<Packet>, published: seq<Msg>, delivered: seq<Msg>)

  ghost function Seen(client: Mosquitto): View
    reads client, client.outList, client.inList, client.outList.spine, client.inList.spine
  {
    View(client.Abs(), client.sent, client.published, client.delivered)
  }

  ghost predicate Sound(client: Mosquitto)
    reads client.outList
  {
    client.outList.Sound()
  }

  function Effect(v: View, o: Outcome): View {
    View(o.c, v.sent + o.sent, v.published + o.onPublish, v.delivered + o.onMessage)
  }

  // ---- One call or packet ----------------------------------------------------------------------------

  lemma Apart(client: Mosquitto)
    requires client.Valid()
    ensures client.outList != client.inList
  {
  }

  method HandlePubrec(client: Mosquitto, mid: uint16, now: int) returns (rc: Rc)
    requires client.Valid()
    modifies Parts(client)
    ensures client.Valid() && (Sound(client) <==> old(Sound(client))) && fresh(Parts(client) - old(Parts(client)))
    ensures Seen(client) == Effect(old(Seen(client)), DoReceive(old(client.Abs()), Pubrec(mid), now))
    ensures rc == DoReceive(old(client.Abs()), Pubrec(mid), now).rc
  {
    OutgoingOnly(client.Abs(), mid, now);
    hide Mosquitto.Valid, Vals, DoPubrec, Mosquitto.Abs, MessageList.Sound;
    Apart(client);
    rc := client.HandlePubrec(mid, now);
  }

  method HandlePubackcomp(client: Mosquitto, mid: uint16)
    requires client.Valid()
    modifies Parts(client)
    ensures client.Valid() && (Sound(client) <==> old(Sound(client))) && fresh(Parts(client) - old(Parts(client)))
    ensures Seen(client) == Effect(old(Seen(client)), DoPubackcomp(old(client.Abs()), mid))
  {
    OutgoingOnly(client.Abs(), mid, 0);
    hide Mosquitto.Valid, Vals, DoPubackcomp, Mosquitto.Abs, MessageList.Sound;
    Apart(client);
    client.HandlePubackcomp(mid);
  }

  lemma OutgoingOnly(c: Client, mid: uint16, now: int)
    ensures DoPubrec(c, mid, now).onPublish == [] && DoPubrec(c, mid, now).onMessage == []
    ensures DoPubackcomp(c, mid).onMessage == []
  {
    hide RemoveOut;
  }

  method HandleAck(client: Mosquitto, p: Packet, now: int) returns (rc: Rc)
    requires client.Valid() && (p.Puback? || p.Pubcomp? || p.Pubrec?)
    modifies Parts(client)
    ensures client.Valid() && (Sound(client) <==> old(Sound(client))) && fresh(Parts(client) - old(Parts(client)))
    ensures Seen(client) == Effect(old(Seen(client)), DoReceive(old(client.Abs()), p, now))
    ensures rc == DoReceive(old(client.Abs()), p, now).rc
  {
    hide Mosquitto.Valid, Parts, Seen, Sound, DoPubrec, RemoveOut, Mosquitto.Abs;
    if p.Pubrec? {
      rc := HandlePubrec(client, p.mid, now);
    } else {
      HandlePubackcomp(client, p.mid);
      rc := Success;
    }
  }

  method HandleIncoming(client: Mosquitto, p: Packet, now: int) returns (rc: Rc)
    requires client.Valid() && (p.Publish? || p.Pubrel?)
    modifies Parts(client)
    ensures client.Valid() && (Sound(client) <==> old(Sound(client))) && fresh(Parts(client) - old(Parts(client)))
    ensures Seen(client) == Effect(old(Seen(client)), DoReceive(old(client.Abs()), p, now))
    ensures rc == DoReceive(old(client.Abs()), p, now).rc
  {
    NothingReported(client.Abs(), p, now);
    hide Mosquitto.Valid, Vals, DoReceivedPublish, DoPubrel, Mosquitto.Abs, MessageList.Sound;
    Apart(client);
    if p.Publish? {
      rc := client.HandlePublish(p, now);
    } else {
      rc := client.HandlePubrel(p.flags, p.mid);
    }
  }

  lemma NothingReported(c: Client, p: Packet, now: int)
    ensures p.Publish? || p.Pubrel? ==> DoReceive(c, p, now).onPublish == []
  {
  }

  /** `_mosquitto_packet_handle` for the packets of the two QoS flows. */
  method Handle(client: Mosquitto, p: Packet, now: int) returns (rc: Rc)
    requires client.Valid()
    modifies Parts(client)
    ensures client.Valid() && (Sound(client) <==> old(Sound(client))) && fresh(Parts(client) - old(Parts(client)))
    ensures Seen(client) == Effect(old(Seen(client)), DoReceive(old(client.Abs()), p, now))
    ensures rc == DoReceive(old(client.Abs()), p, now).rc
  {
    if p.Publish? || p.Pubrel? {
      hide Mosquitto.Valid, Mosquitto.Abs, Parts, DoReceive, Sound;
      rc := HandleIncoming(client, p, now);
    } else if p.Puback? || p.Pubcomp? || p.Pubrec? {
      hide Mosquitto.Valid, Mosquitto.Abs, Parts, DoReceive, Sound;
      rc := HandleAck(client, p, now);
    } else {
      rc := Protocol;
    }
  }

  method DoCall(client: Mosquitto, app: AppMessage, qos: int, now: int)
    requires client.Valid() && (1 <= qos <= 2 ==> Sound(client))
    modifies Parts(client)
    ensures client.Valid() && (Sound(client) <==> old(Sound(client))) && fresh(Parts(client) - old(Parts(client)))
    ensures Seen(client) == Effect(old(Seen(client)), DoPublish(old(client.Abs()), app, qos, now))
  {
    hide Mosquitto.Valid, Vals, DoPublish, Mosquitto.Abs, MessageList.Sound;
    Apart(client);
    PublishOnlySends(client.Abs(), app, qos, now);
    var _ := client.Publish(app, qos, now);
  }

  lemma PublishOnlySends(c: Client, app: AppMessage, qos: int, now: int)
    ensures DoPublish(c, app, qos, now).onPublish == [] && DoPublish(c, app, qos, now).onMessage == []
  {
  }

  method DoAsk(client: Mosquitto, r: Request)
    requires client.Valid()
    modifies Parts(client)
    ensures client.Valid() && (Sound(client) <==> old(Sound(client))) && fresh(Parts(client) - old(Parts(client)))
    ensures Seen(client) == Effect(old(Seen(client)), DoRequest(old(client.Abs()), r))
  {
    hide Vals, Mosquitto.Abs;
    match r {
      case ToSubscribe(filter, qos) => var _ := client.Subscribe(filter, qos);
      case ToUnsubscribe(filter) => var _ := client.Unsubscribe(filter);
    }
  }

  method DoPass(client: Mosquitto, now: int)
    requires client.Valid()
    modifies Parts(client)
    ensures client.Valid() && (Sound(client) <==> old(Sound(client))) && fresh(Parts(client) - old(Parts(client)))
    ensures Seen(client) == Effect(old(Seen(client)), DoRetry(old(client.Abs()), now))
  {
    hide Mosquitto.Valid, Vals, RetryAll, Mosquitto.Abs;
    client.RetryCheck(now);
  }

  method DoConnect(client: Mosquitto, ok: bool)
    requires client.Valid()
    modifies Parts(client)
    ensures client.Valid() && fresh(Parts(client) - old(Parts(client)))
    ensures Sound(client) <==> old(client.Abs()).out != [] || old(client.Abs()).inq == []
    ensures Seen(client) == old(Seen(client)).(c := DoReconnect(old(client.Abs()), ok), sent := [])
  {
    ghost var c := client.Abs();
    hide Mosquitto.Valid, Vals, ResetOut, Mosquitto.Abs;
    client.Reconnect(ok);
    assert |client.Abs().out| == |c.out| && |client.Abs().inq| == |c.inq|;
  }

  /** The connection is lost or closed. */
  method Disconnect(client: Mosquitto)
    requires client.Valid()
    modifies client`connected
    ensures client.Valid() && Seen(client) == old(Seen(client)).(c := old(client.Abs()).(connected := false))
  {
    client.connected := false;
  }

  // ---- Whole runs ------------------------------------------------------------------------------------

  /** The object has done what the history says. */
  ghost predicate Follows(client: Mosquitto, h: History)
    reads client, client.outList, client.inList, client.outList.spine, client.inList.spine
  {
    client.Valid() && Seen(client) == View(h.c, h.sent, h.reported, h.given) && (h.stale <==> !Sound(client))
  }

  method Perform(client: Mosquitto, e: Event, ghost h: History)
    requires Follows(client, h) && Enabled(h, e)
    modifies Parts(client)
    ensures Follows(client, Step(h, e)) && fresh(Parts(client) - old(Parts(client)))
  {
    hide Mosquitto.Valid, Mosquitto.Abs, Parts, Sound, DoPublish, DoRequest, DoReceive, DoRetry, DoReconnect;
    match e {
      case Call(app, qos, now) => DoCall(client, app, qos, now);
      case Ask(r) => DoAsk(client, r);
      case Receive(p, now) => var _ := Handle(client, p, now);
      case Retry(now) => DoPass(client, now);
      case Reconnect(ok) => DoConnect(client, ok);
      case Drop => DoDrop(client);
    }
  }

  method DoDrop(client: Mosquitto)
    requires client.Valid()
    modifies Parts(client)
    ensures client.Valid() && (Sound(client) <==> old(Sound(client))) && Parts(client) == old(Parts(client))
    ensures Seen(client) == old(Seen(client)).(c := old(client.Abs()).(connected := false))
  {
    hide Mosquitto.Valid, Mosquitto.Abs, Vals;
    Disconnect(client);
  }

  /**
   A whole run of the object is the run of the model: state, packets queued and both kinds of callback
   agree. The run may pass through states with a stale tail pointer; only a publish above QoS 0 in such a
   state is excluded.
   */
  method Drive(client: Mosquitto, es: seq<Event>, ghost h: History)
    requires Follows(client, h) && Possible(h, es)
    modifies Parts(client)
    ensures Follows(client, Run(h, es))
  {
    hide Follows, Step, Enabled;
    ghost var now := h;
    assert es[0..] == es;
    for i := 0 to |es|
      invariant Follows(client, now) && fresh(Parts(client) - old(Parts(client)))
      invariant Possible(now, es[i..]) && Run(now, es[i..]) == Run(h, es)
    {
      assert es[i..][0] == es[i] && es[i..][1..] == es[i + 1..];
      Perform(client, es[i], now);
      now := Step(now, es[i]);
    }
    assert es[|es|..] == [];
  }

  /**
   The linked-list client hands over incoming QoS 2 messages exactly as accepted: for every id, what it
   has passed to on_message, followed by what its list still holds, are the PUBLISHes taken, in order.
   */
  method DeliversWhatItTakes(client: Mosquitto, es: seq<Event>, mid: uint16, ghost h: History)
    requires Follows(client, h) && New(h) && Possible(h, es)
    modifies Parts(client)
    ensures client.Valid()
    ensures Of(Qos2(client.delivered), mid) + Of(client.Abs().inq, mid) == Of(Run(h, es).taken, mid)
  {
    InboundIsConserved(h, es, mid);
    Drive(client, es, h);
  }
}
