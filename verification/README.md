# A verified model of the libmosquitto client

This project models the MQTT client library bundled in `mosquitto/lib` (libmosquitto 1.4.8, threaded
mode, no broker code) and proves what its delivery engine, byte streams, wire codec, topic matcher, ids
and timers guarantee.

## How it is built

Every call that changes the client in place is a method of a class, proved equal to a function on
values; the results about whole runs are proved about those functions.

| part | in place | on values | results |
|---|---|---|---|
| delivery | `MessageLists`, `ClientLists` (linked lists, counters, tail pointers) | `Engine` | one call: `Calls`, `Window`; runs: `Delivery`, `SendOrder`, `Progress`, `Draining`, `Oversized`, `Runs`, `Direct`, `Inbound`, `InboundDelivery`, `OutstandingIds`, `ClientRuns`, `ClientSystem` |
| outgoing stream | `PacketLists` (linked queue) | `PacketQueue` | `PacketQueue.StreamIsConserved`, `Writing`, `PublishPipeline`, `Frames`, `Arrivals` |
| incoming stream | `PacketReader.Reader` | `PacketReader.Parse` | `PacketReader.Reader.ReadAll`, `PacketReader.WireCarriesPackets` |
| codec | `PacketBuffer.Buffer`, builders in `Builders` | `RemainingLength`, `Builders` | round trips in both |
| topics | loops in `Topics` | level lists in `Topics` | `Topics.MatchMeansLevels` |
| timers | `Timers.LoopForever`, `Keepalive.Client` | `Timers`, `Keepalive` | `Timers.ScheduleIsRightIff`, `Timers.KeepsTrying`, `Keepalive.StaysOpenIff` |

`Delivery` composes the client with a broker that keeps its session and follows section 4.3 of MQTT 3.1.1
as a receiver (and is arbitrary as a sender), over two FIFO channels. A reconnect loses everything in
transit. A step is one call (publish, subscribe, unsubscribe, retry pass, reconnect) or one handled packet.
`Runs` puts the client in an arbitrary environment instead. `ClientRuns` and `ClientSystem` carry the results
of both over to the linked-list client. `InboundDelivery` composes the client with a sender that follows
section 4.3.3 as well, and repeats its unacknowledged messages after a reconnect. `Calls` says for every
input what one call sends, returns and changes; `Direct` follows the messages that belong to no list (QoS 0,
and incoming QoS 1) over whole runs. `Frames` and `Arrivals` put the packets of such a run through builders,
queue and partial writes, and read them at the other end. Each message carries a `serial`, the number of its
publish. The C structure has no such field and no decision depends on it; it lets a theorem tell two
messages apart after their id has been reused.

Hypotheses of the results about composed runs, all visible in `Delivery.Enabled` and `Delivery.Init`:

- `max_inflight_messages` does not change during a run.
- A publish above QoS 0 gets an id that is not outstanding and not on a packet in transit.
  Subscribes and unsubscribes take ids from the same counter. `OutstandingIds.RecentIdsAreDistinct` says
  when the outstanding part of this holds by itself.
- No publish above QoS 0 happens while the tail pointer of the outgoing list is stale (see below).

Retries (on a socket just closed, too), reconnects, connection losses, message sizes and the order of packet
deliveries are unrestricted. Only module `Draining`, which shows that every message gets through, asks for
messages whose remaining length is below 2^28.

## What the proofs brought to light

Each of these is code behaviour that its documentation or the standard does not promise. The code is
modelled as it is.

- **A publish can be lost after a reconnect.** `_mosquitto_messages_reconnect_reset` does not reset `prev`
  between its two loops. If there is an incoming message and no outgoing one, `out_messages_last` ends on
  the incoming message (`ClientLists.Mosquitto.ReconnectReset` gives the exact condition), and the next
  publish above QoS 0 is linked behind it: counted, but never found (`ClientLists.LosePublish`).
- **An acknowledgement of a queued message breaks the window**, and only such an acknowledgement does
  (`Window.RemoveKeepsWindowIff`). A conforming broker never sends one (`Delivery.AckIsExpected`).
- **The matcher says no too often.** It follows the standard except when the filter ends in `#` and either
  the topic has as many levels and ends in an empty one, or one level fewer with `+` before the `#`
  (`Topics.MatchMeansLevels`, `Topics.MissedExamples`).
- **A field longer than 65535 bytes is cut, but counted in full**, so the packet built has unwritten bytes
  at its end (`Builders.ConnectFills`, `Builders.PublishFills`, `Builders.SubscribeFills`: the packets are
  filled exactly if every length-prefixed field fits).
- **Backoff wraps for large caps.** The sleeps are min(D*k*k, M) for every cap M below 2^30; for all caps
  `Timers.ScheduleIsRightIff` gives the exact condition. With the largest cap and delay 1 the 65537th sleep
  takes no time (`Timers.LargeCapsWrap`).
- **Delays grow with the square of the attempts**, from 0. The sequences in the comments of
  `mosquitto/lib/mosquitto.h:1251-1257` are different; the model follows the code.
- **The tokeniser counts the empty level behind a trailing slash.** The example in
  `mosquitto/lib/mosquitto.h:1423-1433` leaves it out; the model follows the code.
- **A message that is too long blocks its place for ever.** The payload alone is checked against 2^28, so a
  topic can take the packet over the limit. `Oversized.FailedPublishIsQueuedIff` says exactly when a publish
  that returns an error has queued its message. Such a message is never sent and never reported, and keeps
  its place in the window in every run, since retries ignore that it cannot be sent
  (`Oversized.TooLongIsForever`, `Oversized.TooLongKeepsItsPlace`, `Oversized.RetryIgnoresTooLong`).
- **`on_publish` can be skipped.** An acknowledged message is reported exactly if the message its removal lets
  in can be sent (`Oversized.AckReportsIff`; `Oversized.AckedButNotReported` is an input with two accepted
  publishes and a window of one).
- **Incoming QoS 2 delivery is not exactly once after a reconnect.** A PUBLISH repeated under an id that the
  client still holds is queued again; the stale copy is handed over at a later PUBREL in place of a newer
  message (`InboundDelivery.StaleCopyIsDelivered` is an input). Delivery is exactly once if and only if the
  client never takes a PUBLISH under an id it holds (`InboundDelivery.ExactlyOnceIff`).

- **Two loops can close a connection whose ping is young.** A ping is measured from its own clock reading, but
  the next gap from the reading that found the one before. If the two are apart, a loop that comes a keepalive
  time after the earlier one closes the connection, however young the ping (`Keepalive.PingTimeIsNoMeasure`).
  `Keepalive.StaysOpenIff` is the exact condition.
- **What a write offers beyond the end of a packet is lost.** Each packet is written by calls of its own, so
  results of `write` that add up to the waiting bytes need not empty the queue (`Writing.ExcessIsLost`).
  `Writing.EnoughDrains` says how many bytes always do.

## Model

| member | source | states |
|---|---|---|
| MessageLists.MessageList.Append | mosquitto/lib/messages_mosq.c:125-133 | appending keeps the chain, the tail pointer and the length right; with a stale tail pointer on an empty list, the message lands behind a foreign node and not in the list |
| MessageLists.MessageList.Locate | mosquitto/lib/messages_mosq.c:222-247 | finds the first message with the id, and its predecessor |
| MessageLists.MessageList.CutAt | mosquitto/lib/messages_mosq.c:226-243 | unlinking at the head, in the middle or at the tail leaves a well-formed list without exactly that message |
| MessageLists.MessageList.Unlink | mosquitto/lib/messages_mosq.c:214-247 | removes the first message with the id and nothing else |
| ClientLists.Mosquitto.SendPublishPacket | mosquitto/lib/send_mosq.c:84-177 | one PUBLISH is queued unless there is no connection or the length cannot be encoded |
| ClientLists.Mosquitto.QueueOut | mosquitto/lib/messages_mosq.c:117-152 | the message takes a place in the window exactly if there is room, and is appended to a well-formed list; with a stale tail pointer it is counted and linked behind a foreign node, and the head stays null |
| ClientLists.Mosquitto.MidGenerate | mosquitto/lib/util_mosq.c:148-167 | gives the successor modulo 2^16, never 0 |
| ClientLists.Mosquitto.Publish | mosquitto/lib/mosquitto.c:569-634 | on linked lists, all argument checks included, does exactly what the function on values does (whose packets, codes and changes the rows of `Calls` state), and keeps both lists well formed and disjoint; a sound tail pointer is needed above QoS 0 only |
| ClientLists.Mosquitto.Subscribe | mosquitto/lib/mosquitto.c:636-644 | connection and filter checked, takes an id from the counter of the publishes and queues one packet with it |
| ClientLists.Mosquitto.Unsubscribe | mosquitto/lib/mosquitto.c:646-654 | the same for unsubscribe |
| ClientLists.Mosquitto.Start | mosquitto/lib/messages_mosq.c:253-264 | letting one queued message in changes its state only, counts it and sends it |
| ClientLists.Mosquitto.StartQueued | mosquitto/lib/messages_mosq.c:249-273 | the walk over the list starts queued messages in order while there is room, and stops at the first that cannot be sent |
| ClientLists.Mosquitto.RemoveOutgoing | mosquitto/lib/messages_mosq.c:214-277 | removal with the promotions it causes, in place, is the removal on values; the node returned is the one unlinked |
| ClientLists.Mosquitto.HandlePubackcomp | mosquitto/lib/read_handle_shared.c:60-92 | on_publish gets the removed message, and only if removal and promotion succeeded |
| ClientLists.Mosquitto.OutUpdate | mosquitto/lib/messages_mosq.c:371-389 | changes state and timestamp of exactly the first message with the id, or reports that there is none |
| ClientLists.Mosquitto.HandlePubrec | mosquitto/lib/read_handle_shared.c:94-116 | a known id moves to waiting for PUBCOMP and is answered with PUBREL; an unknown one is an error and nothing is sent |
| ClientLists.Mosquitto.HandlePublish | mosquitto/lib/read_handle.c:113-154 | QoS 0 and 1 go to on_message at once, QoS 2 to the incoming list, each with its acknowledgement |
| ClientLists.Mosquitto.QueueIn | mosquitto/lib/messages_mosq.c:117-152 | the incoming list only ever gets QoS 2 messages, and stays well formed and disjoint from the outgoing one |
| ClientLists.Mosquitto.HandlePubrel | mosquitto/lib/read_handle_shared.c:118-161 | the first held message with the id goes to on_message; an unknown id is answered but delivers nothing; bad flags are a protocol error under 3.1.1 |
| ClientLists.Mosquitto.UnlinkIncoming | mosquitto/lib/messages_mosq.c:279-307 | removal from the incoming list, leaving the outgoing one alone |
| ClientLists.Mosquitto.RetryMessage | mosquitto/lib/messages_mosq.c:324-348 | one overdue message is marked as a duplicate and its pending packet is sent again; others are untouched |
| ClientLists.Mosquitto.RetryList | mosquitto/lib/messages_mosq.c:312-352 | one pass over a linked list resends, in list order, what the pass on values resends |
| ClientLists.Mosquitto.RetryCheck | mosquitto/lib/messages_mosq.c:354-363 | both lists are passed over, outgoing first |
| ClientLists.Mosquitto.ResetIncoming | mosquitto/lib/messages_mosq.c:160-184 | only timestamps change; the branch that unlinks a message is never taken; the leftover pointer is the last incoming message |
| ClientLists.Mosquitto.ResetOutgoing | mosquitto/lib/messages_mosq.c:186-211 | window, count and states are rebuilt in order; the tail pointer comes out wrong exactly when the list is empty and the first loop left a pointer |
| ClientLists.Mosquitto.ReconnectReset | mosquitto/lib/messages_mosq.c:154-212 | from any state, a stale tail pointer included, both lists come out chained, disjoint and correctly counted; the outgoing tail pointer is right if and only if there is an outgoing message or no incoming one |
| ClientLists.Mosquitto.Reconnect | mosquitto/lib/mosquitto.c:484-555 | packets not yet written are dropped and the lists are reset, whatever the connection attempt gives; exactly when the tail pointer is right afterwards |
| ClientLists.LosePublish | mosquitto/lib/messages_mosq.c:157-211 | a run in which a publish queued behind a stale tail pointer hangs behind the incoming message while the outgoing list stays empty |
| ClientLists.StaleClient | mosquitto/lib/messages_mosq.c:157-211 | a run that makes the tail pointer stale |
| Calls.BadPublish | mosquitto/lib/mosquitto.c:575-581 | a publish whose arguments fail a check changes and sends nothing, with the code of the check that comes first |
| Calls.PublishWithoutAck | mosquitto/lib/mosquitto.c:583-589 | a QoS 0 publish takes the next id and, connected and with a length below 2^28, queues exactly one PUBLISH with that id, topic, payload and retain, dup clear, and returns success; otherwise nothing is queued and the code says why |
| Calls.PublishWithAck | mosquitto/lib/mosquitto.c:590-632 | a publish above QoS 0 appends its message with the time of the call; with room it counts, waits for its first acknowledgement and is sent once; without room it is queued unsent; every code |
| Calls.SubscribeSends | mosquitto/lib/send_client_mosq.c:160-202 | a subscribe sends one SUBSCRIBE with the next id, that filter and QoS, or says why not |
| Calls.UnsubscribeSends | mosquitto/lib/send_client_mosq.c:205-245 | an unsubscribe sends one UNSUBSCRIBE with the next id and that filter, or says why not |
| Calls.PubrecAnswered | mosquitto/lib/read_handle_shared.c:94-116 | the first message with the id waits for PUBCOMP from now on, all others are unchanged, and one PUBREL with that id goes out |
| Calls.UnknownAcks | mosquitto/lib/read_handle_shared.c:60-116 | a PUBREC for an id that is not outstanding is an error, a PUBACK or PUBCOMP for one is ignored; neither changes anything |
| Calls.PublishReceived | mosquitto/lib/read_handle.c:113-154 | a received PUBLISH is handed to on_message at QoS 0 and 1, acknowledged at QoS 1, held and answered with PUBREC at QoS 2, and refused without a topic |
| Calls.PubrelReceived | mosquitto/lib/read_handle_shared.c:118-161 | a PUBREL is answered with PUBCOMP and hands over the first held message with its id, leaving the rest in order |
| Calls.ResetRefills | mosquitto/lib/messages_mosq.c:186-211 | for any list above QoS 0, in whatever states: a reset lets in as many messages from the front as the window holds, queues the rest and clears every timestamp |
| Calls.RetrySendsTheDue | mosquitto/lib/messages_mosq.c:312-352 | a retry pass sends exactly the pending packets of the started messages that have waited longer than the retry time, in list order |
| Calls.RetryRecsTheDue | mosquitto/lib/messages_mosq.c:333-337 | and PUBRECs for exactly the held messages that have |
| Calls.RecentIsSilent | mosquitto/lib/messages_mosq.c:325 | no retry pass sends anything for an id all of whose messages were touched at most the retry time ago |
| Calls.NoRetrySoonAfterPublish | mosquitto/lib/mosquitto.c:595 | so none does within the retry time of a publish |
| Calls.NoRetrySoonAfterPubrec | mosquitto/lib/messages_mosq.c:381 | nor of a PUBREC |
| Calls.NoRetrySoonAfterReceipt | mosquitto/lib/read_handle.c:113-149 | nor of a received QoS 2 PUBLISH |
| Calls.NoRetrySoonAfterRetry | mosquitto/lib/messages_mosq.c:325-348 | nor of a retry pass that has sent something for the id |
| Direct.StepIsDue | mosquitto/lib/read_handle.c:132-142 | every step queues the QoS 0 PUBLISH or PUBACK that is due and no other, and passes on the QoS 0 or 1 message received and no other |
| Direct.DirectMessages | mosquitto/lib/mosquitto.c:588-589 | in every run the QoS 0 PUBLISHes queued are those of the QoS 0 publishes that could be sent, and the PUBACKs those of the QoS 1 messages received, in order and once each, also counted since the last reconnect; the QoS 0 and 1 messages at on_message are those received, in order and unchanged |
| Direct.SendsAndDeliversWhatIsDue | mosquitto/lib/read_handle.c:113-154 | the same of the linked-list client |
| ClientRuns.Handle | mosquitto/lib/read_handle.c:32-62 | every packet of the two flows is dispatched to its handler, with the state, packets, callbacks and code of the function on values |
| ClientRuns.Drive | mosquitto/lib/messages_mosq.c:117-363 | over every run of calls, packets, retries, connection losses and reconnects, the linked-list client has the state of the model, has queued its packets and made its on_publish and on_message calls, in order; its tail pointer is wrong exactly when the model says so, and only a publish above QoS 0 in such a state is excluded |
| ClientRuns.DeliversWhatItTakes | mosquitto/lib/read_handle_shared.c:118-161 | over every such run the linked-list client hands over incoming QoS 2 messages in order and without loss or repetition, per id |
| ClientSystem.Act | mosquitto/lib/mosquitto.c:569-654 | one step of client, channels and broker with the linked-list client in it: state, callbacks and packets are those of the model system, and its tail pointer is wrong exactly when the system says so |
| ClientSystem.Play | mosquitto/lib/messages_mosq.c:117-389 | the same over whole runs; the packets queued since the last connect are the end of the history |
| ClientSystem.ReportsExactlyOnce | mosquitto/lib/read_handle_shared.c:60-116 | in every run of the system the on_publish calls made by the linked-list client name each message at most once, with the published content, after the broker has accepted it, exactly once if its QoS is 2 |
| Window.PromoteExactlyOne | mosquitto/lib/messages_mosq.c:249-273 | with one free place, promotion starts exactly the first queued message and sends exactly its PUBLISH |
| Window.RemoveSlidesWindow | mosquitto/lib/messages_mosq.c:214-277 | removing an in-flight message keeps the window full, moving it by one message at most |
| Window.RemoveKeepsWindowIff | mosquitto/lib/messages_mosq.c:226-245 | the window survives a removal if and only if the removed message was in flight |
| Window.PublishKeepsWindow | mosquitto/lib/mosquitto.c:618-632 | a publish keeps waiting messages in front of queued ones, and the count equal to the window's width |
| Window.PubrecKeepsWindow | mosquitto/lib/messages_mosq.c:371-389 | a PUBREC for a QoS 2 message in flight keeps the window |
| Window.RetryKeepsWindow | mosquitto/lib/messages_mosq.c:312-352 | a retry pass keeps the window |
| Window.ReconnectOnlyClearsTimestamps | mosquitto/lib/messages_mosq.c:186-211 | from a state in window shape, a reconnect changes no message state and no count, only timestamps |
| Window.FirstRetryAfterReconnect | mosquitto/lib/messages_mosq.c:312-363 | the first late enough retry pass after a reconnect sends one packet per in-flight message, in publish order, except for a PUBLISH too long to be sent; none for queued ones; then one PUBREC per incoming message |
| Delivery.PublishKeepsInv | mosquitto/lib/mosquitto.c:569-634 | a publish with a fresh id keeps the invariant of the composed system |
| Delivery.RequestKeepsInv | mosquitto/lib/send_client_mosq.c:160-245 | a subscribe or unsubscribe takes an id and keeps the invariant |
| Delivery.ReconnectKeepsInv | mosquitto/lib/messages_mosq.c:154-212 | losing everything in transit at a reconnect keeps it |
| Delivery.RetryKeepsInv | mosquitto/lib/messages_mosq.c:312-363 | a retry at any time, with or without a connection, keeps it, so duplicates never get ahead of a PUBREL |
| Delivery.PubrecKeepsInv | mosquitto/lib/read_handle_shared.c:94-116 | handling a PUBREC keeps it |
| Delivery.AckKeepsInv | mosquitto/lib/read_handle_shared.c:60-92 | handling a PUBACK or PUBCOMP keeps it, promotion included |
| Delivery.ForeignKeepsInv | mosquitto/lib/read_handle_shared.c:118-161 | packets of the broker's own flow do not disturb the client's |
| Delivery.PubrecIsExpected | mosquitto/lib/read_handle_shared.c:102-106 | a PUBREC always names a QoS 2 message inside the window |
| Delivery.AckIsExpected | mosquitto/lib/read_handle_shared.c:71-79 | a PUBACK or PUBCOMP that finds a message finds one in flight, in the state that waits for it, and already accepted by the broker |
| Delivery.NextKeepsInv | mosquitto/lib/messages_mosq.c:117-389 | every step of client, channels and broker keeps the invariant that ties each id's message, packets in transit and broker state together |
| SendOrder.ExactlyOnce | mosquitto/lib/read_handle_shared.c:60-116 | in every run, messages of any size included, the broker accepts each QoS 2 message at most once and with the published content, exactly once if on_publish was called; on_publish is called at most once per message and only after acceptance |
| SendOrder.PubrelIsFinal | mosquitto/lib/messages_mosq.c:187-211 | in every run no PUBLISH follows a PUBREL of the same message, through retries, promotions and reconnects |
| SendOrder.FirstAttemptsFollowPublishes | mosquitto/lib/messages_mosq.c:249-273 | in every run first attempts above QoS 0 happen once and in publish order, and queued messages have never been sent |
| SendOrder.PubrecIsNeverUnknown | mosquitto/lib/mosquitto.c:1022-1035 | in every run handling a PUBREC succeeds, so the loop never gives up because of one |
| SendOrder.WindowInEveryRun | mosquitto/lib/messages_mosq.c:117-152 | window shape, count and distinct ids in every reachable state |
| Progress.RankAccount | mosquitto/lib/messages_mosq.c:214-389 | per step: acknowledgements owed rise only by publishes and fall by one exactly on first acknowledgements |
| Progress.AccountOverRun | mosquitto/lib/messages_mosq.c:214-389 | the same account balances over every run |
| Draining.NoMessageIsLost | mosquitto/lib/messages_mosq.c:214-277 | in every run whose messages fit into packets, through connection losses and reconnects, each publish above QoS 0 is in the list or has been reported |
| Draining.LosslessKeepsFlowing | mosquitto/lib/read_handle_shared.c:60-161 | packet movements, publishes, subscribes, retries and clean packets of the broker keep every in-flight message covered by a packet under way; a movement lowers the potential, any other step raises it by a stated bound at most |
| Draining.LosslessSchedulesDrain | mosquitto/lib/messages_mosq.c:214-363 | in every schedule of such steps the packet movements are bounded by the potential at the start and what the other steps add; it cannot get stuck before both channels are empty, and then nothing is outstanding |
| Draining.ReconnectAndRetryFlow | mosquitto/lib/messages_mosq.c:154-363 | from every reachable state one reconnect and one late enough retry pass cover every in-flight message again, and cost no acknowledgement |
| Draining.EveryMessageGetsThrough | mosquitto/lib/messages_mosq.c:154-389 | from every reachable state, after reconnect and retry, in every schedule without losses, publishes and retries included: movements are bounded, and whenever both channels are empty every message ever published above QoS 0 has been reported, with exactly the acknowledgements owed and asked for |
| Oversized.FailedPublishIsQueuedIff | mosquitto/lib/mosquitto.c:569-634 | exactly when a publish that returns an error has queued its message, and that it then has a place in the window and nothing is sent |
| Oversized.AckReportsIff | mosquitto/lib/read_handle_shared.c:77-89 | exactly when an acknowledged message is reported: if nothing waits behind the window or the first message waiting can be sent; the window moves on either way |
| Oversized.AckedButNotReported | mosquitto/lib/messages_mosq.c:249-264 | two accepted publishes and a window of one: the first is acknowledged and not reported, the second sits in the window unsent |
| Oversized.RetryIgnoresTooLong | mosquitto/lib/messages_mosq.c:324-348 | a retry sends nothing for a message that is too long and leaves its state |
| Oversized.TooLongIsForever | mosquitto/lib/messages_mosq.c:214-352 | in every run a message that is too long is never sent above QoS 0 and never reported, and stays in the list |
| Oversized.TooLongKeepsItsPlace | mosquitto/lib/messages_mosq.c:187-277 | no step of the system takes such a message out of the window |
| Inbound.InboundIsConserved | mosquitto/lib/read_handle.c:143-149 | for arbitrary packets and reconnects: per id, messages handed over followed by those held are the PUBLISHes accepted, in order |
| Inbound.InboundIsExactlyOnce | mosquitto/lib/read_handle_shared.c:118-161 | if no PUBLISH repeats a held id, all but possibly the latest message per id have been handed over exactly once |
| InboundDelivery.AfterKeepsGood | mosquitto/lib/read_handle.c:143-149 | every step of client, sender and channels, except taking a PUBLISH under a held id, keeps the invariant that ties one id's message in flight, packets in transit and held, taken and submitted messages together |
| InboundDelivery.ExactlyOnceUnlessHeld | mosquitto/lib/read_handle_shared.c:118-161 | as long as no PUBLISH is taken under a held id, on_message gets what was submitted under the id, in order and once, except that the message in flight may be missing |
| InboundDelivery.ExactlyOnceIff | mosquitto/lib/read_handle.c:143-149 | whenever nothing is in flight under an id: everything submitted has been handed over exactly once, in order, and nothing is held, if and only if the client never took a PUBLISH under that id while holding it |
| InboundDelivery.StaleCopyIsDelivered | mosquitto/lib/messages_mosq.c:279-307 | an input: after a reconnect at the wrong moment the old message is handed over twice and the newer one under the same id is held back |
| MessageIds.NthClosedForm | mosquitto/lib/util_mosq.c:148-167 | the k-th id in closed form, running through 1 to 65535 |
| MessageIds.NthEqualIff | mosquitto/lib/util_mosq.c:148-167 | ids are never 0, and repeat exactly every 65535 |
| MessageIds.RecentIdsDiffer | mosquitto/lib/util_mosq.c:148-167 | ids generated less than 65535 apart differ |
| OutstandingIds.RunKeepsCounted | mosquitto/lib/util_mosq.c:148-167 | for arbitrary packets, reconnects, subscribes and unsubscribes, outstanding messages keep the ids generated for them, in publish order |
| OutstandingIds.RecentIdsAreDistinct | mosquitto/lib/messages_mosq.c:222-226 | in every run whose outstanding messages have ids among the last 65535 generated, by publishes, subscribes and unsubscribes together, lookup by id finds exactly the intended message, and the next id is taken exactly if the oldest of these is outstanding |
| RemainingLength.FourBytesSuffice | mosquitto/lib/util_mosq.c:41-61 | four digits are enough exactly below 2^28 |
| RemainingLength.ReadDigits | mosquitto/lib/net_mosq.c:944-985 | reading inverts writing and uses exactly the bytes written, whatever follows |
| RemainingLength.ScanBound | mosquitto/lib/net_mosq.c:944-985 | an accepted field has at most four bytes, and a value below 128 to the power of their number |
| RemainingLength.WrittenFieldIsShortest | mosquitto/lib/util_mosq.c:41-61 | no accepted field is shorter than the one the client writes for the same value |
| RemainingLength.MalformedIff | mosquitto/lib/net_mosq.c:944-953 | a length field is rejected exactly when a fifth byte arrives |
| PacketBuffer.Buffer.EncodeLength | mosquitto/lib/util_mosq.c:47-59 | the loop writes the base-128 digits, and five bytes exactly for lengths that do not fit |
| PacketBuffer.Buffer.Alloc | mosquitto/lib/util_mosq.c:41-78 | succeeds exactly below 2^28, with command and length field written and room for exactly the body |
| PacketBuffer.Buffer.WriteString | mosquitto/lib/net_mosq.c:619-624 | appends length prefix and bytes, both cut to 16 bits, within the buffer |
| PacketBuffer.Buffer.WriteUint16 | mosquitto/lib/net_mosq.c:643-647 | appends two bytes, most significant first |
| PacketBuffer.Buffer.ReadUint16 | mosquitto/lib/net_mosq.c:626-641 | takes two bytes, or fails without enough of them |
| PacketBuffer.Buffer.ReadBytes | mosquitto/lib/net_mosq.c:576-585 | takes exactly the bytes asked for, or fails |
| PacketBuffer.Buffer.ReadString | mosquitto/lib/net_mosq.c:596-617 | takes a length-prefixed field off the rest, or fails as the specification does |
| PacketBuffer.TakeFieldInverts | mosquitto/lib/net_mosq.c:596-624 | reading a field inverts writing it, for at most 65535 bytes |
| Builders.BuildPublish | mosquitto/lib/send_mosq.c:248-282 | every write stays in the buffer, and what is written is command, shortest length field and body |
| Builders.PublishFills | mosquitto/lib/send_mosq.c:256-280 | the planned length is met if and only if the topic has at most 65535 bytes |
| Builders.ParsePublish | mosquitto/lib/read_handle.c:64-113 | the parser decodes as section 3.3 of MQTT 3.1.1 says, rejecting short, empty and QoS 3 packets |
| Builders.PublishRoundTrip | mosquitto/lib/send_mosq.c:248-282 | the receiver gets topic, payload, QoS, retain, dup and, above QoS 0, the id that were sent |
| Builders.BuildSubscribe | mosquitto/lib/send_client_mosq.c:160-202 | every write stays in the buffer, and the packet has the planned form |
| Builders.BuildUnsubscribe | mosquitto/lib/send_client_mosq.c:205-245 | the same for UNSUBSCRIBE |
| Builders.SubscribeFills | mosquitto/lib/send_client_mosq.c:174-191 | both planned lengths are met if and only if the filter has at most 65535 bytes |
| Builders.PlanConnect | mosquitto/lib/send_client_mosq.c:62-87 | the length planned before writing is never too small for what is written, and is exact if and only if every length-prefixed field fits its prefix |
| Builders.BuildConnect | mosquitto/lib/send_client_mosq.c:32-145 | for both versions and all option combinations every write stays in the buffer, and header, id, will and credentials follow each other |
| Builders.ConnectFills | mosquitto/lib/send_client_mosq.c:75-134 | the planned length is met if and only if every length-prefixed field has at most 65535 bytes |
| Builders.ConnectRoundTrip | mosquitto/lib/send_client_mosq.c:97-134 | a parser after section 3.1 of MQTT 3.1.1 recovers every field, for all option combinations |
| Builders.BuildCommandWithMid | mosquitto/lib/send_mosq.c:200-224 | four bytes: the command, with bit 3 set for a duplicate, a length of 2, and the id |
| Builders.BuildSimpleCommand | mosquitto/lib/send_mosq.c:227-246 | two bytes: the command and a length of 0 |
| Frames.SubscribeReads | mosquitto/lib/send_client_mosq.c:180-198 | parsers after sections 3.8 and 3.10 of MQTT 3.1.1 recover id, filter and QoS |
| Frames.SendPacket | mosquitto/lib/send_mosq.c:64-282 | every packet of the engine with lengths that fit becomes a frame from which a peer that follows sections 3.3 to 3.10 of MQTT 3.1.1 reads that packet; the queue takes it for QoS 0 exactly if it is a QoS 0 PUBLISH |
| Frames.PacketsArrive | mosquitto/lib/net_mosq.c:746-875 | however the bytes are split by partial writes, the peer reads the packets in order; once the queue is empty it has read all, and on_publish has been called once for each QoS 0 message |
| Arrivals.RunsSendSoundPackets | mosquitto/lib/send_mosq.c:84-177 | whatever happens in a run, everything queued has lengths that fit and can be built |
| Arrivals.RunsArrive | mosquitto/lib/net_mosq.c:746-1042 | from a whole run of the client to its peer: what it has queued since the last reconnect is read in order and unchanged, all of it once the queue has been written |
| PacketQueue.FlushKeepsInv | mosquitto/lib/net_mosq.c:763-869 | the writing loop keeps stream and callbacks in step for every script of partial writes and errors, and leaves no complete packet unreported |
| PacketQueue.StreamIsConserved | mosquitto/lib/net_mosq.c:746-875 | bytes taken, rest of the current packet and queue are together all packets enqueued; the packets taken completely are the first k, exactly their QoS 0 messages have been reported, and the connection is closed exactly if the last of them, and no other, is a DISCONNECT, after which nothing is written |
| Writing.WriteIsCalled | mosquitto/lib/net_mosq.c:763-869 | for every script: all results used but the last have taken bytes, each of them makes the stream longer, the last one gives the code, and the call stops early only after a DISCONNECT |
| Writing.FirstResultWrites | mosquitto/lib/net_mosq.c:770-786 | with something to write, a first result that takes bytes moves the stream on |
| Writing.EnoughDrains | mosquitto/lib/net_mosq.c:763-869 | without a DISCONNECT, as many results as there are bytes, or results that add up to the bytes and to what the ends of packets can waste, write everything in one call |
| Writing.ExcessIsLost | mosquitto/lib/net_mosq.c:770-776 | an input: results that add up to the waiting bytes leave a packet unwritten |
| PacketLists.OutQueue.Enqueue | mosquitto/lib/net_mosq.c:146-196 | appends to a well-formed linked queue |
| PacketLists.OutQueue.WriteCurrent | mosquitto/lib/net_mosq.c:770-798 | the inner loop writes the current packet from its position, partial writes and errors included |
| PacketLists.OutQueue.Complete | mosquitto/lib/net_mosq.c:807-872 | a complete packet gives way to the next one, with its callback or, for DISCONNECT, the closing of the socket |
| PacketLists.OutQueue.PacketWrite | mosquitto/lib/net_mosq.c:746-875 | the whole call on linked nodes: on an open connection the stream grows with every result that takes bytes, and the call ends only when nothing is left, a DISCONNECT is complete, the socket would block or it has failed, with the code for that; enough results empty the queue; while the connection is being made nothing is written; on a closed socket nothing changes |
| PacketLists.OutQueue.DropAll | mosquitto/lib/mosquitto.c:511-533 | a reconnect empties the queue |
| PacketReader.Reader.ReadLength | mosquitto/lib/net_mosq.c:944-985 | the length field is gathered across any number of calls |
| PacketReader.Reader.ReadBody | mosquitto/lib/net_mosq.c:986-1019 | the body is gathered across any number of calls |
| PacketReader.Reader.PacketRead | mosquitto/lib/net_mosq.c:880-1042 | each call keeps bytes handed on, held back and unread equal to the stream; it hands on one whole packet and returns the handler's code; or meets a malformed length and returns a protocol error; or stops at one failed read, with success exactly for EAGAIN, connection lost for ECONNRESET and for the end of the stream outside a body, and ERRNO for the end of the stream inside a body and for other errors |
| PacketReader.Reader.ReadAll | mosquitto/lib/net_mosq.c:880-1042 | for every split into short reads and EAGAINs, the packets handed on are those of parsing the received bytes at once, up to the first one the handler refuses; a read that fails otherwise than by EAGAIN is the last one and its code, never success, is returned |
| PacketReader.Reader.TakeLengthByte | mosquitto/lib/net_mosq.c:944-958 | for every byte, accumulator and multiplier stay within 32 bits and stand for the field read so far |
| PacketReader.ParseFrames | mosquitto/lib/net_mosq.c:880-1042 | parsing a concatenation of packets gives them back |
| PacketReader.WireCarriesPackets | mosquitto/lib/net_mosq.c:746-1042 | whatever the partial writes, the peer's parser finds the enqueued packets in order |
| PublishPipeline.SendRealPublish | mosquitto/lib/send_mosq.c:248-282 | a publishable message becomes exactly the frame of its command and body |
| PublishPipeline.PublishesArrive | mosquitto/lib/send_mosq.c:248-282 | from builder through queue, partial writes, stream parser and PUBLISH parser, the messages arrive in order and unchanged |
| Topics.PubTopicCheck | mosquitto/lib/util_mosq.c:174-187 | accepts exactly topics without wildcards of at most 65535 bytes |
| Topics.SubTopicCheck | mosquitto/lib/util_mosq.c:196-217 | accepts exactly filters of at most 65535 bytes whose levels are each a name, a `+` or a final `#` |
| Topics.CheckMeansLevelsOk | mosquitto/lib/util_mosq.c:196-217 | the character test is the level-wise test, from any point of a level |
| Topics.TopicMatchesSub | mosquitto/lib/util_mosq.c:220-295 | the loops end and answer for every input but two empty strings |
| Topics.MatchMeansLevels | mosquitto/lib/util_mosq.c:220-295 | for valid non-empty filters and topics the answer is that of sections 4.7.1 and 4.7.2 of MQTT 3.1.1, except no in exactly the missed cases |
| Topics.MissedExamples | mosquitto/lib/util_mosq.c:220-295 | one concrete filter and topic for each missed case |
| Topics.JoinLevels | mosquitto/lib/mosquitto.c:1360-1417 | splitting into levels loses nothing |
| Topics.Tokenise | mosquitto/lib/mosquitto.c:1360-1417 | one token per level, with a null pointer for each empty one, and every store within the table; no token is empty or has a slash in it, and joined by slashes they give the text back |
| Timers.LoopForever | mosquitto/lib/mosquitto.c:1001-1081 | for every behaviour of network and user: the loops return the codes answered, in order; a failed one is followed by a sleep; each sleep depends only on the sleeps since the last successful loop; and the call ends, with the right code, only on a fatal code, EPROTO, a disconnect or with reconnecting disabled |
| Timers.SleepsAreQuadratic | mosquitto/lib/mosquitto.c:1051-1061 | the sleeps are min(D*k*k, M) if the first product over the cap is still over it in 32 bits; up to that count each sleep is right if and only if its product is not below the cap there |
| Timers.ScheduleIsRightIff | mosquitto/lib/mosquitto.c:1051-1061 | all sleeps are min(D*k*k, M) if and only if, in 32 bits, the first product over the cap is above it, or equals it and the next one is above it |
| Timers.ProductsDiffer | mosquitto/lib/mosquitto.c:1051-1053 | two consecutive products are never equal in 32 bits |
| Timers.SmallCapsAreSafe | mosquitto/lib/mosquitto.c:1051-1061 | for every cap below 2^30 no product wraps |
| Timers.BackoffGrowsToTheCap | mosquitto/lib/mosquitto.c:1051-1061 | for such caps the sleeps are min(D*k*k, M) and never decrease |
| Timers.RunsBackOff | mosquitto/lib/mosquitto.c:1042-1078 | so in every run of the loop |
| Timers.LargeCapsWrap | mosquitto/lib/mosquitto.c:1051-1061 | for the largest cap the 65537th sleep has length 0 |
| Timers.SteadyWithoutBackoff | mosquitto/lib/mosquitto.c:1053-1055 | without exponential backoff every sleep of every run is the delay, cut to the cap |
| Timers.KeepsTrying | mosquitto/lib/mosquitto.c:1012-1079 | failures of the network never end the loop: it loops after each success, and sleeps and reconnects after each failure |
| Timers.OtherCodesEndIt | mosquitto/lib/mosquitto.c:1017-1041 | every other code, or EPROTO, ends it at once and is returned |
| Timers.StopsWhenAsked | mosquitto/lib/mosquitto.c:1043-1078 | no sleep comes after a disconnect or with reconnecting disabled, and a disconnect during a sleep ends the loop with success |
| Keepalive.Client.HandlePingresp | mosquitto/lib/read_handle_shared.c:45-55 | a PINGRESP stops the ping clock |
| Keepalive.Client.KeepaliveCheck | mosquitto/lib/util_mosq.c:83-146 | a connection that is not idle is left alone; an idle one is pinged once, with both gaps restarted, if it is established and has no open ping, and closed if not |
| Keepalive.Client.Misc | mosquitto/lib/mosquitto.c:1083-1119 | the periodic call by cases: when it pings, exactly when it closes, which code it returns, what it leaves alone, and when it runs a retry pass |
| Keepalive.OpenMeansFresh | mosquitto/lib/mosquitto.c:1083-1119 | a call that leaves the socket open leaves both idle gaps and the age of an open ping below the keepalive time |
| Keepalive.PingsWaitForAnswers | mosquitto/lib/send_mosq.c:38-52 | on every connection of every run PINGREQs exceed PINGRESPs by at most one |
| Keepalive.SilenceIsNoticed | mosquitto/lib/mosquitto.c:1097-1116 | a peer silent for two keepalive times and two loop periods is disconnected |
| Keepalive.StaysOpenIff | mosquitto/lib/mosquitto.c:1083-1119 | over every run from a reconnect on which nobody closes: the connection stays open exactly if there is no gap before CONNACK or after a disconnect, none while a ping is open, and no reading finds a ping as old as the keepalive time; and until then it sends one PINGREQ for each gap |
| Keepalive.AnsweringKeepsOpen | mosquitto/lib/util_mosq.c:112-118 | a peer that answers every ping before a reading comes a keepalive time after the one that found the gap keeps the connection |
| Keepalive.PingTimeIsNoMeasure | mosquitto/lib/util_mosq.c:108-146 | an input: the connection is closed although its ping is younger than the keepalive time |

## Left out

- Sockets, name lookup, `select`, the socket pair and TLS: reads and writes are scripts of results, and the outcome of a connection attempt is a parameter.
- Threads: each API call or handled packet is one step. `mosquitto_publish` uses its message after unlocking; that interleaving is not modelled.
- Non-threaded sending, where queueing a packet also tries to write it.
- Allocation failures and null pointers passed as arguments.
- What callbacks do: they are recorded, not run, so a callback that calls back into the client is not modelled.
- A new session at the broker: the broker keeps its session, so `clean_session` has no effect on delivery.
- CONNACK, SUBACK and UNSUBACK handlers, so the broker does not answer a SUBSCRIBE or UNSUBSCRIBE here; and the return code handling of `mosquitto_loop_read` and `mosquitto_loop_write`.
- Log output, string tables, options, will and password setters, certificate checks, SOCKS5, SRV, and the Swift and Objective-C wrapper.
- on_disconnect: both closing branches of the periodic call can fire it for one timeout; no claim is made about it.
- The six list fields of the C structure are two list objects with three fields each.
- Byte strings stand for C strings; that they contain no NUL is stated where it matters. Lengths are unbounded where C has `int`.
- PacketReader.Reader.PacketRead: leaves out the refresh of `last_msg_in` during long bodies.
- Timers.LoopForever: leaves out the first reconnect after `mosquitto_connect_async`, whose result the code ignores; a run is observed as far as its answers reach.
- PacketReader.Reader.ReadAll: for streams whose command bytes are not zero; the code takes a zero command byte for "no command yet".
- Delivery.NextKeepsInv: under the three hypotheses above, because without each of them the code does not keep the invariant.
- Topics.MatchMeansLevels: for non-empty filters and topics, which is all that section 4.7.3 of MQTT 3.1.1 allows.
