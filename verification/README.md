# subp2p-explorer: a verified model

subp2p-explorer talks to Substrate networks. This project models the parts of it that have to be
right at every moment of a concurrent run, and proves what they keep:

- **The notifications protocol** (`Substream`, `HandlerModel`, `HandlerObject`, `HandlerRuns`,
  `HandlerFrames`, `Transitions`, `Behaviour`, `System`, `Closing`, `Talk`, `Wire`, `Session`, `EndToEnd`).
  A connection handler runs a four-state machine per protocol
  (closed, desired by the remote, opening, open), each state may own an inbound substream that is a
  six-state machine of its own, and two queues lead to the behaviour and on to the swarm. The classes
  `InboundSubstream`, `NotificationsHandler` and `Notifications` follow the code statement by
  statement and are proved equal to value-level steps; the theorems are about every run of those
  steps, first for one handler, then for any number of connections with the behaviour in between.
  `HandlerFrames` follows every received frame, `Talk` every message to a handler, and `Closing` shows
  which messages can meet which state. `Wire` has the bytes, both handshake upgrades over sockets that
  deliver in arbitrary pieces, `Session` ties the substream's history to them, and `EndToEnd` joins all of
  it: what the swarm receives from a peer is a prefix of what that peer sent.
- **Authority discovery** (`Records`, `Discovery`, `DiscoveryObject`, `DiscoveryRuns`, `DiscoveryHistory`,
  `DiscoveryExamples`): a window of 128 record queries with first pass, backfill and resubmission, and
  the books on which authorities were found, which addresses were dialled and how each dial ended, as the
  events of the run tell it.
- **The libp2p backend and the benchmark driver** (`Backend`, `BackendRuns`, `BackendHistory`): background
  task, command channel, one-shot reply, event channel and id translation, in every interleaving, and what
  the driver learns from the swarm's reports.
- **Decoders and reports** (`Scale`, `Identity`, `IdentityExact`, `IdentityLookup`, `IdentityRegistry`,
  `IdentityExamples`, `Connectivity`, `Report`, `DialReport`, `Ansi`): the identity registration decoder (SCALE codec, section A.2.2 of the
  Polkadot Protocol Specification), the three-phase batched name lookup against a resolver that looks at
  one authority at a time, the batched connectivity checks and the statistics, and the ANSI stripper
  (control sequences, section 5.4 of ECMA-48).

What is taken as given: libp2p answers each outbound substream request exactly once and under the same
index; events of one connection are delivered in order; a socket operation may answer ready, pending
or error in any way (`PollEnv`, `Answer`); the user submits messages between polls; query ids are fresh,
and a closest-peers query is answered by at most one event; a `find_node` call runs to completion before
the caller polls; an RPC node that answers tells the stored values. Signatures, hashing, parsing of
foreign formats, storage keys and the order in which a hash set is walked or shuffled are parameters,
so the theorems hold for all of them.

Findings, where the code does something other than its comments or names suggest. Each has an input on
which it happens and the condition under which it does not:

- A record is accepted although some of its addresses name no peer (`Records.UnnamedAddressAccepted`);
  all its addresses point to the one peer if and only if each names some peer
  (`Records.AllPointToPeerIff`).
- A registration in the simple layout whose display has no text is read once more as a legacy one, so a
  name can come out of the next field or out of the digest of a hashed display
  (`Identity.HashMisread`); `Identity.MissingDisplay` gives the result for every such display.
- The count of a legacy registration can be read as the tag of a simple one: with 1 to 8 additional
  fields (`Identity.LegacyMisread`), with 65 to 72 (`Identity.LongLegacyMisread`), and for longer lists as
  `Identity.LongListWindow` says; `Identity.LegacyRoundTrip` has the result for every list.
- Two authorities that share a stash get one name between them (`IdentityExamples.SharedStash`); the
  batched lookup agrees with the resolver if and only if no two that resolve share one
  (`IdentityLookup.FetchIdentityNames`).
- The exit test by lengths never holds for a list with duplicates
  (`DiscoveryExamples.DuplicateNeverCompletes`, `DiscoveryRuns.CompletionTest`).
- The pending dials of the summary are the addresses without an outcome if and only if no address is
  recorded for two authorities (`DiscoveryExamples.SharedAddress`, `DiscoveryRuns.DialAccounting`), and
  they are the pending dials of the statistics if and only if none with an outcome is
  (`DialReport.PendingDiffer`, `DialReport.SummaryVersusStatistics`).
- A stripped text can hold a new code (`Ansi.NotIdempotent`); stripping twice is stripping once if and
  only if no kept escape is followed, among the kept bytes, by a bracket (`Ansi.IdempotentIff`). A write
  cut inside a code is not stripped as a whole would be (`Ansi.SplitIffComplete`).
- Three of the four arms of a received `Close`, of a negotiated outbound substream and of a dial error
  are never taken: `pending_opening` is never set (`Closing.CloseMeetsOpen`, `Closing.NothingPending`,
  `Closing.AnswersMeetOpening`). This needs the behaviour; the handler alone could be driven there
  (`HandlerRuns.AbandonedRequest`).
- `CustomProtocolClosed` is never emitted (`System.NeverReportsClosed`).

## Model

| member | source | states |
|---|---|---|
| `Substream.NextKeepsPhase` | subp2p-explorer/src/notifications/upgrades/handshake.rs:268-360 | however the socket answers, `poll_next` leaves a substream that is kept with a socket history that fits its phase, never lowers the rank, only extends the history, and hands out a frame only in `Done`; the rank is the measure by which its loop ends |
| `Substream.ProcessKeepsPhase` | subp2p-explorer/src/notifications/upgrades/handshake.rs:203-259 | the same for `poll_process`: kept history, no step back, and a waiting substream is left alone |
| `Substream.DroppedSubstreamIsNotWellPhased` | subp2p-explorer/src/notifications/upgrades/handshake.rs:341-357 | after `None` or an error the field no longer describes the socket, so a substream must be dropped there |
| `Substream.NextHandsOut` | subp2p-explorer/src/notifications/upgrades/handshake.rs:268-360 | whatever the socket answers, the frames in the history grow by exactly the frame the poll hands out, and not at all if it hands out none |
| `Substream.ProcessHandsOutNothing` | subp2p-explorer/src/notifications/upgrades/handshake.rs:203-259 | `poll_process` reads no frame |
| `Substream.ReadySocketGetsHandshake` | subp2p-explorer/src/notifications/upgrades/handshake.rs:214-236 | a ready socket gets the handshake from either loop, before anything else |
| `Substream.WillingSocketOpens` | subp2p-explorer/src/notifications/upgrades/handshake.rs:214-251 | with a willing socket, one `poll_process` sends, flushes and is done |
| `Substream.HandshakeOutcomes` | subp2p-explorer/src/notifications/upgrades/handshake.rs:214-320 | while the handshake is under way, in both loops: a busy socket changes nothing, a failing one is an error |
| `Substream.ReadOutcomes` | subp2p-explorer/src/notifications/upgrades/handshake.rs:321-358 | what an open substream makes of each answer to a read: the frame itself, waiting, an error, or after the end a close and then `None` |
| `Substream.ClosingOutcomes` | subp2p-explorer/src/notifications/upgrades/handshake.rs:341-357 | what a closing substream makes of each answer to a close |
| `Substream.InboundSubstream.constructor` | subp2p-explorer/src/notifications/upgrades/handshake.rs:163-168 | a new inbound substream waits, with nothing sent |
| `Substream.InboundSubstream.SetHandshake` | subp2p-explorer/src/notifications/upgrades/handshake.rs:191-198 | the object equals the value-level step: only a waiting substream takes a handshake |
| `Substream.InboundSubstream.PollProcess` | subp2p-explorer/src/notifications/upgrades/handshake.rs:203-259 | the loop with moved-out state computes the step `Process` for every sequence of socket answers |
| `Substream.InboundSubstream.PollNext` | subp2p-explorer/src/notifications/upgrades/handshake.rs:268-360 | the loop computes the step `Next` for every sequence of socket answers |
| `HandlerObject.NotificationsHandler.constructor` | subp2p-explorer/src/notifications/handler.rs:151-198 | two closed protocols and an empty queue |
| `HandlerObject.NotificationsHandler.OnInbound` | subp2p-explorer/src/notifications/handler.rs:233-300 | new state, queue and substreams equal the value-level step; other protocols untouched |
| `HandlerObject.NotificationsHandler.OnOutbound` | subp2p-explorer/src/notifications/handler.rs:302-368 | likewise for a negotiated outbound substream |
| `HandlerObject.NotificationsHandler.OnDialError` | subp2p-explorer/src/notifications/handler.rs:369-416 | likewise for a failed outbound negotiation |
| `HandlerObject.NotificationsHandler.OnOpen` | subp2p-explorer/src/notifications/handler.rs:421-527 | likewise for an `Open` message, with a request only if none is pending |
| `HandlerObject.NotificationsHandler.OnClose` | subp2p-explorer/src/notifications/handler.rs:529-574 | likewise for a `Close` message, with the refusal of an opening before the close |
| `HandlerObject.NotificationsHandler.SendMessages` | subp2p-explorer/src/notifications/handler.rs:596-640 | the message loop computes `Drain`, and its `debug_assert!(false)` branch is unreachable |
| `HandlerObject.NotificationsHandler.Poll` | subp2p-explorer/src/notifications/handler.rs:585-711 | queue first, then all messages, then flushes up to the first failure, then inbound substreams up to the first event, as the value-level `Poll`; what that does to every frame, message and protocol is `HandlerFrames.NotesAreFrames`, `Transitions.PollReads`, `Transitions.PollFlushes`, `Transitions.PollSevers` and `HandlerRuns.RunInv` |
| `HandlerRuns.DrainLinks` | subp2p-explorer/src/notifications/handler.rs:596-640 | the whole message loop: what it takes from the channel it hands to the sink, in order, each after a readiness poll that was not pending |
| `HandlerRuns.PollOk` | subp2p-explorer/src/notifications/handler.rs:585-711 | a poll keeps every protocol in its state, moves held substreams only forward, and makes events of its own only for open protocols |
| `HandlerRuns.StepInv` | subp2p-explorer/src/notifications/handler.rs:220-711 | every event, message and poll keeps the invariant of the whole handler |
| `HandlerRuns.RunInv` | subp2p-explorer/src/notifications/handler.rs:220-711 | the invariant holds in every reachable state |
| `HandlerRuns.OutstandingRequests` | subp2p-explorer/src/notifications/handler.rs:302-568 | one unanswered outbound request when opening, none when open, one iff `pending_opening` otherwise, never two |
| `HandlerRuns.AnswersNeverMeetOpen` | subp2p-explorer/src/notifications/handler.rs:358-366 | a negotiated outbound substream or a dial error never arrives in `Open` |
| `HandlerObject.NotificationsHandler.ConnectionKeepAlive` | subp2p-explorer/src/notifications/handler.rs:578-582 | the loop over the protocols answers whether some protocol is not closed |
| `HandlerRuns.NotKeptAlive` | subp2p-explorer/src/notifications/handler.rs:578-582 | of the handler alone, under any messages: a connection that is not kept alive holds no substream, and exactly its protocols with `pending_opening` wait for one request each |
| `HandlerRuns.AbandonedRequest` | subp2p-explorer/src/notifications/handler.rs:546-562 | of the handler alone: a `Close` that met an opening would leave a request unanswered; `Closing.CloseMeetsOpen` shows that none does |
| `HandlerRuns.HeldPhases` | subp2p-explorer/src/notifications/handler.rs:663-707 | the phases a held substream can be in, per state; its handshake is the protocol's, is started at most once and before all else, and no frame is delivered before it was flushed |
| `HandlerRuns.CloseDesiredOnlyWhenOpen` | subp2p-explorer/src/notifications/handler.rs:684-695 | `CloseDesired` is only emitted for an open protocol: the branch for one desired by the remote is unreachable |
| `HandlerRuns.OpenIffCompleted` | subp2p-explorer/src/notifications/handler.rs:341-357 | a protocol is open iff the last of its completions and closes, emitted or queued, is a completion |
| `HandlerRuns.OpenAfterMeans` | subp2p-explorer/src/notifications/handler.rs:341-357 | reading of the recursive definition: some completion with no later close of the same protocol |
| `HandlerRuns.NotificationsWithinOpen` | subp2p-explorer/src/notifications/handler.rs:668-673 | each emitted notification comes after a completion of its protocol and before the next close |
| `HandlerRuns.MessagesConserved` | subp2p-explorer/src/notifications/handler.rs:596-640 | while open: taken messages followed by those in the channel are the submitted ones, in order; the sink got exactly the taken ones, each when it was ready |
| `HandlerRuns.NothingTakenWithoutSink` | subp2p-explorer/src/notifications/handler.rs:642-660 | after the outbound side was dropped no message is taken as long as the protocol stays open |
| `HandlerRuns.HeldForward` | subp2p-explorer/src/notifications/handler.rs:663-707 | over any stretch of a run in which a substream stays held, its phase never goes back and its history is only extended |
| `HandlerRuns.OpeningsAnsweredOnce` | subp2p-explorer/src/notifications/handler.rs:342-562 | entries into `Opening` = completions + refusals + 1 while opening |
| `HandlerFrames.PollPasses` | subp2p-explorer/src/notifications/handler.rs:663-708 | a poll that hands out a notification of `i` has read exactly that frame from the substream of `i`; one that does not has read none that is still held |
| `HandlerFrames.NotesAreFrames` | subp2p-explorer/src/notifications/handler.rs:663-708 | over every run and per protocol: the bytes of all emitted notifications are the frames read by its substreams, one substream after the other; none is swallowed, invented, repeated or moved |
| `HandlerFrames.NotesSinceTaken` | subp2p-explorer/src/notifications/handler.rs:668-673 | since the substream held now was taken, the emitted notifications are exactly the frames in its history, in order |
| `HandlerFrames.OfferedIsHeld` | subp2p-explorer/src/notifications/handler.rs:233-300 | a substream the remote opens is taken, unless one is held, which then stays |
| `HandlerFrames.LostOnlyWhenEnded` | subp2p-explorer/src/notifications/handler.rs:369-707 | a held substream is lost only by a close of its protocol, by the failure of its opening, or by its own end or error |
| `Transitions.StepKind` | subp2p-explorer/src/notifications/handler.rs:220-574 | the table of the four states: which state each event, message and poll leads to, from every reachable state |
| `Transitions.StepTells` | subp2p-explorer/src/notifications/handler.rs:233-574 | what each event and message tells the behaviour, with the handshake received and whether the remote began |
| `Transitions.OpeningRemembers` | subp2p-explorer/src/notifications/handler.rs:421-527 | an opening keeps the substream of the remote, with the handshake to answer, and whether the remote began |
| `Transitions.OpeningKeepsOrigin` | subp2p-explorer/src/notifications/handler.rs:220-711 | as long as it is an opening, no step changes whether the remote began |
| `Transitions.RequestsCarryHandshakes` | subp2p-explorer/src/notifications/handler.rs:421-527 | in every run the handshakes are those the handler was made with, and each queued outbound request carries its protocol's |
| `Transitions.DrainStops` | subp2p-explorer/src/notifications/handler.rs:596-640 | the message loop ends with an empty channel or a sink that is not ready |
| `Transitions.PollFlushes` | subp2p-explorer/src/notifications/handler.rs:596-660 | with nothing queued and no flush failing, a poll hands each sink all it takes and then flushes it |
| `Transitions.PollSevers` | subp2p-explorer/src/notifications/handler.rs:642-660 | the first failing flush drops its outbound substream and goes out as `CloseDesired` |
| `Transitions.PollReads` | subp2p-explorer/src/notifications/handler.rs:663-675 | the first protocol whose open substream has a frame to read gets it to the behaviour, in the same poll |
| `Behaviour.Notifications.PropagateEvent` | subp2p-explorer/src/notifications/behavior.rs:111-120 | appends one message for the handler of a connection |
| `Behaviour.Notifications.ConnectionEstablished` | subp2p-explorer/src/notifications/behavior.rs:190-222 | tracks the connection and asks for both protocols to open |
| `Behaviour.Notifications.ConnectionClosed` | subp2p-explorer/src/notifications/behavior.rs:223-259 | stops tracking the connection and asks for both protocols to close |
| `Behaviour.Notifications.OnConnectionHandlerEvent` | subp2p-explorer/src/notifications/behavior.rs:264-334 | queues the reaction to a handler event behind what is queued |
| `Behaviour.Notifications.Poll` | subp2p-explorer/src/notifications/behavior.rs:336-347 | hands out the oldest queued event |
| `System.DoInv` | subp2p-explorer/src/notifications/behavior.rs:190-347 | every step of behaviour, handlers and deliveries keeps the invariant of the composed system |
| `System.SystemRunInv` | subp2p-explorer/src/notifications/behavior.rs:190-347 | the invariant holds in every reachable state of any number of connections |
| `System.CompletionDelivered` | subp2p-explorer/src/notifications/behavior.rs:276-323 | a delivered notification was preceded by a delivered completion of the same connection and protocol |
| `System.SwarmNotificationAfterOpen` | subp2p-explorer/src/notifications/behavior.rs:276-347 | each notification the swarm receives is preceded by a `CustomProtocolOpen` of the same peer and index |
| `System.SwarmSeesHandlers` | subp2p-explorer/src/notifications/behavior.rs:264-347 | in every run: swarm output followed by what is queued for it equals the translation of all deliveries, the deliveries of each connection are exactly the counted prefix of what its handler emitted, and the peer table holds exactly the live connections |
| `System.NeverReportsClosed` | subp2p-explorer/src/notifications/behavior.rs:325-333 | in no run does the swarm output hold a `CustomProtocolClosed` |
| `Closing.StepSevers` | subp2p-explorer/src/notifications/handler.rs:642-660 | along every handler step but a close, a protocol loses its outbound substream exactly when `CloseDesired` goes out for it |
| `Closing.ClosingRunInv` | subp2p-explorer/src/notifications/behavior.rs:190-347 | in every run of behaviour and handlers: undelivered `CloseDesired`, queued and received `Close` of a live connection's protocol are one in all exactly when it is open with its outbound substream dropped, and `pending_opening` is false |
| `Closing.CloseMeetsOpen` | subp2p-explorer/src/notifications/handler.rs:529-568 | a received `Close` always meets an open protocol whose outbound substream was dropped; the arms for `Closed`, `OpenDesiredByRemote` and `Opening` are dead |
| `Closing.NothingPending` | subp2p-explorer/src/notifications/handler.rs:421-568 | in every run no request outlives its opening: one is unanswered exactly in `Opening` |
| `Closing.NotKeptAliveWaitsForNothing` | subp2p-explorer/src/notifications/handler.rs:578-582 | in every run a connection that is not kept alive has no unanswered request |
| `Closing.AnswersMeetOpening` | subp2p-explorer/src/notifications/handler.rs:302-416 | in every run a negotiated outbound substream or a dial error meets the opening that asked for it; the other arms are dead |
| `Talk.HandlersGetWhatTheyAreOwed` | subp2p-explorer/src/notifications/behavior.rs:190-323 | over every run: what the handler of a live connection was sent, in the inbox or still queued, is `Open` of both protocols and then one answer to each of its `OpenDesiredByRemote` and `CloseDesired` events that were delivered, in order |
| `Talk.BehaviourSays` | subp2p-explorer/src/notifications/behavior.rs:190-323 | over every run and every connection, lost ones included: the messages to a handler are `Open` twice at its start, `Close` twice at its loss and the answers to its wishes, in the order of those events |
| `Wire.LebShape` | subp2p-explorer/src/notifications/upgrades/handshake.rs:407-408 | the length prefix decodes to its number, ends where it ends whatever follows, and is minimal |
| `Wire.ReadingFrame` | subp2p-explorer/src/notifications/upgrades/handshake.rs:132-155 | a reader of a framed handshake decides at one byte and not before: it has the handshake, or refuses one over 1024 bytes when its length is complete |
| `Wire.Socket.ReadExact` | subp2p-explorer/src/notifications/upgrades/handshake.rs:149-155 | succeeds iff enough bytes come, with exactly those bytes, however they were cut |
| `Wire.Socket.ReadUsize` | subp2p-explorer/src/notifications/upgrades/handshake.rs:132 | takes the length prefix byte by byte and nothing after it, with the overflow, end-of-stream and non-minimal errors |
| `Wire.Socket.WriteAll` | subp2p-explorer/src/notifications/upgrades/handshake.rs:409-410 | all bytes are written, however few each write takes, or a proper prefix and an error |
| `Wire.Socket.ReadHandshake` | subp2p-explorer/src/notifications/upgrades/handshake.rs:132-155 | the result is a function of the bytes alone, not of the pieces, for whole, truncated and malformed input, and nothing past the deciding byte is taken |
| `Wire.Socket.UpgradeInbound` | subp2p-explorer/src/notifications/upgrades/handshake.rs:123-175 | every input is decided as by `ReadHandshake`; in particular a framed handshake of up to 1024 bytes is returned with the next byte left the one after it, and a longer one is refused with its size |
| `Wire.Socket.UpgradeOutbound` | subp2p-explorer/src/notifications/upgrades/handshake.rs:390-450 | writes exactly the frame of its own handshake, or a prefix of it and then fails with nothing read; once written and flushed it reads as the inbound side does |
| `Wire.HandshakesExchanged` | subp2p-explorer/src/notifications/upgrades/handshake.rs:131-450 | both upgrades against each other, any interleaving and fragmentation: a side that ends with a handshake has the other's, what follows for the listener is exactly the frames of the messages it has not taken, and only handshakes over 1024 bytes are refused |
| `Wire.QuietMeansDecided` | subp2p-explorer/src/notifications/upgrades/handshake.rs:131-450 | once nothing is left to write or read, both sides have decided, accepting exactly the handshakes of up to 1024 bytes |
| `Wire.FramesDecode` | subp2p-explorer/src/notifications/upgrades/handshake.rs:159-170 | the framed reader gives back any sequence of messages from their frames |
| `Wire.NotificationsFollow` | subp2p-explorer/src/notifications/upgrades/handshake.rs:159-170 | what the listener has decoded are the first messages sent, in order, and what is under way decodes to the rest |
| `Session.RunsTied` | subp2p-explorer/src/notifications/upgrades/handshake.rs:203-360 | over every session of substream and byte channels: answered on the wire exactly from `Flush` on, flushed exactly when no byte is left, frames handed out equal frames decoded |
| `Session.WireIsReady` | subp2p-explorer/src/notifications/upgrades/handshake.rs:268-330 | a turn of the poll loop that sends the handshake or reads a frame is always a move the wire allows |
| `Session.HistoryIsTheWire` | subp2p-explorer/src/notifications/upgrades/handshake.rs:268-450 | the frames a substream hands out are the first messages the dialer sent, and the handshake the dialer ends with is the one the substream started, all of it with the network once flushed |
| `Session.PollReached` | subp2p-explorer/src/notifications/upgrades/handshake.rs:203-360 | a whole poll whose answers are those of the bytes is a stretch of the session, and leaves the substream as the session has it |
| `EndToEnd.TakenWired` | subp2p-explorer/src/notifications/handler.rs:233-300 | a substream the handler takes after its inbound upgrade is the listener's end of a session |
| `EndToEnd.StaysWired` | subp2p-explorer/src/notifications/handler.rs:220-711 | every step of the handler keeps it one, for all sockets that answer as the bytes have it |
| `EndToEnd.BehaviourHearsRemote` | subp2p-explorer/src/notifications/handler.rs:663-708 | since its substream was taken, a protocol has told the behaviour the first messages that the remote sent, in order |
| `EndToEnd.ConnectionRun` | subp2p-explorer/src/notifications/behavior.rs:190-347 | in every run of the whole system the handler of each connection goes through a run of its own, so all theorems on handlers apply |
| `EndToEnd.SwarmHearsAll` | subp2p-explorer/src/notifications/behavior.rs:264-347 | in every run, for any peer: what the swarm received from it on a protocol is the beginning of a merge of what its connections told, each connection's part in order |
| `EndToEnd.SwarmHearsFrames` | subp2p-explorer/src/notifications/behavior.rs:264-347 | in every run, for a peer with one connection: what the swarm received from it on a protocol is the beginning of what the substreams of that protocol read |
| `EndToEnd.SwarmHearsPeer` | subp2p-explorer/src/notifications/behavior.rs:264-347 | and while the first substream is held, it is a prefix of what the peer sent on the wire |
| `Records.AcceptedIffGenuine` | subp2p-explorer/src/util/authorities.rs:35-82 | a record is accepted iff authority and peer signed it and its addresses name that peer and no other; the result is that peer and all addresses |
| `Records.AllPointToPeerIff` | subp2p-explorer/src/util/authorities.rs:54-65 | all addresses of an accepted record point to the peer, as the comment asks, iff each names some peer |
| `Records.UnnamedAddressAccepted` | subp2p-explorer/src/util/authorities.rs:58 | a record accepted although one of its addresses names no peer |
| `DiscoveryObject.AuthorityDiscovery.constructor` | cli/src/commands/authorities.rs:322-356 | everything is wanted, nothing found, queried or dialled |
| `DiscoveryObject.AuthorityDiscovery.QueryDhtRecords` | cli/src/commands/authorities.rs:359-368 | one query per authority under a fresh id, with its key remembered |
| `DiscoveryObject.AuthorityDiscovery.QueryPeerInfo` | cli/src/commands/authorities.rs:376-391 | the loop tops closest-peer queries up as the step `TopUpClosest` |
| `DiscoveryObject.AuthorityDiscovery.AdvanceDhtQueries` | cli/src/commands/authorities.rs:397-433 | the while loop and the backfill compute `Advance` |
| `DiscoveryObject.AuthorityDiscovery.ResubmitRemaining` | cli/src/commands/authorities.rs:440-460 | forgets the tracked queries and asks again for up to 128 of the remaining authorities |
| `DiscoveryObject.AuthorityDiscovery.OnRecordAnswer` | cli/src/commands/authorities.rs:470-588 | every path of a record answer (found, failed, malformed, unknown key) computes `Answered` |
| `DiscoveryObject.AuthorityDiscovery.OnClosestPeers` | cli/src/commands/authorities.rs:591-602 | forgets the query and tops up |
| `DiscoveryObject.AuthorityDiscovery.OnConnected` | cli/src/commands/authorities.rs:646-659 | the object equals the value-level step, for dialled addresses only; that the outcome noted is a success is `DiscoveryHistory.OutcomeIsLastTold` |
| `DiscoveryObject.AuthorityDiscovery.OnDialErrors` | cli/src/commands/authorities.rs:681-724 | notes a failure for each dialled address among those the error names |
| `DiscoveryRuns.AdvanceOk` | cli/src/commands/authorities.rs:397-433 | after an advance the window is full or every remaining authority is in flight |
| `DiscoveryRuns.ResubmitOk` | cli/src/commands/authorities.rs:440-460 | the same after a resubmission, with at most 128 tracked |
| `DiscoveryRuns.HandleInv` | cli/src/commands/authorities.rs:463-724 | each event of the loop keeps window and books |
| `DiscoveryRuns.RunInv` | cli/src/commands/authorities.rs:815-859 | window and books hold between any two events of `discover` |
| `DiscoveryRuns.WorkConservation` | cli/src/commands/authorities.rs:376-460 | at most 128 record queries are tracked, and either exactly 128 are or each authority without a record has one in flight; exactly 32 closest-peer queries are |
| `DiscoveryRuns.CompletionTest` | cli/src/commands/authorities.rs:849 | the exit test by lengths holds iff none remain and the authority list has no duplicates |
| `DiscoveryExamples.DuplicateNeverCompletes` | cli/src/commands/authorities.rs:849 | a run over a list with a duplicate in which none remain and the test still fails |
| `DiscoveryRuns.FoundAndWanted` | cli/src/commands/authorities.rs:482-575 | remaining = listed minus found, and each recorded address stands in a record genuine for that very authority |
| `DiscoveryRuns.DialledOnce` | cli/src/commands/authorities.rs:502-542 | an address is dialled once if it is recorded for some authority and never otherwise; outcomes are for dialled addresses only |
| `DiscoveryHistory.RecordedIffBrought` | cli/src/commands/authorities.rs:482-505 | in every run an address is recorded for an authority iff some answer brought it, under a key that was asked for, in a genuine record of that authority |
| `DiscoveryHistory.DialledIffBrought` | cli/src/commands/authorities.rs:523-542 | the dialled addresses are exactly those some answer brought |
| `DiscoveryHistory.OutcomeIsLastTold` | cli/src/commands/authorities.rs:523-724 | in every run the outcome of an address is what the last event about it since its first dial told: success for a connection, failure for an error that names it or a dial the swarm refused, none without such an event |
| `DiscoveryHistory.AnswersAreRecognised` | cli/src/commands/authorities.rs:359-368 | every tracked query has its key remembered, and each key is that of the authority it is remembered for |
| `DiscoveryHistory.AnsweredIsForgotten` | cli/src/commands/authorities.rs:470-602 | an answered query of either kind is never tracked again |
| `DiscoveryHistory.BackfillAsksNew` | cli/src/commands/authorities.rs:405-424 | a backfill asks only for remaining authorities that no query in flight is for, each once |
| `DiscoveryHistory.FirstPassInOrder` | cli/src/commands/authorities.rs:397-410 | the first pass asks for the next authorities of the list in order, each position once and under the next ids |
| `DiscoveryHistory.FirstPassStops` | cli/src/commands/authorities.rs:397-410 | it goes on until the window is full or the list is at its end |
| `DiscoveryHistory.ResubmitAsksFirst` | cli/src/commands/authorities.rs:440-460 | a resubmission tracks exactly the first 128 of the remaining authorities, in the order of the shuffle, under fresh ids |
| `DiscoveryRuns.TotalVersusUnion` | cli/src/commands/authority_check.rs:793-802 | counting addresses per authority equals counting them once iff none is shared |
| `DiscoveryRuns.DialAccounting` | cli/src/commands/authority_check.rs:793-802 | in every reachable state the saturating subtraction does not saturate, connected + failed + pending = total, and pending is the number of dialled addresses without an outcome iff no address is shared |
| `DiscoveryExamples.SharedAddress` | cli/src/commands/authority_check.rs:801-802 | a run in which two accepted records list one address and the pending count is wrong |
| `DiscoveryRuns.SummariseDials` | cli/src/commands/authority_check.rs:793-802 | the loops over the final maps count the successes, the failures, the addresses per authority, and the pending dials from them |
| `Backend.Libp2pBackend.BackgroundCommand` | subp2p-explorer-core/src/libp2p.rs:101-123 | the task takes the oldest command, starts the query and replies with its id |
| `Backend.Libp2pBackend.BackgroundEvent` | subp2p-explorer-core/src/libp2p.rs:125-150 | the task forwards a swarm event behind those under way |
| `Backend.Libp2pBackend.FindNodeReturn` | subp2p-explorer-core/src/libp2p.rs:179-202 | the call maps the replied id to the next own id and returns that |
| `Backend.Libp2pBackend.PollEvent` | subp2p-explorer-core/src/libp2p.rs:237-341 | the object equals the value-level step: takes the oldest event, translates and forgets the id of an answer, and panics if it has no translation; what is reported is `BackendHistory.PollReports` |
| `BackendRuns.StepInv` | subp2p-explorer-core/src/libp2p.rs:101-301 | every step of task, caller and driver keeps the invariant |
| `BackendRuns.RunInv` | subp2p-explorer-core/src/libp2p.rs:101-301 | it holds in every interleaving |
| `BackendRuns.PollNeverMeetsUnknownId` | subp2p-explorer-core/src/libp2p.rs:237-301 | no interleaving ends in that panic; whenever the caller may poll, a reported answer has the id `find_node` returned for its target, not reported before |
| `BackendRuns.ReportedOnce` | subp2p-explorer-core/src/libp2p.rs:265-301 | each reported id was returned for its target, and none is reported twice |
| `BackendRuns.DriverAccounting` | bench-cli/src/discovery_backends.rs:35-91 | started = completed + in flight, at most 50 in flight, completed = reported by the backend |
| `BackendHistory.PollReports` | subp2p-explorer-core/src/libp2p.rs:237-301 | in every interleaving the n-th poll reports the n-th event of the swarm: an answer with the target and all the peers the swarm gave, under the id `find_node` returned for that very lookup |
| `BackendHistory.DriverKnows` | bench-cli/src/discovery_backends.rs:44-76 | the driver's peers are exactly the identified ones and those of all answers among the events polled for |
| `BackendHistory.DriverStopsInTime` | bench-cli/src/discovery_backends.rs:78-82 | a poll that tells the driver something ends the discovery iff the peers known from the swarm's events are at least as many as asked for; any other leaves the driver alone |
| `BackendHistory.DriverKeepsPace` | bench-cli/src/discovery_backends.rs:35-91 | ten lookups are started before the driver listens, and once it was told something it listens only with fifty in flight |
| `BackendHistory.AddressesReachTheSwarm` | subp2p-explorer-core/src/libp2p.rs:303-320 | per peer and address: added by the driver or found routable = told to the swarm + under way |
| `Scale.LeRoundTrip` | cli/src/commands/identity.rs:151-178 | fixed-width integers decode to themselves |
| `Scale.CompactRoundTrip` | cli/src/commands/identity.rs:129-178 | compact integers decode to themselves in all four modes, with the cursor right after them |
| `Identity.DecodeRegistrationDisplay` | cli/src/commands/identity.rs:151-178 | the cursor loops compute the decoder function, in both layouts and with all failures |
| `Identity.SkipAdditionalFields` | cli/src/commands/identity.rs:164-175 | the loop over additional fields, including the refusal of more than 64 |
| `Identity.HeadSkipped` | cli/src/commands/identity.rs:129-163 | any encoded judgement list and deposit is skipped exactly |
| `Identity.SimpleRoundTrip` | cli/src/commands/identity.rs:147-178 | any judgements, deposit and tail: a display of 1 to 32 bytes comes back from the simple layout |
| `Identity.MissingDisplay` | cli/src/commands/identity.rs:147-178 | the result for every simple registration whose display has no text: the next field, nothing, or what stands after 9 or 64 pairs read out of the digest or the tail |
| `Identity.HashMisread` | cli/src/commands/identity.rs:147-149 | a registration with a hashed display out of whose digest a name is read |
| `Identity.LegacyRoundTrip` | cli/src/commands/identity.rs:147-178 | the legacy layout for every list of additional fields: what is returned, and exactly when it is the display; always for 0 or 9 to 64 fields |
| `Identity.LongListWindow` | cli/src/commands/identity.rs:164-169 | which lists of more than 64 fields are read as the simple layout instead of being refused, by the count alone |
| `Identity.LongLegacyMisread` | cli/src/commands/identity.rs:164-169 | a registration with 65 fields, whose count and fields are taken for the name |
| `Identity.LegacyMisread` | cli/src/commands/identity.rs:147-149 | a registration with one additional field whose bytes are taken for the name |
| `IdentityExact.CompactExact` | cli/src/commands/identity.rs:129-178 | a compact integer is read iff the input begins with its own minimal encoding and it fits the width |
| `IdentityExact.SimpleExact` | cli/src/commands/identity.rs:151-178 | the simple attempt reads a text iff the bytes are an encoded simple registration that displays it |
| `IdentityExact.LegacyExact` | cli/src/commands/identity.rs:151-178 | the legacy attempt reads a text iff the bytes are an encoded legacy registration with at most 64 fields that displays it |
| `IdentityExact.DisplayExact` | cli/src/commands/identity.rs:147-178 | for all bytes: the name is `t` iff they encode a simple registration that displays `t`, or none with a text and a legacy one that displays `t` |
| `IdentityExamples.RegisteredName` | cli/src/commands/identity.rs:318-354 | with the decoder above, an account registered in the simple layout resolves to its display |
| `IdentityLookup.BatchGetStorage` | cli/src/commands/identity.rs:196-224 | chunked reads agree with the chain on every key asked for, or a chunk failed |
| `IdentityLookup.MapStashes` | cli/src/commands/identity.rs:276-285 | exactly the authorities with an owner record, each with its stash |
| `IdentityLookup.OwnNames` | cli/src/commands/identity.rs:318-341 | own displays for the authorities picked per stash; exactly the stashes without one are left |
| `IdentityLookup.GroupByParent` | cli/src/commands/identity.rs:356-375 | each left stash stands under its parent and nowhere else; that the parent is the account at the head of the stored value is `IdentityRegistry.StoredAccounts` |
| `IdentityLookup.ParentNames` | cli/src/commands/identity.rs:376-396 | every left stash that resolves through its parent gets a name, and all names are right |
| `IdentityLookup.FetchIdentityNames` | cli/src/commands/identity.rs:240-410 | every name is the resolver's; if no batch fails each stash that resolves has one, and the names are exactly the resolver's iff no two authorities that resolve share a stash |
| `IdentityRegistry.AccountRead` | cli/src/commands/identity.rs:180-187 | an account is read back from the head of a value whatever follows it, and none from fewer than 32 bytes |
| `IdentityRegistry.StoredAccounts` | cli/src/commands/identity.rs:180-187 | a value `p + d` stored for a session key or a sub-identity gives the stash or the parent `p` |
| `IdentityRegistry.ResolvesToRegistered` | cli/src/commands/identity.rs:276-396 | on chains that hold a registry of owners, parents and registrations, the resolver gives the registered display of the owner or else of its parent |
| `IdentityRegistry.RegisteredNames` | cli/src/commands/identity.rs:240-410 | on such chains, with the real decoder, every name of the batched lookup is that display; if nothing fails exactly the authorities that have one are named iff no two of them have the same owner |
| `IdentityRegistry.EveryRegistryIsStored` | cli/src/commands/identity.rs:240-410 | every registry can be held by chains, so this is about all of them |
| `IdentityExamples.StashesShared` | cli/src/commands/identity.rs:276-285 | chains on which any two authorities resolve and share a stash |
| `IdentityExamples.SharedStash` | cli/src/commands/identity.rs:318-320 | on them the lookup names exactly one of two authorities |
| `Connectivity.RunBatch` | cli/src/commands/authority_check.rs:210-242 | for every order of starting and finishing, each check of the batch is made exactly once with at most 64 in progress, and each result is right: reachable iff public with an endpoint and its own attempt connected, unreachable iff public with an endpoint and it did not, skipped for the transport iff public without an endpoint, as private iff not public |
| `Connectivity.RunConnectivityChecks` | cli/src/commands/authority_check.rs:198-267 | over all batches each check is made exactly once with at most 64 in progress, and the groups hold exactly the right results of all checks, each under its own index |
| `Connectivity.GroupIsComplete` | cli/src/commands/authority_check.rs:198-267 | however the checks finished, group `i` is about exactly the addresses checked under `i`, each once |
| `Connectivity.BuildChecks` | cli/src/commands/authority_check.rs:833-841 | the checks under index `i` are on exactly the addresses of authority `i`, in order, with their own public flag, and there are no others |
| `Report.FullyReachableVersusFailing` | cli/src/commands/authority_check.rs:271-289 | for every result the report builder can make, fully reachable is the same as not failing |
| `Report.ComputeGlobalStats` | cli/src/commands/authority_check.rs:420-499 | the counting loops compute the statistics function |
| `Report.StatsLaws` | cli/src/commands/authority_check.rs:420-499 | for all built results: public + private = total, success + failed + pending = total, version counts sum to identified, identified at most with peer at most with record, fully reachable = not failing |
| `Report.AddressCountersRight` | cli/src/commands/authority_check.rs:470-495 | each address counter is the number of checks, over all authorities, that it is named for |
| `Report.AuthorityCountersRight` | cli/src/commands/authority_check.rs:440-468 | each authority counter is the number of authorities that it is named for |
| `Report.VersionsRight` | cli/src/commands/authority_check.rs:449-453 | the count kept for a version is the number of authorities whose agent is of that version |
| `Report.FindPeer` | cli/src/commands/authority_check.rs:886 | the peer that the first address to name one names, none iff none does |
| `Report.BuildResults` | cli/src/commands/authority_check.rs:865-901 | one result per authority: with a record iff one was found, the first named peer and the agent known of it, its own group of checks and their dial outcomes; exactly the fully reachable ones are not failing |
| `Report.CheckAuthorities` | cli/src/commands/authority_check.rs:833-901 | from discovered addresses to statistics: each entry is about exactly its authority's addresses, each once and with its dial outcome; an authority passes iff some public address of it has an endpoint and every such address connected; the statistics obey their laws |
| `DialReport.SummaryVersusStatistics` | cli/src/commands/authority_check.rs:793-901 | for every state a discovery can end in: the statistics count at least the summary's addresses, the same iff no authority with addresses is listed twice; then their pending dials are at most the summary's, the same iff no address with an outcome is recorded for two authorities |
| `DialReport.PendingDiffer` | cli/src/commands/authority_check.rs:801-802 | a run such that in every report made of it the statistics have fewer pending dials than the summary |
| `Ansi.StripAnsi` | cli/src/commands/authority_check.rs:42-61 | the index loop computes the recursive stripper |
| `Ansi.StripPieces` | cli/src/commands/authority_check.rs:42-61 | of any interleaving of escape-free text and codes exactly the text is left |
| `Ansi.SplitIffComplete` | cli/src/commands/authority_check.rs:63-70 | stripping a write on its own equals stripping at once, for all continuations, iff it does not end inside or at the start of a code |
| `Ansi.PiecesComplete` | cli/src/commands/authority_check.rs:63-70 | writes made of whole pieces are such writes |
| `Ansi.StableIffNoCode` | cli/src/commands/authority_check.rs:42-61 | a text is left unchanged iff no code starts in it |
| `Ansi.IdempotentIff` | cli/src/commands/authority_check.rs:42-61 | stripping twice is stripping once iff no kept escape of the input is followed, among the kept bytes, by a bracket |
| `Ansi.NotIdempotent` | cli/src/commands/authority_check.rs:42-61 | an input with such an escape, whose stripped form is stripped further |

## Left out

- Swarm, transport and DNS construction, TCP connects, RPC and chain specification downloads, timers, logging, progress bars and printing: plumbing without a property of its own.
- Signatures, hashes, protobuf, base58 and multiaddress parsing, and the hashing of storage keys: parameters of the model.
- Wakers, fairness and liveness of the async runtime, and channels that are full or closed: what one poll gets done is stated, not that a poll comes.
- The `sender` and `endpoint` fields of `HandshakeCompleted`: the channel is the `Receiver` of the open state.
- The frame size limit of the codec that takes over after the handshake.
- Wrap-around of `usize` and `u64` counters: they are unbounded.
- Conversion of a display name to UTF-8: names stay bytes.
- `normalize_agent_version`: a parameter of the statistics.
- `peer_details` and `peer_info` of the discovery, query times and averages, and the address table of the backend: they feed printing only.
- The benchmark driver's loops are the phases of a state machine, since each iteration suspends; shuffles and hash-set orders are parameters.
- Plain discovery and single-peer discovery (cli/src/commands/discovery.rs, cli/src/commands/discover_peer.rs): the top-up and dial-once pattern of the authority scheduler, with less state.
- The wrapper types of subp2p-explorer-core/src/types, the litep2p backend, peer behaviour, bootnodes, dialling one peer, extrinsics, geolocation, SS58 prefixes and combined upgrades: delegation, or settled by reading one branch.
