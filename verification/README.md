# The resilience core of catcher, modelled and proved in Dafny

This project models the stateful parts of the catcher networking libraries whose guarantees span whole runs, and proves
those guarantees for every input, run or interleaving: the WebSocket client's connection manager, the stale-aware DNS
cache, the circuit breaker and the HTTP transport around it, the two SSE line readers, the wire formats, the timeout and
heartbeat windows, the FFI destroy protocol, and the TypeScript push queue. `dafny verify dfyconfig.toml` checks all of
it.

## How it is built

Code that updates state in place is a class, method by method, with ghost histories; what it promises is stated over
those histories and proved as lemmas. Code that runs concurrently is cut into the steps it performs atomically: a
datatype of steps, a function that applies one, and theorems over every schedule; beside it, a class whose methods
perform those steps and are proved equal to them. Wire formats have an independent reader, written after the standard,
and a theorem that says exactly when it recovers what was written.

| file | models |
|---|---|
| `prelude.dfy` | options, results, machine integers |
| `message_codec.dfy` | the `CATCHER-CMP-1` envelope and message encoding |
| `ws_types.dfy`, `reconnect.dfy`, `heartbeat.dfy` | commands, events, backoff, heartbeat |
| `session_log.dfy` | which connection carried which command |
| `run_records.dfy` | sessions, commands and heartbeats, told from the event trace |
| `event_grammar.dfy` | the event trace as runs of an automaton |
| `connection_manager.dfy` | the connection manager itself, and the streams and network it works on |
| `dns_cache.dfy` | lookups, refreshes, clears and dropped futures, interleaved |
| `circuit_breaker.dfy`, `breaker_reset.dfy`, `half_open_probes.dfy` | the breaker, its reset step by step, its probes |
| `http_transport.dfy`, `probe_duties.dfy` | network generations, and which probes still owe a report |
| `sse_routing.dfy`, `sse_stream.dfy`, `sse_client.dfy` | line routing and the two readers |
| `multipart.dfy`, `base64.dfy` | encoders and their reference parsers |
| `machine_words.dfy` | or, shift and mask on 32-bit words, as arithmetic |
| `percentile.dfy`, `adaptive_timeout.dfy` | P90 windows |
| `handle_registry.dfy`, `ffi_callbacks.dfy` | handles, callbacks, destroy |
| `push_queue.dfy` | the queue behind the async iterator |

## What does not hold, and when it does

- Timeout snapshots (packages/catcher-http/src/resilience/timeout.rs:47-107): `timeout_ms` and `snapshot` share one dirty
  flag, so a snapshot taken after a timeout describes an older window, at first none at all (`SnapshotAfterTimeout`);
  `Snapshot` says exactly which one.
- DNS generations (packages/catcher-dns/src/lib.rs:399-410, 421-440): a background refresh compares the generation and
  inserts in two steps, and a whole `clear_cache` in between leaves the old network's answer in the cache with nobody to
  remove it (`OvertakenRefreshLeavesAStaleEntry`). A foreground lookup looks again after it has inserted, but not if its
  future is dropped before that (`DroppedLookupLeavesAStaleEntry`). A run at rest is clean if and only if neither has
  left an old entry behind (`CleanUnlessLeftBehind`). The doc comment at lines 331-334 promises more than that.
- Resets (packages/catcher-http/src/resilience/circuit_breaker.rs:114-119): `reset()` releases the state lock before it
  clears the counters. One failure of the new network in that window can open the breaker just reset, with the old
  network's count, exactly if the threshold is at least two (`TripsEarlyExactly`, `OneFailureUndoesTheReset`). If no
  failure falls into it, resets act at once (`UndisturbedResetsActAtOnce`, `TripsAtThresholdIfUndisturbed`).
- Limited reads (packages/catcher-ws/src/ws/application_compression.rs:166): the limit plus one wraps when
  `max_payload_bytes` is `u64::MAX`, and every non-empty enveloped payload is then refused. The model follows a build
  without overflow checks; with them the increment panics. `EnvelopeRoundTrip` has the exact condition.
- Raw binary payloads that start with the magic are taken for envelopes; one comes back only if it is an envelope of
  itself (`MasqueradeSurvivesOnlyAsQuine`).
- Half-open progress (packages/catcher-http/src/transport/http_client.rs:362-365, 428-455, 481): a probe can leave
  without reporting in two ways. A request cancelled outside the priority queue never reports
  (`AbandonedProbesStrandTheBreaker`). And a request that loads its generation before a network change and asks the
  breaker after it stays silent when it fails, with nothing cancelled (`OutdatedProbeStrandsTheBreaker`). Either can
  leave a half-open breaker refusing everything until the next reset. In every other run a half-open breaker that
  refuses has a report to come or a reset outstanding (`RefusalHasAReportOwed`, `PromptRunsMakeProgress`), provided that
  `success_threshold` does not exceed `half_open_max_requests + 1`; beyond that even reporting probes strand it
  (`StrandedExactlyWhenProbesCannotSuffice`).
- Multipart header values are not escaped: a quote in a name makes two different forms encode alike (`QuotesCollide`);
  `FormsReadBackExactly` says which forms read back.
- Destroy (packages/catcher-ws/src/ffi/ws_ffi.rs:126-130): a client that has found itself active and not registered yet
  is missed by a destroy, which then neither closes nor removes its handle; it is registered afterwards and leaves on its
  next event, without a callback (`MissedExactly`). A destroy called from inside a callback never returns
  (`DestroyWaitsForCallbacks`).
- A consumer already waiting when a push queue fails is told a plain end (`RejectedExactly`).

## Model

| member | source | states |
|---|---|---|
| RunRecords.EveryCommandAccountedFor | packages/catcher-ws/src/transport/ws_client.rs:831-1262 | Over the trace of any run: an encodable command taken in a session is carried by exactly one connection, that session's, its frame at its own place and lost only as the last live frame; one taken between sessions is carried by exactly one replay, where it is surely sent, unless no session has begun since, and then no connection carries it and its frame is among those of the commands taken since the last session |
| SessionLog.SessionsInCommandOrder | packages/catcher-ws/src/transport/ws_client.rs:887-953 | A later session carries only commands after those of every earlier session |
| RunRecords.SessionStartsWithTheBacklog | packages/catcher-ws/src/transport/ws_client.rs:1079-1132 | For every Connected event of the trace there is the connection of its session, and what that connection was sent begins with a frame for every encodable command taken between the end of the previous session and this event, in order and all sent; then come the frames of the commands taken in the session |
| RunRecords.RecordedRun | packages/catcher-ws/src/transport/ws_client.rs:849-1261 | The recorded marks are told by the trace alone: phase, commands taken, sessions with the commands they cover and what they heard, heartbeat, and the event owed |
| RunRecords.SessionShown | packages/catcher-ws/src/transport/ws_client.rs:849-1076 | The session opened by a Connected event and ended by the next Disconnected covers exactly the commands taken, and the ticks, pongs and data frames heard, between the two |
| RunRecords.OneSessionPerConnected | packages/catcher-ws/src/transport/ws_client.rs:849-857 | There are exactly as many sessions as Connected events |
| RunRecords.EveryFrameIsReported | packages/catcher-ws/src/transport/ws_client.rs:995-1014 | Inbound conservation over the trace of any run: the Message and decode-error events of a session are exactly what the data frames its connection gave decode to, in order, one for each |
| RunRecords.ReportsAreDeliveries | packages/catcher-ws/src/transport/ws_client.rs:995-1014 | The same at any moment of a session, with the report still owed |
| RunRecords.EventsAnswer | packages/catcher-ws/src/transport/ws_client.rs:889-1026 | In a session every event answers the observation just before it, a data frame, a pong under a heartbeat or a message that does not encode, and every such answer follows at once; no other event comes before the Disconnected |
| RunRecords.LossIsGivingUp | packages/catcher-ws/src/transport/ws_client.rs:957-1070 | In a session the next observation is the heartbeat-timeout Disconnected if and only if the ticks and pongs heard in it have made the silence automaton give up |
| RunRecords.ResponsiveSessionIsKept | packages/catcher-ws/src/transport/ws_client.rs:957-992 | A session whose every ping was answered before the next tick is not ended as lost |
| RunRecords.SilentSessionIsDropped | packages/catcher-ws/src/transport/ws_client.rs:957-970 | A session that has heard max(1, max_missed_pongs) + 1 ticks since its last pong has been given up, and the very next observation is its heartbeat-timeout Disconnected |
| SessionLog.EveryCommandCarriedOnce | packages/catcher-ws/src/transport/ws_client.rs:831-1262 | The same on a history of connections: an encodable command below the covered mark is carried by exactly one connection, with its frame in its place; one above it by none |
| SessionLog.ReplayComesFirst | packages/catcher-ws/src/transport/ws_client.rs:1079-1132 | What a live connection was sent splits into its backlog, all of it sent, and the frames of the commands served after it |
| SessionLog.NthSession | packages/catcher-ws/src/transport/ws_client.rs:1079-1133 | The n-th session is one connection of the history, and its backlog starts where the session before it ended |
| SessionLog.CarriedInPlace | packages/catcher-ws/src/transport/ws_client.rs:887-953 | The frame of a command stands right after the frames of the commands before it, and only the last live frame of a session can have failed |
| SessionLog.SomeSessionCarries | packages/catcher-ws/src/transport/ws_client.rs:1079-1255 | No command below the covered mark is missing: some session carries it |
| SessionLog.CoveredGrows | packages/catcher-ws/src/transport/ws_client.rs:1079-1255 | What the sessions have dealt with only grows along the history |
| SessionLog.BufferCarriesTheSame | packages/catcher-ws/src/transport/ws_client.rs:1087-1101 | Filtering control commands out of the reconnect buffer loses no frame and changes no order |
| SessionLog.PeerReceivesTheMessages | packages/catcher-ws/src/transport/ws_client.rs:186-237 | A peer decoding the frames a session carries obtains exactly the messages handed over, in order, with bytes and kind intact, when each is deliverable |
| ConnectionManagers.ReplayBufferedCommands | packages/catcher-ws/src/transport/ws_client.rs:701-731 | The stream is sent exactly the frames of the encodable buffered commands in order, all of them, or up to and including the first send that fails |
| ConnectionManagers.ReplayedConnection | packages/catcher-ws/src/transport/ws_client.rs:1115-1133 | A connection that was sent the frames of the backlog is well carried; it is live exactly when the replay was complete |
| ConnectionManagers.NextAccounts | packages/catcher-ws/src/transport/ws_client.rs:1115-1133 | When the next connection enters, the accounts still list every connection, the sessions among them, and how far they have dealt with the commands |
| ConnectionManagers.ExtendKeepsCarrying | packages/catcher-ws/src/transport/ws_client.rs:887-953 | A session that deals with one more command stays well carried and covers exactly that command more |
| ConnectionManagers.WsStream.Send | packages/catcher-ws/src/transport/ws_client.rs:683-699 | The environment: a stream remembers each user frame handed to it and whether it went through; nothing else enters that log |
| ConnectionManagers.WsStream.Select | packages/catcher-ws/src/transport/ws_client.rs:882-996 | The environment: whatever branch becomes ready, the stream remembers each tick, pong and data frame it gave and the clock counts the turn; a tick comes only with a heartbeat configured |
| ConnectionManagers.Network.Connect | packages/catcher-ws/src/transport/ws_client.rs:634-680 | The environment: a connection comes up on the url dialled or is refused, and the network remembers all it established |
| ConnectionManagers.ConnectionManager.constructor | packages/catcher-ws/src/transport/ws_client.rs:831-847 | A fresh manager is about to announce its first session, with nothing taken and nothing emitted |
| ConnectionManagers.ConnectionManager.Observe | packages/catcher-ws/src/transport/ws_client.rs:849-1162 | Every event and everything heard goes into the trace as a step of the event automaton; in a session an event is the one owed for the last observation, and the heartbeat-timeout Disconnected comes only and always where the silence automaton has given up |
| ConnectionManagers.ConnectionManager.Hear | packages/catcher-ws/src/transport/ws_client.rs:957-1026 | A tick, pong or data frame given by the stream is entered into the trace and into the connection's record, steps the heartbeat, and settles which event is owed |
| ConnectionManagers.ConnectionManager.Take | packages/catcher-ws/src/transport/ws_client.rs:887-888 | Commands are consumed in channel order and recorded in the trace |
| ConnectionManagers.ConnectionManager.TakeWhileDown | packages/catcher-ws/src/transport/ws_client.rs:1087-1101 | While no session is up, messages are buffered in order and control commands are not; the buffer is always exactly the messages no session has dealt with |
| ConnectionManagers.ConnectionManager.DrainCommands | packages/catcher-ws/src/transport/ws_client.rs:1189-1206 | Draining keeps the backlog exact, stops only at a close or without handles, and reports whether a network change was consumed |
| ConnectionManagers.ConnectionManager.AwaitBackoff | packages/catcher-ws/src/transport/ws_client.rs:1168-1187 | Sleeping out a backoff keeps the backlog exact; a close aborts and a network change cuts the delay short |
| ConnectionManagers.ConnectionManager.WaitForAttempt | packages/catcher-ws/src/transport/ws_client.rs:1164-1209 | A backoff wait that skips has consumed a command, which is the first component of the termination measure |
| ConnectionManagers.ConnectionManager.Replay | packages/catcher-ws/src/transport/ws_client.rs:1233-1241 | The dialled connection has been sent what its account says; after a complete replay its session has dealt with everything taken, after a failed one the backlog is still whole |
| ConnectionManagers.ConnectionManager.Dial | packages/catcher-ws/src/transport/ws_client.rs:1220-1229 | Only after a network change may a reconnect come up on another endpoint |
| ConnectionManagers.ConnectionManager.TryConnect | packages/catcher-ws/src/transport/ws_client.rs:1220-1249 | One attempt either yields a connection on which the whole backlog was sent, or leaves the backlog whole; whatever was established is in the accounts |
| ConnectionManagers.ConnectionManager.TryReplay | packages/catcher-ws/src/transport/ws_client.rs:1232-1249 | A replay that fails is reported by one Disconnected event with its reason, and the attempt has failed |
| ConnectionManagers.ConnectionManager.AnnounceAttempt | packages/catcher-ws/src/transport/ws_client.rs:1157-1162 | Attempts are announced with the next number and exactly the delay that number calls for, until they are used up |
| ConnectionManagers.ConnectionManager.BackoffLoop | packages/catcher-ws/src/transport/ws_client.rs:1148-1256 | The backoff loop terminates by the pair (commands left, attempts left); it ends ready to serve with the attempt count back at zero, or with the backlog whole, and then only because a close was taken, every handle is gone, or the attempts are used up |
| ConnectionManagers.ConnectionManager.MakeAttempt | packages/catcher-ws/src/transport/ws_client.rs:1164-1249 | One round of the backoff loop: connected with the count back at zero, aborted, or fit for the next round with the count unchanged or reset at the price of a command |
| ConnectionManagers.ConnectionManager.AwaitAttempt | packages/catcher-ws/src/transport/ws_client.rs:1164-1218 | A network change during the wait resets the count and lets the attempt race all endpoints |
| ConnectionManagers.ConnectionManager.DialAtOnce | packages/catcher-ws/src/transport/ws_client.rs:1111-1144 | The immediate attempt after a network change keeps the new endpoint only if its session can start |
| ConnectionManagers.ConnectionManager.StayWith | packages/catcher-ws/src/transport/ws_client.rs:1133-1144 | When the immediate attempt fails the old url is kept, and a refusal is reported exactly if no backoff follows |
| ConnectionManagers.ConnectionManager.ReconnectAtOnce | packages/catcher-ws/src/transport/ws_client.rs:1082-1145 | The network-change path drains the channel, resets the backoff, and dials at once; it ends ready to serve, aborted, or fit for the backoff loop |
| ConnectionManagers.ConnectionManager.Transmit | packages/catcher-ws/src/transport/ws_client.rs:889-931 | The stream is sent the frame of the message, or the encoding error is the one event reported and the session goes on |
| ConnectionManagers.ConnectionManager.ServeNext | packages/catcher-ws/src/transport/ws_client.rs:887-954 | A session deals with each command it takes, in order; after a failed send nothing more is handed to that connection |
| ConnectionManagers.ConnectionManager.CommandBranch | packages/catcher-ws/src/transport/ws_client.rs:887-954 | A close ends the session cleanly, a network change switches it, a message ends it only with the failure of its own send; without handles left it ends cleanly |
| ConnectionManagers.ConnectionManager.DeliverData | packages/catcher-ws/src/transport/ws_client.rs:997-1014 | A data frame is heard and at once answered by exactly one event: the decoded message, or the decode error |
| ConnectionManagers.ConnectionManager.FrameBranch | packages/catcher-ws/src/transport/ws_client.rs:995-1052 | Which frames end the session, with which code and reason; a data frame adds exactly one event to the trace, a pong its signal and, under a heartbeat, its round-trip time, any other frame nothing |
| ConnectionManagers.ConnectionManager.PongBranch | packages/catcher-ws/src/transport/ws_client.rs:1016-1026 | A pong is heard and, under a heartbeat, reported with the time since the unanswered ping |
| ConnectionManagers.ConnectionManager.TickBranch | packages/catcher-ws/src/transport/ws_client.rs:957-992 | A tick is heard; it ends the session as a heartbeat timeout exactly when the silence automaton gives up on it |
| ConnectionManagers.ConnectionManager.TakeTurn | packages/catcher-ws/src/transport/ws_client.rs:882-1054 | Every turn of the select loop keeps the accounts, the trace and the heartbeat in step with what the stream was sent and gave; unless a command is taken, the trace grows by exactly what was heard and the event it calls for |
| ConnectionManagers.ConnectionManager.RunSession | packages/catcher-ws/src/transport/ws_client.rs:881-1054 | A session ends in one of the five ways, or with the turns observed used up; as a heartbeat timeout exactly when the signals it heard have made the silence automaton give up; every turn is one of the select loop |
| ConnectionManagers.ConnectionManager.ReconnectPhase | packages/catcher-ws/src/transport/ws_client.rs:1078-1260 | A reconnect phase starts with attempt 0 and an empty buffer and ends with a replayed session, or with the backlog whole and a close taken, no handles left or no attempts left |
| ConnectionManagers.ConnectionManager.AnnounceEnd | packages/catcher-ws/src/transport/ws_client.rs:1057-1076 | A session that ended otherwise than by a close is closed with one Disconnected event |
| ConnectionManagers.ConnectionManager.AnnounceSession | packages/catcher-ws/src/transport/ws_client.rs:849-857 | A session is opened by one Connected event naming the endpoint and latency it came up with |
| ConnectionManagers.ConnectionManager.ServeOnce | packages/catcher-ws/src/transport/ws_client.rs:849-1260 | A session and the reconnect phase after it: ready to serve again, or over for a close, no handles left or no attempts left |
| ConnectionManagers.ConnectionManager.Run | packages/catcher-ws/src/transport/ws_client.rs:831-1262 | Every run, whatever peers, network and time do: every connection the network established was sent exactly the frames, and gave exactly the ticks, pongs and data frames, that the history says; the history is well-formed and its sessions are those the trace shows; the trace is legal, shows the commands taken in channel order, and owes no event; the run ends only after a close, without handles, or without attempts, or else all the turns observed were turns of select loops |
| EventGrammar.TrafficOnlyInSession | packages/catcher-ws/src/transport/ws_client.rs:995-1026 | Message and HeartbeatRtt events occur only inside a session opened by Connected and not yet ended by Disconnected, with no close and no network change taken in between |
| EventGrammar.SessionsAreSeparated | packages/catcher-ws/src/transport/ws_client.rs:1056-1133 | Between two Connected events there is a Disconnected and, after the last such, a Reconnecting |
| EventGrammar.NothingAfterClose | packages/catcher-ws/src/transport/ws_client.rs:933-954 | Nothing follows a consumed close |
| EventGrammar.HowTheGapArose | packages/catcher-ws/src/transport/ws_client.rs:1056-1163 | In a gap a Disconnected lies behind, and an announced attempt follows the last of them |
| EventGrammar.GapTracksAttempts | packages/catcher-ws/src/transport/ws_client.rs:1157-1218 | The attempt number in a gap is the one last announced since the last network change |
| EventGrammar.BackoffNumbering | packages/catcher-ws/src/transport/ws_client.rs:1157-1162 | Backoff attempts count 1, 2, 3, ... and restart only after a consumed NetworkChanged |
| EventGrammar.BackoffsWithinBudget | packages/catcher-ws/src/transport/ws_client.rs:1157-1218 | Announcements never outrun max_attempts per network change plus the attempts of the current count |
| EventGrammar.BackoffsAreBounded | packages/catcher-ws/src/transport/ws_client.rs:1148-1250 | A gap in which k network changes are taken announces at most max_attempts * (k + 1) backoff attempts |
| EventGrammar.DelaysGrowWithinGap | packages/catcher-ws/src/transport/ws_client.rs:1157-1162 | With a multiplier of at least one, delays announced between two network changes never shrink |
| EventGrammar.ReconnectsToTheSameEndpoint | packages/catcher-ws/src/transport/ws_client.rs:1220-1229 | Without a network change a session is resumed on the endpoint of the previous one |
| Reconnect.BackoffNeverShrinks | packages/catcher-ws/src/ws/reconnect.rs:43-57 | The delay of a later attempt is never smaller, for a multiplier of at least one |
| Reconnect.ReconnectManager.OnDisconnect | packages/catcher-ws/src/ws/reconnect.rs:34-60 | The n-th call since a reset gives min(max_delay, floor(initial * multiplier^(n-1))), and None exactly when the attempts are used up |
| Reconnect.ReconnectManager.OnConnected | packages/catcher-ws/src/ws/reconnect.rs:63-67 | Success clears count and delay |
| Reconnect.ReconnectManager.Reset | packages/catcher-ws/src/ws/reconnect.rs:74-77 | A reset clears count and delay and keeps the state |
| MessageCodec.MessageRoundTrip | packages/catcher-ws/src/transport/ws_client.rs:186-237 | With lossless compressors and msgpack off, what is received equals what was sent, in bytes and kind, exactly when the receiver accepts the length and the raw payload does not masquerade as an envelope |
| MessageCodec.EnvelopeRoundTrip | packages/catcher-ws/src/ws/application_compression.rs:24-116 | An envelope decodes to its payload and kind exactly when the receiver accepts the length |
| MessageCodec.DecodedLengthIsBounded | packages/catcher-ws/src/ws/application_compression.rs:54-116 | Whatever bytes arrive, a decoded envelope is within max_payload_bytes and has exactly the length its big-endian header names |
| MessageCodec.ReadLimitedExactly | packages/catcher-ws/src/ws/application_compression.rs:161-177 | The limited reader returns the whole output exactly when it fits and the increment of the limit does not wrap |
| MessageCodec.EncodeFailsExactly | packages/catcher-ws/src/ws/application_compression.rs:29-41 | Encoding fails only for an enveloped payload over u32::MAX or refused by the compressor |
| MessageCodec.MasqueradeSurvivesOnlyAsQuine | packages/catcher-ws/src/ws/application_compression.rs:58-60 | A raw binary payload that starts with the magic is received unchanged if and only if it is a binary envelope of itself, of a length the receiver accepts; shorter than a header it is refused |
| MessageCodec.FillFrame | packages/catcher-ws/src/ws/application_compression.rs:43-51 | The frame filled field by field is the specified encoding |
| DnsCache.EveryRunKeepsTheInvariant | packages/catcher-dns/src/lib.rs:335-440 | In every interleaving, an entry of an older generation has someone who still owes its removal, or is an orphan: inserted by an overtaken refresh, or its remover was dropped |
| DnsCache.CleanUnlessLeftBehind | packages/catcher-dns/src/lib.rs:335-440 | A run at rest has only entries of the current generation if and only if for no host an old entry was left behind: the last step to touch it was an overtaken insert, or a lookup about to remove it has been dropped since |
| DnsCache.CleanAtRestExactly | packages/catcher-dns/src/lib.rs:335-440 | Once nothing is in flight, the cache is clean exactly when it holds no orphan |
| DnsCache.NoOvertakingNoResidue | packages/catcher-dns/src/lib.rs:399-440 | If no bump falls between a refresh's check and its insert, and no lookup about to remove an old entry is dropped, every interleaving at rest leaves only entries of the current generation |
| DnsCache.OrphanedExactly | packages/catcher-dns/src/lib.rs:399-440 | Which hosts hold an orphan, told from the schedule alone |
| DnsCache.OvertakenRefreshLeavesAStaleEntry | packages/catcher-dns/src/lib.rs:399-410 | A concrete run in which a clear between check and insert leaves a stale entry with nobody left to remove it |
| DnsCache.DroppedLookupLeavesAStaleEntry | packages/catcher-dns/src/lib.rs:421-440 | A concrete run in which a lookup begun before a clear caches its answer after it and is dropped before it looks at the generation again: the old answer stays with nobody to remove it |
| DnsCache.EveryRunRefreshesOnce | packages/catcher-dns/src/lib.rs:390-415 | Per host, refreshes in flight are at most the clears so far plus one if marked; a marker always has a live refresh behind it |
| DnsCache.NeverBlockedForGood | packages/catcher-dns/src/lib.rs:390-415 | At rest no host is marked as refreshing |
| DnsCache.DebtsKept | packages/catcher-dns/src/lib.rs:419-440 | A debt is settled only by the step that removes the entry |
| DnsCache.HickoryDnsResolver.constructor | packages/catcher-dns/src/lib.rs:308-324 | A fresh resolver is the initial state of the step machine |
| DnsCache.HickoryDnsResolver.LoadGeneration | packages/catcher-dns/src/lib.rs:419-421 | A lookup loads the generation before it starts |
| DnsCache.HickoryDnsResolver.ServeStale | packages/catcher-dns/src/lib.rs:390-393 | A stale hit loads the generation, whatever has become of the entry it found, before it tries the marker |
| DnsCache.HickoryDnsResolver.BeginLookup | packages/catcher-dns/src/lib.rs:422-425 | The shared lookup begins |
| DnsCache.HickoryDnsResolver.FinishLookup | packages/catcher-dns/src/lib.rs:422-433 | A lookup of its own is inserted; a cached, shared or failed one inserts nothing |
| DnsCache.HickoryDnsResolver.RecheckGeneration | packages/catcher-dns/src/lib.rs:438-438 | The generation is compared after the answer |
| DnsCache.HickoryDnsResolver.InvalidateEntry | packages/catcher-dns/src/lib.rs:438-440 | A changed generation removes whatever is cached for the host |
| DnsCache.HickoryDnsResolver.DropLookup | packages/catcher-dns/src/lib.rs:422-440 | The future of a lookup is dropped at one of its awaits; if it was about to remove an old entry, that entry is an orphan |
| DnsCache.HickoryDnsResolver.TryRefresh | packages/catcher-dns/src/lib.rs:394-395 | Only the lookup that sets the marker spawns a refresh |
| DnsCache.HickoryDnsResolver.RefreshStepOn | packages/catcher-dns/src/lib.rs:395-413 | The background refresh, step by step: query, check, insert, release the marker |
| DnsCache.HickoryDnsResolver.BumpGeneration | packages/catcher-dns/src/lib.rs:336-336 | clear_cache bumps first |
| DnsCache.HickoryDnsResolver.InvalidateAll | packages/catcher-dns/src/lib.rs:337-338 | then invalidates every entry |
| DnsCache.HickoryDnsResolver.ReleaseMarkers | packages/catcher-dns/src/lib.rs:340-340 | and then releases the markers |
| CircuitBreakers.CircuitBreaker.BeforeRequest | packages/catcher-http/src/resilience/circuit_breaker.rs:38-67 | Who is admitted in each state, and the new state |
| CircuitBreakers.CircuitBreaker.OnSuccess | packages/catcher-http/src/resilience/circuit_breaker.rs:70-86 | The effect of a reported success in each state |
| CircuitBreakers.CircuitBreaker.OnFailure | packages/catcher-http/src/resilience/circuit_breaker.rs:89-106 | The effect of a reported failure in each state |
| CircuitBreakers.CircuitBreaker.ResetBreaker | packages/catcher-http/src/resilience/circuit_breaker.rs:114-119 | A reset sets the state and then clears the counters one by one; undisturbed, that closes the breaker with nothing counted |
| CircuitBreakers.CircuitBreaker.SetClosed | packages/catcher-http/src/resilience/circuit_breaker.rs:115-115 | The state alone is set, under its lock |
| CircuitBreakers.CircuitBreaker.ClearCount | packages/catcher-http/src/resilience/circuit_breaker.rs:116-118 | Then one counter after the other is cleared |
| CircuitBreakers.ClosedCountsFailuresInARow | packages/catcher-http/src/resilience/circuit_breaker.rs:70-106 | In Closed the count is exactly the failures since the last success or reset and stays below the threshold |
| CircuitBreakers.TripsExactlyAtThreshold | packages/catcher-http/src/resilience/circuit_breaker.rs:89-98 | A closed breaker opens on exactly the failure that completes the row |
| CircuitBreakers.OpenSinceItsFailure | packages/catcher-http/src/resilience/circuit_breaker.rs:45-57 | An open breaker was opened by a reported failure; since then nothing was admitted within reset_timeout_ms and nothing was reset |
| CircuitBreakers.HalfOpenHasAnEpisode | packages/catcher-http/src/resilience/circuit_breaker.rs:48-53 | A half-open breaker was half-opened by one request and has stayed so since |
| CircuitBreakers.EpisodeCounters | packages/catcher-http/src/resilience/circuit_breaker.rs:58-87 | In an episode the counters are the requests and successes since it began, and at most half_open_max_requests + 1 requests are admitted, the opening one included |
| CircuitBreakers.ClosingTakesTheSuccesses | packages/catcher-http/src/resilience/circuit_breaker.rs:76-83 | Closing from half open without a reset takes success_threshold successes and no failure in that episode |
| BreakerResets.UndisturbedResetsActAtOnce | packages/catcher-http/src/resilience/circuit_breaker.rs:114-119 | With any number of resets under way and every other operation in between: if no failure is reported while a reset is under way, the breaker stands, whenever none is, where resets that act at once would have led |
| BreakerResets.TripsAtThresholdIfUndisturbed | packages/catcher-http/src/resilience/circuit_breaker.rs:89-119 | Such a closed breaker trips on exactly the failure that completes the row since the last success or reset |
| BreakerResets.TripsEarlyExactly | packages/catcher-http/src/resilience/circuit_breaker.rs:89-119 | A failure that does not complete the row can open a closed breaker if and only if the threshold is at least two |
| BreakerResets.OneFailureUndoesTheReset | packages/catcher-http/src/resilience/circuit_breaker.rs:114-119 | For every such threshold, a run in which the first failure after a reset has set the state opens the breaker, and it is still open when the reset has finished |
| HalfOpenProbes.ProbesAreAccountedFor | packages/catcher-http/src/resilience/circuit_breaker.rs:58-87 | If no probe is abandoned, every admitted probe is still running or counted as a success |
| HalfOpenProbes.StuckExactlyWhenProbesCannotSuffice | packages/catcher-http/src/resilience/circuit_breaker.rs:45-106 | With reporting probes a run can end refusing everything with no probe running if and only if success_threshold > half_open_max_requests + 1 |
| HalfOpenProbes.StuckForGood | packages/catcher-http/src/resilience/circuit_breaker.rs:58-65 | A stuck breaker refuses every request of any run of requests, ever after |
| HalfOpenProbes.AbandonedProbesStrandTheBreaker | packages/catcher-http/src/transport/http_client.rs:428-455 | Whatever the thresholds, probes that leave without reporting, for whichever reason, can strand a half-open breaker |
| ProbeDuties.EveryRunAccounts | packages/catcher-http/src/transport/http_client.rs:355-489 | In every interleaving of requests and network changes, the probes admitted in a half-open episode are exactly those in flight, those counted as successes, and those gone without a report |
| ProbeDuties.RefusalHasAReportOwed | packages/catcher-http/src/transport/http_client.rs:355-489 | In every interleaving, with success_threshold at most half_open_max_requests + 1: a half-open breaker that refuses has a request in flight that will report either way, unless a probe was cancelled or had asked under an older generation, or a network change has yet to reset the breaker |
| ProbeDuties.PromptRunsMakeProgress | packages/catcher-http/src/transport/http_client.rs:355-489 | So a run without cancellations, and with every question asked under the current generation, never leaves such a breaker refusing with no report to come, unless a reset is outstanding |
| ProbeDuties.NoProbeInFlightExactly | packages/catcher-http/src/transport/http_client.rs:355-489 | A half-open breaker that refuses has no probe in flight if and only if those that succeeded and those that left without a report are all that half_open_max_requests + 1 allow |
| ProbeDuties.StrandedExactlyWhenProbesCannotSuffice | packages/catcher-http/src/transport/http_client.rs:355-489 | Without cancellations and outdated questions, some interleaving leaves the breaker refusing everything, with nothing in flight and no reset to come, if and only if success_threshold exceeds half_open_max_requests + 1 |
| ProbeDuties.OutdatedProbeStrandsTheBreaker | packages/catcher-http/src/transport/http_client.rs:362-481 | A concrete run without any cancellation: a probe that loaded its generation before a network change and asked after it fails silently, and the breaker refuses everything with nothing in flight |
| HttpTransports.EveryRunLagsOnlyByStragglers | packages/catcher-http/src/transport/http_client.rs:362-485 | In every interleaving only requests that had passed their check at the latest bump can still report across it |
| HttpTransports.StaleFailureIsAStraggler | packages/catcher-http/src/transport/http_client.rs:477-485 | A failure reported comes from a request of the current generation or from one whose check preceded the latest bump |
| HttpTransports.StaleFailuresAreBounded | packages/catcher-http/src/transport/http_client.rs:477-485 | The new network is charged with at most one failure per such straggler |
| HttpTransports.ResetBreakerCountsFreshFailures | packages/catcher-http/src/transport/http_client.rs:156-162 | Until the next change, a breaker just reset holds no more failures than the new generation has reported and the stragglers can still report |
| HttpTransports.HttpTransport.NetworkChanged | packages/catcher-http/src/transport/http_client.rs:159-162 | The generation moves on and the breaker is closed and cleared |
| HttpTransports.HttpTransport.NetworkChanges | packages/catcher-http/src/transport/http_client.rs:156-162 | Several network changes in a row are as many bumps and as many resets of the breaker |
| HttpTransports.HttpTransport.ExecuteWithToken | packages/catcher-http/src/transport/http_client.rs:355-489 | What the breaker is told, with network changes both before and after the question to it: refusals and cancelled waits or runs on the unqueued paths report nothing, answers report success, errors report failure exactly if no change fell after the generation was loaded |
| SseStreams.CollectLines | packages/catcher-http/src/sse/stream.rs:111-158 | Chunking invariance: however a text is cut, lines, last event id and retry delay are those of splitting the whole text and routing each line |
| SseStreams.SseStream.PollNext | packages/catcher-http/src/sse/stream.rs:111-158 | Each poll hands out the next routed line, reports a failure or a wait only where the byte stream had one, and ends only with everything handed out |
| SseStreams.SseStream.ProcessBuffer | packages/catcher-http/src/sse/stream.rs:82-91 | All finished lines are taken off the buffer and routed in order |
| SseStreams.SseStream.ProcessLine | packages/catcher-http/src/sse/stream.rs:93-100 | One line is absorbed as routing says |
| SseStreams.SseStream.ProcessTail | packages/catcher-http/src/sse/stream.rs:136-148 | At the end of the stream a non-empty rest is the last line |
| SseStreams.SplitIsTheSplit | packages/catcher-http/src/sse/stream.rs:82-91 | The reference split: joined by newlines the pieces are the text, and no piece holds a newline |
| SseStreams.SplitResumes | packages/catcher-http/src/sse/stream.rs:82-91 | A text cut anywhere splits like the whole |
| SseClients.SseClient.ConnectOnce | packages/catcher-http/src/sse/client.rs:187-298 | An attempt without read errors whose consumer takes all its lines ends with the stream, and channel and cells have advanced by exactly the lines of the whole text; a consumer that goes away has got as much as it takes; a read failure leaves out the open piece; 204 and other statuses change nothing |
| SseClients.SseClient.ReadBody | packages/catcher-http/src/sse/client.rs:249-283 | The chunk loop, for every cut of the text: it stops early only for a read error in the input or a consumer that takes no more |
| SseClients.SseClient.DrainBuffer | packages/catcher-http/src/sse/client.rs:257-281 | All finished lines of the buffer are routed in order, unless the consumer takes no more |
| SseClients.SseClient.RouteTail | packages/catcher-http/src/sse/client.rs:284-295 | At the end of the stream what is left in the buffer is the last line |
| SseClients.ReadBothWays | packages/catcher-http/src/sse/client.rs:249-295 | The two readers agree: on the same chunks without read errors, a consumer that takes all its lines is sent exactly what a pull stream yields, with the same last event id and retry delay |
| SseRouting.RetryRoundTrip | packages/catcher-http/src/sse/router.rs:22-28 | A decimal retry line sets exactly that delay when it fits 64 bits, and is yielded as text otherwise |
| SseRouting.IdRoundTrip | packages/catcher-http/src/sse/router.rs:18-21 | An id line sets exactly the id written unless that begins with white space |
| Multipart.Encode | packages/catcher-http/src/transport/multipart.rs:87-138 | The imperative encoder writes exactly the specified encoding of the parts in order |
| Multipart.WriteDisposition | packages/catcher-http/src/transport/multipart.rs:157-167 | The disposition line with and without a file name |
| Multipart.FormsReadBackExactly | packages/catcher-http/src/transport/multipart.rs:87-180 | A reference parser returns exactly the parts encoded if and only if no name or file name holds a quote or line end, no content type a line end, and no content the delimiter, be it across the blank line before it |
| Multipart.PartsReadBackExactly | packages/catcher-http/src/transport/multipart.rs:87-138 | The same for every boundary without a carriage return |
| Multipart.EncodingIsDelimited | packages/catcher-http/src/transport/multipart.rs:92-137 | With a leading line end, the body is the delimiter, then each part and the delimiter, then the close mark |
| Multipart.DispositionReadsBack | packages/catcher-http/src/transport/multipart.rs:157-167 | A disposition line reads back as the name and file name written |
| Multipart.PartReadsBack | packages/catcher-http/src/transport/multipart.rs:98-129 | A part reads back with whatever content follows its blank line |
| Multipart.PartBeforeDelimiter | packages/catcher-http/src/transport/multipart.rs:98-129 | What precedes the next delimiter parses as the part exactly when its content is apart from the delimiter |
| Multipart.QuotesCollide | packages/catcher-http/src/transport/multipart.rs:157-167 | Two different forms with the same encoding, so no parser can tell them apart once a name may hold a quote |
| Multipart.BoundaryHasNoReturn | packages/catcher-http/src/transport/multipart.rs:170-180 | A generated boundary holds no carriage return |
| Base64.Base64Encode | packages/catcher-http/src/transport/http_client.rs:952-972 | The nested loops compute the encoding of section 4 of RFC 4648 |
| Base64.EncodeChunk | packages/catcher-http/src/transport/http_client.rs:957-970 | The symbols spelled from the accumulator are those of the 24-bit group, padding included |
| Base64.Gather | packages/catcher-http/src/transport/http_client.rs:958-961 | The bytes or-ed into the 32-bit accumulator from the top make, as a number, the 24-bit group of the chunk |
| Base64.Index | packages/catcher-http/src/transport/http_client.rs:964-964 | Shift and mask cut the i-th six bits out of that number |
| MachineWords.OrOctet | packages/catcher-http/src/transport/http_client.rs:960-960 | Or-ing an octet, shifted, into zero bits of the accumulator adds it at its weight |
| MachineWords.SixBitsAreRemainders | packages/catcher-http/src/transport/http_client.rs:964-964 | Shifting and masking any 32-bit word is quotient and remainder |
| Base64.CharsetIsTheTable | packages/catcher-http/src/transport/http_client.rs:955-955 | The character set is Table 1 of RFC 4648 |
| Base64.EncodeThenDecode | packages/catcher-http/src/transport/http_client.rs:952-972 | A reference decoder returns the input |
| Base64.EncodeExactly | packages/catcher-http/src/transport/http_client.rs:952-972 | A text decodes to a byte string if and only if it is its encoding |
| Base64.Shape | packages/catcher-http/src/transport/http_client.rs:952-972 | Length 4 * ceil(n / 3), with exactly (3 - n mod 3) mod 3 signs of padding, all at the end |
| Percentile.P90IsTheRank | packages/catcher-http/src/resilience/timeout.rs:53-57 | At least ceil(0.9 n) samples are at most the P90 and fewer than that are strictly below it |
| AdaptiveTimeouts.AdaptiveTimeout.Record | packages/catcher-http/src/resilience/timeout.rs:38-44 | The window holds exactly the last samples up to its size |
| AdaptiveTimeouts.AdaptiveTimeout.TimeoutMs | packages/catcher-http/src/resilience/timeout.rs:47-64 | After any calls: the clamped multiple of the P90 over exactly the last window_size samples, as if recomputed |
| AdaptiveTimeouts.AdaptiveTimeout.Snapshot | packages/catcher-http/src/resilience/timeout.rs:72-107 | Exactly: the summary of the current window, unless a timeout was computed since the last sample and before any snapshot; then the summary of the samples that the last snapshot was made from, or the empty one |
| AdaptiveTimeouts.SummaryOfTheWindow | packages/catcher-http/src/resilience/timeout.rs:79-100 | What is computed from the sorted copy are the mean, the minimum, the maximum, the mean deviation from the mean and the size of the window itself, and no other snapshot has them |
| AdaptiveTimeouts.SnapshotAfterTimeout | packages/catcher-http/src/resilience/timeout.rs:47-107 | A lapse: after one sample and one timeout computed from it, the snapshot is the empty one |
| AdaptiveTimeouts.TimeoutCoversTheRank | packages/catcher-http/src/resilience/timeout.rs:52-63 | A multiplier of at least one and a cap that allows it cover at least ceil(0.9 n) of the window |
| Heartbeat.HeartbeatManager.P90Rtt | packages/catcher-ws/src/ws/heartbeat.rs:77-92 | The P90 of exactly the last twenty round-trip times, as if recomputed |
| Heartbeat.HeartbeatManager.IntervalMs | packages/catcher-ws/src/ws/heartbeat.rs:35-41 | Adaptive: twice the P90, saturating, never below the configured interval; fixed otherwise |
| Heartbeat.HeartbeatManager.OnPong | packages/catcher-ws/src/ws/heartbeat.rs:44-53 | A pong clears the misses and enters its round trip into the window |
| Heartbeat.HeartbeatState.OnTick | packages/catcher-ws/src/transport/ws_client.rs:957-970 | A tick steps the silence automaton: it gives up on a pong timeout or too many misses, else pings |
| Heartbeat.HeartbeatState.OnPong | packages/catcher-ws/src/transport/ws_client.rs:1016-1026 | A pong is measured from the last unanswered ping |
| Heartbeat.ResponsivePeerIsKept | packages/catcher-ws/src/transport/ws_client.rs:957-992 | A peer answering every ping before the next tick is never given up |
| Heartbeat.SilentPeerIsDropped | packages/catcher-ws/src/transport/ws_client.rs:957-970 | A peer silent since its last pong is given up by tick max(1, max_missed_pongs) + 1 |
| Heartbeat.SilentPeerIsKeptUntil | packages/catcher-ws/src/ws/heartbeat.rs:56-74 | The bound is exact: a peer silent since its last pong, every tick within the pong timeout, is kept if and only if the ticks are at most max(1, max_missed_pongs) |
| Heartbeat.SilenceIsCounted | packages/catcher-ws/src/transport/ws_client.rs:959-969 | In silence the count of misses is one behind the ticks |
| FfiCallbacks.NoCallbackAfterDestroy | packages/catcher-ws/src/ffi/ws_ffi.rs:76-93 | In every interleaving, once a destroy has returned no guarded callback of its id is running, begins or ends |
| FfiCallbacks.RunKeepsInv | packages/catcher-ws/src/ffi/ws_ffi.rs:20-231 | What every step of client tasks and destroys keeps |
| FfiCallbacks.IdsAreNeverReused | packages/catcher-core/src/handle_registry.rs:42-56 | An id created is one no earlier client had |
| FfiCallbacks.FinishedTasksLeaveNothing | packages/catcher-ws/src/ffi/ws_ffi.rs:123-145 | No registry entry survives its finished task |
| FfiCallbacks.MissedExactly | packages/catcher-ws/src/ffi/ws_ffi.rs:124-138 | A destroy misses the handle if and only if it finds the client between its check of the cancelled ids and its registration |
| FfiCallbacks.MissIsReachable | packages/catcher-ws/src/ffi/ws_ffi.rs:124-138 | Such a miss is reachable |
| FfiCallbacks.DestroyWaitsForCallbacks | packages/catcher-ws/src/ffi/ws_ffi.rs:20-31 | A destroy does not return while a callback runs, so one called from inside a callback never returns |
| FfiCallbacks.WsFfi.CreateClient | packages/catcher-ws/src/ffi/ws_ffi.rs:119-123 | Creation takes the next id |
| FfiCallbacks.WsFfi.FinishConnect | packages/catcher-ws/src/ffi/ws_ffi.rs:124-124 | The connect outcome |
| FfiCallbacks.WsFfi.CheckWsCancelled | packages/catcher-ws/src/ffi/ws_ffi.rs:126-129 | A client destroyed while connecting closes its handle and finishes unregistered |
| FfiCallbacks.WsFfi.RegisterHandle | packages/catcher-ws/src/ffi/ws_ffi.rs:130-130 | Registration under the id taken |
| FfiCallbacks.WsFfi.InvokeIfActive | packages/catcher-ws/src/ffi/ws_ffi.rs:76-93 | A callback begins exactly if the id is not cancelled |
| FfiCallbacks.WsFfi.ReturnFromCallback | packages/catcher-ws/src/ffi/ws_ffi.rs:91-93 | The read lock is held until the callback returns |
| FfiCallbacks.WsFfi.EndOfEvents | packages/catcher-ws/src/ffi/ws_ffi.rs:132-137 | The event loop ends with its channel |
| FfiCallbacks.WsFfi.UnregisterHandle | packages/catcher-ws/src/ffi/ws_ffi.rs:138-138 | The entry is removed when the loop is left |
| FfiCallbacks.WsFfi.BeginDestroy | packages/catcher-ws/src/ffi/ws_ffi.rs:222-226 | A destroy of any id may be called at any time |
| FfiCallbacks.WsFfi.MarkWsCancelled | packages/catcher-ws/src/ffi/ws_ffi.rs:20-31 | Marking waits for running callbacks |
| FfiCallbacks.WsFfi.FinishDestroy | packages/catcher-ws/src/ffi/ws_ffi.rs:228-231 | A registered handle is removed and told to close |
| HandleRegistries.HandleRegistry.NextId | packages/catcher-core/src/handle_registry.rs:42-44 | Ids count up |
| HandleRegistries.HandleRegistry.Insert | packages/catcher-core/src/handle_registry.rs:47-51 | A new id and its entry |
| HandleRegistries.HandleRegistry.InsertWithId | packages/catcher-core/src/handle_registry.rs:54-56 | An entry under an id taken earlier |
| HandleRegistries.HandleRegistry.Get | packages/catcher-core/src/handle_registry.rs:59-61 | The value kept, if any |
| HandleRegistries.HandleRegistry.Remove | packages/catcher-core/src/handle_registry.rs:64-66 | The value removed, if any; other entries stay |
| PushQueues.PushQueue.Push | packages/catcher-http-ts/src/sse/client.ts:29-36 | A push before the end reaches the oldest waiting consumer or the buffer; the promises stay those the history calls for |
| PushQueues.PushQueue.Finish | packages/catcher-http-ts/src/sse/client.ts:38-42 | Finishing tells every waiting consumer the end |
| PushQueues.PushQueue.Fail | packages/catcher-http-ts/src/sse/client.ts:44-47 | Failing records the error and finishes |
| PushQueues.PushQueue.Next | packages/catcher-http-ts/src/sse/client.ts:53-63 | A call takes the oldest buffered item, or hears the end or the error, or waits |
| PushQueues.PushQueue.Settle | packages/catcher-http-ts/src/sse/client.ts:32-40 | No promise is resolved twice |
| PushQueues.Conservation | packages/catcher-http-ts/src/sse/client.ts:23-69 | In every reachable state: delivered values followed by buffered items are the pushes accepted, in order; items and consumers never wait at once; an end is reported only after every item |
| PushQueues.SettlesOnce | packages/catcher-http-ts/src/sse/client.ts:23-69 | A settled promise keeps its outcome whatever is called later; a call waits exactly while it is beyond the accepted items of an open queue |
| PushQueues.RejectedExactly | packages/catcher-http-ts/src/sse/client.ts:38-63 | A call is rejected, with the recorded error, exactly when it finds the queue done, drained and failed with a truthy value |

## Left out

- MessageCodec.MessageRoundTrip: msgpack is off; with it, the msgpack library decides what comes back.
- ConnectionManagers.ConnectionManager.RunSession: any branch of the select loop may be ready at any turn, so the bias towards commands and the length of the ping interval are not used; `horizon` cuts the observation of a run after finitely many turns.
- ConnectionManagers.Network.Connect: sockets, TLS, proxies, handshakes and endpoint racing are reduced to an arbitrary configured endpoint or a failure.
- Reconnect.ReconnectManager.OnDisconnect: attempts are unbounded naturals, so the overflow of the 32-bit counter is not modelled, and the product is taken over the reals, without floating-point rounding.
- Heartbeat.HeartbeatManager.P90Rtt: the rank is ceil(9n / 10) exactly, and clocks do not go backwards.
- AdaptiveTimeouts.AdaptiveTimeout.Snapshot: sums are unbounded naturals, where the code's 64-bit sum could overflow.
- AdaptiveTimeouts.AdaptiveTimeout.TimeoutMs: assumes a window of at least one sample and min <= max (the code panics otherwise), and scales over the reals.
- CircuitBreakers.CircuitBreaker.BeforeRequest: the clock does not run behind `opened_at_ms`, where the code's unsigned subtraction would wrap or panic.
- HttpTransports.HttpTransport.NetworkChanged: the reset of the breaker is one step among the interleavings of requests; BreakerResets has its steps one by one.
- HttpTransports.HttpTransport.ExecuteWithToken: the HTTP exchange, metrics, adaptive timeout and permits are left out; the retry of a 421 response is not modelled.
- DnsCache.HickoryDnsResolver.FinishLookup: the cache is a map whose entries may be evicted at any time; single-flight sharing inside it, the lookup itself, host mappings, stale-on-error answers and the swap of the inner resolver are left out.
- SseStreams.SseStream.NextInput: chunks are text already decoded; a character split across two chunks is replaced by the code's lossy decoding and does not come back.
- SseClients.SseClient.ConnectOnce: the request, its headers and timeouts, and the reconnect loop around the attempts are left out; the consumer is one that takes a given number of lines, or all.
- Multipart.Encode: the boundary is a parameter, and names are already octets (their UTF-8 encoding is not modelled).
- Multipart.FormsReadBackExactly: the reference parser reads the header spelling the encoder writes; it does not accept other header orders or transport padding.
- FfiCallbacks.WsFfi.InvokeIfActive: the callback for an empty URL list, made before any id exists, is not guarded by an id and is left out, as are pointers, C strings and JSON.
- HandleRegistries.HandleRegistry.NextId: ids are unbounded naturals; the code's counter wraps after 2^64 allocations.
- PushQueues.PushQueue.Next: the iterator's `return()`, which settles at once and touches nothing, is left out.
- The priority request queue, retry helpers and rate limiting: their behaviour is decided inside libraries, and mainly easy counting would remain.
- The web copies of the SSE client and the interceptors repeat the versions modelled here.
