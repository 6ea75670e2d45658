# Verification of the client SDK's stateful cores

Dafny models of the protocols and algorithms on which the SDK's correctness rests, and
proofs of what they promise over whole runs. Run `dafny verify dfyconfig.toml`.

**Realtime state.** `SyncMachine`, `StateStore` and the frame dispatcher form one protocol:
snapshot, hello, replay batches with live events queued meanwhile, completion, live, and a
new snapshot on any failure. Machine and store each track a GEID; `Handoff.Coupled` is the
invariant that relates them, kept by every frame in every state, and `Lifetime` carries it
over every run of socket generations. Live is a publication barrier. `KeyHistory` gives the
projected lists their meaning as keyed maps, `Acceptance` says which events apply at all.
`Resumption` follows the cursor a new socket resumes from, `Announcements` what the host is
shown. `Receivers` interleaves event receivers with snapshot replacement, `Deliveries` says
what they get.

**Connection.** `Commands` interleaves command callers with the socket task over the pending
table, `CommandOutcomes` follows one command to its end. `Reconnect` is the reconnect loop and its backoff arithmetic.

**Credentials.** `Refresh` is the refresh singleflight with leader cancellation,
`FlightProgress` what its callers get.
`Credentials` interleaves loads, logins, logouts and refreshes under the credential gate.
`Sessions` runs the two together under authorized requests and their retry after a 401;
`SessionTokens` says which tokens are sent, `Retries` what a rejected request comes to,
`SecondFlights` when a token is refreshed twice.

**Voice.** `Replay` is the two-word sliding window against an unbounded set (a scheme like
section 3.4.3 of RFC 4303). `Codec` is the packet codec: round trips, canonical wire
form, one key per direction; `Refusals` is what it refuses. `Worker` is the session worker: sequence and nonce discipline (the deterministic
construction of section 8.2.1 of NIST SP 800-38D), publication, revocation; `WorkerAnswers` is
what it answers and when it ends.

**Certificates.** `Der` finds the SubjectPublicKeyInfo (section 8.1.3 of ITU-T X.690, section
4.1 of RFC 5280) and is matched against a reference encoder in both directions.

Each stateful component has a specification of functions on values, in which the theorems
over runs are stated, and where the SDK updates an object in place a class whose methods
are proved equal to those functions: `SyncMachine`, `StateStore`, `Draft`, `SocketTask`,
`ReplayWindow`, `VoiceWorker`, `PendingTable`, `CredentialState`.

## Results that go against documentation or expectation

- A refresh leader dropped while it waits for the gate again (after storing its result)
  leaves its finished flight in the gate. Refreshing stops for good exactly when that has
  happened (`Refresh.StuckExactly`); every later caller gets the old outcome
  (`Refresh.LateCallersGetOldOutcome`).
- A queued live event may fall behind the store (`Lifetime.QueuedEventOvertaken`): exactly when a
  non-empty replay batch comes after a live event (`Lifetime.QueuedAboveStoreExactly`). The
  hand-off is still safe: such a run never goes live without a new snapshot.
- One rejected access token may be refreshed twice (`SecondFlights.SameTokenRefreshedTwice`):
  exactly when a request that found it active calls after the earlier flight is over
  (`SecondFlights.SecondFlightExactly`). A refresh token is sent again only after a failure
  (`Sessions.AskedAgainOnlyAfterFailure`).
- Memory and credential store may fall apart (`Credentials.DroppedLoginDiverges`);
  `Credentials.AgreementExactly` says when.
- The comment on `require_snapshot` (crates/zephyrvox-realtime/src/sync.rs:236-237) asks callers to
  replace the store first; the only caller (crates/zephyrvox-realtime/src/engine/socket.rs:306-311)
  calls it before, and the model follows the code. `replace_snapshot` on the machine is safe from
  any phase only because of that call.
- `Unknown(1)` and `Unknown(2)` are the only revocation reasons that do not come back.
- The generation marker and the request counter are 64-bit and wrap; the guarantees hold up to
  2^64 replacements or commands, and `Receivers.WrappedMarkerDeliversStale` and
  `Commands.WrappedCounterForgetsWaiter` are the runs in which they fail there.
- With jitter, a later reconnect delay can be the shorter one (`Reconnect.JitterReorders`);
  `Reconnect.DelaysOrderedExactly` says under which policies, and the default is not one.

## Model

| member | source | states |
|---|---|---|
| `Sync.ReachableQueueAccounted` | crates/zephyrvox-realtime/src/sync.rs:45-286 | After every sequence of calls in any phase the byte counter is the sum of the queued encoded sizes, at most 256 events and 2^20 bytes are queued, both are zero outside replay, and the queue ascends to no more than the machine's GEID |
| `Sync.HandoffReleasesArrivals` | crates/zephyrvox-realtime/src/sync.rs:141-234 | However live events and replay batches interleave, completion releases exactly the live events received since `begin_sync`, in arrival order |
| `Sync.OrderedAllFrame` | crates/zephyrvox-realtime/src/sync.rs:159-181 | A run of ordered events is accepted exactly when its GEIDs ascend from the machine's, and then GEID and cursor are its last event's; refused or not, only these two move, the GEID only forward (so a refused batch is not undone) |
| `Sync.EnqueueAccounted` | crates/zephyrvox-realtime/src/sync.rs:185-216 | Admitting, queueing or refusing one live event keeps the queue accounting |
| `Sync.QueueHoldsExactly` | crates/zephyrvox-realtime/src/sync.rs:185-216 | Live events alone are all queued exactly when they ascend, all encode, are at most 256 and take at most 1048576 bytes |
| `Sync.LifecycleExactly` | crates/zephyrvox-realtime/src/sync.rs:45-273 | Each call is refused for its phase exactly outside its own phases, changing nothing; inside, it leaves the phase of the table. Readiness alone sets the control identity, detaching alone clears it, a new snapshot alone moves the stream epoch |
| `Sync.SyncMachine.ReceiveReplay` | crates/zephyrvox-realtime/src/sync.rs:159-181 | The loop over a batch, with its bounds checks, leaves exactly the state and error of the specification, including the progress kept on refusal |
| `Sync.SyncMachine.ReceiveLive` | crates/zephyrvox-realtime/src/sync.rs:185-216 | The size and count limits are checked before ordering; the new state and the answer (queued, to apply, refused) are the specified ones |
| `KeyedList.UpsertByKey` | crates/zephyrvox-realtime/src/state/projection.rs:169-194 | The search loop replaces the first item of the same key in place, or appends |
| `KeyedList.FindUpsert` | crates/zephyrvox-realtime/src/state/projection.rs:169-194 | After an upsert the written key finds the new item and every other key what it found before |
| `KeyedList.UniqueUpsert` | crates/zephyrvox-realtime/src/state/projection.rs:169-194 | An upsert keeps keys unique |
| `KeyedList.FindRetain` | crates/zephyrvox-realtime/src/state/projection.rs:83-157 | With unique keys, a filtered list finds a key exactly when its item passes the filter |
| `KeyedList.UniqueRetain` | crates/zephyrvox-realtime/src/state/projection.rs:83-157 | Filtering keeps keys unique |
| `KeyedList.UpsertKeepsOrder` | crates/zephyrvox-realtime/src/state/projection.rs:169-211 | A written key keeps its place in the list, a new one comes last |
| `Projection.ValidatedEventIsKnown` | crates/zephyrvox-realtime/src/state/projection.rs:11-157 | The event tables agree: whatever validation lets through, application has a rule for, so a validated event never ends in `UnknownEvent` |
| `Acceptance.AppliesExactly` | crates/zephyrvox-realtime/src/state/projection.rs:11-157 | From the event alone: it applies exactly when it is a live state event with a cursor, newer than the store, of a listed type that needs no snapshot, in a well-formed scope of the kind that type lives in, with a body that says what it is about |
| `Acceptance.NamedAppliesExactly` | crates/zephyrvox-realtime/src/state/projection.rs:53-60 | An event that names a group applies exactly under a group scope with an id, one that names a channel or a membership under a channel scope with an id, one that names a user or a role under the server scope without one, given that it is newer and well formed |
| `Acceptance.RefusedExactly` | crates/zephyrvox-realtime/src/state/projection.rs:11-67 | When each answer is given: no cursor, an old GEID, a name outside the list of known ones, a type that needs a snapshot, a body that does not decode |
| `Acceptance.KnownExactly` | crates/zephyrvox-realtime/src/state/projection.rs:261-350 | The tables against lists of the group, channel, server, roaming and visibility events |
| `Projection.ApplyIgnoresCursor` | crates/zephyrvox-realtime/src/state.rs:268-284 | Application never reads the cursor it replaces |
| `Projection.Draft.ApplyKnown` | crates/zephyrvox-realtime/src/state/projection.rs:70-157 | The in-place updates of the cloned state come to the specified effect of the event, and a rejected event leaves the clone unchanged |
| `KeyHistory.KeysStayUnique` | crates/zephyrvox-realtime/src/state/projection.rs:70-157 | Every event keeps keys unique in groups, channels, users and roles, and at most one membership per user |
| `KeyHistory.MembersFollow` | crates/zephyrvox-realtime/src/state/projection.rs:90-116 | A join moves the user; a departure naming a channel the user has left removes nothing; deleting a channel removes its members |
| `KeyHistory.ChannelsFollow` | crates/zephyrvox-realtime/src/state/projection.rs:79-106 | A channel is found as last written, unless it was deleted or the group it then belonged to was |
| `KeyHistory.ApplyFollows` | crates/zephyrvox-realtime/src/state.rs:268-284 | One accepted event moves every lookup of every table as that key's own rule says, and nothing else |
| `KeyHistory.RestFollows` | crates/zephyrvox-realtime/src/state/projection.rs:117-143 | Outside the five tables an accepted event replaces the user's own state, sets or clears the voice authority, or touches nothing but GEID and cursor |
| `KeyHistory.ListsAreMaps` | crates/zephyrvox-realtime/src/state/projection.rs:70-211 | Over any run of accepted events from a snapshot with unique keys, keys stay unique and each lookup in each table is decided by the history of its own key alone |
| `KeyHistory.LookUpMoves` | crates/zephyrvox-realtime/src/state/projection.rs:70-157 | One accepted event puts under each key of the five tables what it carries for that key, takes the key away, sweeps the entry with its group or channel, or leaves it |
| `KeyHistory.LastWriteDecides` | crates/zephyrvox-realtime/src/state/projection.rs:70-211 | In each of the five tables: if an event writes a key and no later one writes it again or sweeps what it wrote, the lookup after the run is what that event wrote |
| `KeyHistory.SweptIsAbsent` | crates/zephyrvox-realtime/src/state/projection.rs:79-116 | If the first later event to touch it sweeps it (its group or channel deleted, or the user's departure from that channel) and none writes the key again, it is gone |
| `KeyHistory.FoldConcat` | crates/zephyrvox-realtime/src/state.rs:268-284 | A run of events may be cut anywhere and continued |
| `Store.ReachableStoreIsFold` | crates/zephyrvox-realtime/src/state.rs:216-284 | In every reachable state the store is its last snapshot with exactly the events sent on the current channel folded in (cursor aside), and those events ascend in GEID from the snapshot's to the store's |
| `Store.StateStore.ApplyOne` | crates/zephyrvox-realtime/src/state.rs:268-284 | All or nothing: an accepted event updates state, watch value and channel together; a rejected one changes none of them and reports the first failed check |
| `Store.StateStore.ReplaceSnapshot` | crates/zephyrvox-realtime/src/state.rs:216-241 | Installs the snapshot, opens an empty channel under the next generation, and reports exactly the voice authority that is not carried over |
| `Store.LossIsReportedExactly` | crates/zephyrvox-realtime/src/state.rs:219-226 | An authority is reported lost exactly when it was held and the replacement does not carry it over |
| `Store.StateStore.SetCursor` | crates/zephyrvox-realtime/src/state.rs:248-255 | Installs and publishes the cursor, and changes nothing else: not the rest of the state, the generation or the channel |
| `Store.FoldAscends` | crates/zephyrvox-realtime/src/state.rs:268-284 | A batch that applies completely has ascending GEIDs and leaves the store at the last of them |
| `Store.FoldIgnoresCursor` | crates/zephyrvox-realtime/src/state.rs:248-284 | Whether and how a batch applies does not depend on the cursor set before it |
| `Store.StoreLookups` | crates/zephyrvox-realtime/src/state.rs:216-284 | What a reader of the store finds is decided by the events sent since the snapshot |
| `Handoff.FrameFates` | crates/zephyrvox-realtime/src/engine/socket.rs:155-318 | In every coupled state, for every frame: it breaks the life cycle and is fatal; or it needs a resync, which only the provider or the transport can fail (never a phase error); or it is followed, keeping machine and store coupled on the same snapshot and channel |
| `Handoff.FrameKeepsCoupling` | crates/zephyrvox-realtime/src/engine/socket.rs:155-318 | A frame without a fatal error keeps the coupling: `machine.geid` is the greater of the store's GEID and the last queued one, the log and the channel show exactly the applied events, and the admitted events are the applied ones and the queued ones |
| `Handoff.ReplayStep` | crates/zephyrvox-realtime/src/engine/socket.rs:165-175 | A replay batch is followed exactly when its bounds and order hold and every event of it applies; otherwise a fresh snapshot and hello take its place |
| `Handoff.CompleteStep` | crates/zephyrvox-realtime/src/engine/socket.rs:176-192 | Completion goes live exactly when the whole queue applies; then what was applied is what was admitted, the store's cursor is the completion's, or the last queued event's, and the machine's is the completion's |
| `Handoff.EventStep` | crates/zephyrvox-realtime/src/engine/socket.rs:199-208 | A live event is queued while syncing and applied while live, or forces a resync; which, is decided by order, limits and projection |
| `Handoff.WireOrder` | crates/zephyrvox-realtime/src/engine/socket.rs:176-192 | If the queue applies on top of what was applied, the two together are the admitted events in wire order |
| `Handoff.QueuedAboveExactly` | crates/zephyrvox-realtime/src/engine/socket.rs:165-208 | In every coupled state, every queued event is above the store's GEID exactly when the admitted events are the applied ones followed by the queue |
| `Handoff.ResyncOutcome` | crates/zephyrvox-realtime/src/engine/socket.rs:300-318 | From syncing or live a resync cannot fail on a phase; it replaces the store, restarts the machine at the snapshot and sends its cursor, unless the provider or the transport fails |
| `Handoff.DrainResyncs` | crates/zephyrvox-realtime/src/engine/socket.rs:169-186 | The first event of a batch that does not apply is replaced by one resync, and the rest of the batch is dropped |
| `Handoff.AscendingUnique` | crates/zephyrvox-realtime/src/engine/socket.rs:165-192 | Two ascending sequences of the same events are the same sequence |
| `Lifetime.ReachableIsSound` | crates/zephyrvox-realtime/src/engine/socket.rs:18-125 | Over every run of socket generations and server frames, stopped at any await, the coupling holds between frames and the store is always the fold of what it sent |
| `Lifetime.ReachableStatus` | crates/zephyrvox-realtime/src/engine/socket.rs:18-318 | In every reachable state the published status matches the phase; live implies an empty queue, equal GEIDs and applied events equal to admitted ones; the queue is non-empty only while syncing |
| `Lifetime.OpenIsCoupled` | crates/zephyrvox-realtime/src/engine/socket.rs:22-75 | The hello prefix succeeds exactly on `connection.ready` and a hello that is sent; it leaves the store alone and starts coupled |
| `Lifetime.PublicationBarrier` | crates/zephyrvox-realtime/src/engine/socket.rs:176-192 | If completion does not fail, live is published exactly when the queue applies, and then the store holds exactly the admitted events since the hello in wire order, at the completion's cursor or the last queued event's; otherwise there is a fresh snapshot and hello |
| `Lifetime.OvertakenNeverLive` | crates/zephyrvox-realtime/src/engine/socket.rs:165-192 | A replay batch that overtook the first queued event rules live out, whatever the provider and transport do |
| `Lifetime.BrokenOrderNeverLive` | crates/zephyrvox-realtime/src/engine/socket.rs:165-192 | So does any interleaving in which applied and queued events are not the admitted ones in order |
| `Lifetime.QueuedAboveStoreExactly` | crates/zephyrvox-realtime/src/engine/socket.rs:165-208 | Over every run: while syncing, every queued event is above the store exactly when no non-empty replay batch has come after a live event since the last hello |
| `Lifetime.InterruptIsConsistent` | crates/zephyrvox-realtime/src/engine/socket.rs:109-118 | A handler dropped at any of its awaits, because the host stops, leaves the store the fold of what it sent |
| `Lifetime.QueuedEventOvertaken` | crates/zephyrvox-realtime/src/engine/socket.rs:165-208 | A run, from any snapshot, in which a queued event lies behind the store |
| `Resumption.StoreCursorIsLast` | crates/zephyrvox-realtime/src/state.rs:216-284 | Over every run of socket generations, stopped at any await, the store's cursor is that of the last snapshot, sent event or accepted completion, whichever came last |
| `Resumption.NewSocketResumes` | crates/zephyrvox-realtime/src/engine/socket.rs:57-75 | and every new socket's hello carries it |
| `Resumption.CompletionIsResumedFrom` | crates/zephyrvox-realtime/src/engine/socket.rs:176-192 | So a socket lost after a completion with nothing queued resumes from the completion's cursor |
| `Announcements.FrameShows` | crates/zephyrvox-realtime/src/engine/socket.rs:155-318 | What the host is shown by each frame: the events that applied, in order, then exactly if a resync is needed that it is, its status and the voice authority it took away; else that the connection is live, or the unknown frame |
| `Announcements.BrokenLifecycleShows` | crates/zephyrvox-realtime/src/engine/socket.rs:161-232 | A frame that breaks the life cycle shows and changes nothing, and ends the socket with its own error |
| `Announcements.OpeningShows` | crates/zephyrvox-realtime/src/engine/socket.rs:22-75 | What the host is shown by the prefix of a socket, on each way out of it |
| `SocketTasks.SocketTask.HandleFrame` | crates/zephyrvox-realtime/src/engine/socket.rs:155-238 | The dispatcher over the machine and store objects makes the step of the specification for every frame |
| `SocketTasks.SocketTask.ApplyInOrder` | crates/zephyrvox-realtime/src/engine/socket.rs:169-186 | The loop over a batch or queue stops at the first event that was replaced by a resync |
| `SocketTasks.SocketTask.ReplaceSnapshotAndHello` | crates/zephyrvox-realtime/src/engine/socket.rs:300-318 | The same for the resync; after the snapshot is installed `begin_sync` cannot refuse |
| `SocketTasks.SocketTask.HandleComplete` | crates/zephyrvox-realtime/src/engine/socket.rs:176-192 | The cursor is updated before the queue is drained, and live is published after it, or not at all |
| `SocketTasks.SocketTask.Start` | crates/zephyrvox-realtime/src/engine/socket.rs:22-75 | The prefix of a socket generation, none of whose three machine calls can be refused |
| `Receivers.NothingStaleIsDelivered` | crates/zephyrvox-realtime/src/state.rs:53-173 | For every interleaving of receivers with sends and snapshot replacements, under 2^64 replacements: a receiver's channel is at least as new as its observed generation, each delivered event comes from the generation published at its check, and nothing older than a published snapshot is delivered after it |
| `Receivers.StepKeepsInvariant` | crates/zephyrvox-realtime/src/state.rs:53-241 | Each critical section of a receiver or a replacement keeps channel and marker paired |
| `Receivers.WrappedMarkerDeliversStale` | crates/zephyrvox-realtime/src/state.rs:227-237 | At exactly 2^64 replacements the wrapped marker lets an event of the first channel through |
| `Deliveries.SubscriberMissesNothing` | crates/zephyrvox-realtime/src/state.rs:53-127 | From its subscription on, while no snapshot replaces the channel and it does not lag, a receiver is handed exactly what is sent, in order |
| `Deliveries.NextEventIsHandedOver` | crates/zephyrvox-realtime/src/state.rs:78-127 | An idle receiver with something to read gets it |
| `Deliveries.ReceiverCatchesUp` | crates/zephyrvox-realtime/src/state.rs:158-173 | After a replacement it moves to the end of the new channel |
| `Refresh.OneRefreshAtATime` | crates/zephyrvox-http/src/client/refresh.rs:47-82 | Under every interleaving and cancellation at most one caller is inside `refresh_once` |
| `Refresh.FinisherClearsOwnFlight` | crates/zephyrvox-http/src/client/refresh.rs:74-80 | A leader about to clear the gate finds its own flight in it |
| `Refresh.NoWaiterIsForgotten` | crates/zephyrvox-http/src/client/refresh.rs:84-91 | A waiting caller has a wakeup pending, or the leader of its flight is still bound to send one |
| `FlightProgress.LeaderDelivers` | crates/zephyrvox-http/src/client/refresh.rs:65-82 | A leader that is not dropped returns what its refresh came to, stores it for the others, wakes them and clears the gate |
| `FlightProgress.WaitersGetTheOutcome` | crates/zephyrvox-http/src/client/refresh.rs:65-98 | and whoever waits for it returns the same |
| `FlightProgress.WaitersOutliveTheirLeader` | crates/zephyrvox-http/src/client/refresh.rs:28-36 | or `AuthExpired`, if the leader is dropped before its result is stored |
| `FlightProgress.JoinerReturns` | crates/zephyrvox-http/src/client/refresh.rs:84-91 | A caller that joins a flight already over returns at once, one that joins earlier waits |
| `Refresh.AnswersAreTheLeaders` | crates/zephyrvox-http/src/client/refresh.rs:65-98 | Whoever returns from a flight returns its leader's exact result, or `AuthExpired` if that leader was cancelled |
| `Refresh.GateIsLiveOrFinished` | crates/zephyrvox-http/src/client/refresh.rs:47-82 | The flight in the gate has a leader at work, a result, or is cancelled |
| `Refresh.StartsRefreshExactly` | crates/zephyrvox-http/src/client/refresh.rs:47-63 | In every state of the invariant, a call starts a refresh of its own exactly when no leader is at work and no abandoned flight holds the gate |
| `Refresh.StuckStep` | crates/zephyrvox-http/src/client/refresh.rs:70-81 | A step leaves the gate with an abandoned flight exactly when it already was, or when it drops a leader waiting to take the gate again |
| `Refresh.StuckExactly` | crates/zephyrvox-http/src/client/refresh.rs:28-82 | So over every run: refreshing has stopped for good exactly when some leader was dropped there |
| `Refresh.AbandonedIsReachable` | crates/zephyrvox-http/src/client/refresh.rs:70-80 | A leader dropped while it waits for the gate again abandons its finished flight |
| `Refresh.AbandonedForever` | crates/zephyrvox-http/src/client/refresh.rs:47-82 | After that no run ever starts another refresh: the gate keeps the flight |
| `Refresh.LateCallersGetOldOutcome` | crates/zephyrvox-http/src/client/refresh.rs:84-98 | and every caller that comes later is answered with the old outcome |
| `Refresh.StepKeepsInvariant` | crates/zephyrvox-http/src/client/refresh.rs:47-98 | Every step of every caller, dropped or not, keeps flights, positions and gate in agreement |
| `Credentials.StepKeepsInvariant` | crates/zephyrvox-http/src/client.rs:129-171 | Under every interleaving of loads, logins, logouts and refreshes, with tasks dropped at any await, at most one task is inside the gate and a committing refresh finds its own pair active |
| `Credentials.ActiveIsVouchedFor` | crates/zephyrvox-http/src/client.rs:129-171 | The active pair was always loaded from the store or accepted by it |
| `Credentials.RefreshTouchesOnlyItsOwn` | crates/zephyrvox-http/src/client/refresh.rs:142-189 | A refresh begun from a pair changes neither the active pair nor the store unless that pair is still active |
| `Credentials.RefreshReturnsTheActivePair` | crates/zephyrvox-http/src/client/refresh.rs:142-189 | A refresh that returns tokens returns the pair active at that moment |
| `Credentials.LoserReturnsTheWinner` | crates/zephyrvox-http/src/client/refresh.rs:142-189 | A refresh that takes the gate with another pair active returns that pair, whatever the server answered, and touches nothing |
| `Credentials.BrokenAnswerFailsExactly` | crates/zephyrvox-http/src/client/refresh.rs:142-154 | After any other error it fails exactly when no pair is active, or still its own |
| `Credentials.OvertakenRefreshReturnsLogin` | crates/zephyrvox-http/src/client/refresh.rs:100-189 | Over every run: a refresh overtaken by a login, while that login's pair is undisputed, is still on its way or has returned that pair |
| `Credentials.RefreshAsksExactly` | crates/zephyrvox-http/src/client/refresh.rs:100-104 | A refresh goes to the server with the active pair, or ends for want of one |
| `Credentials.LoginSurvivesOlderRefresh` | crates/zephyrvox-http/src/client/refresh.rs:156-189 | Over every run, a pair stays active until a login, a logout or a refresh begun from that very pair |
| `Credentials.StepLosesSyncExactly` | crates/zephyrvox-http/src/client.rs:129-171 | Memory and store fall apart in a step exactly when a section is left, by a drop or a failed store, with something other than the loaded pair persisted, or something outside writes what the client does not expect |
| `Credentials.AgreementExactly` | crates/zephyrvox-http/src/client.rs:129-171 | Over every run they always agree exactly when no such step is taken |
| `Credentials.FinishedSectionAgrees` | crates/zephyrvox-http/src/client.rs:129-171 | A section that runs to its end makes them agree again, whatever came before |
| `Credentials.DroppedLoginDiverges` | crates/zephyrvox-http/src/client.rs:148-154 | A run in which they fall apart: a login dropped after its save |
| `CredentialStates.CredentialState.ReplaceIfCurrent` | crates/zephyrvox-http/src/client/refresh.rs:175-189 | The code of the section, uninterrupted, comes to its task's steps: result, active pair and store |
| `CredentialStates.CredentialState.ExpireIfCurrent` | crates/zephyrvox-http/src/client/refresh.rs:158-171 | The same for clearing after a rejected refresh |
| `CredentialStates.CredentialState.SupersededOrError` | crates/zephyrvox-http/src/client/refresh.rs:142-154 | The same for a refresh that failed otherwise |
| `CredentialStates.SupersedeSection` | crates/zephyrvox-http/src/client/refresh.rs:142-154 | which comes to the newer pair if there is one, and else to the failure |
| `CredentialStates.CredentialState.LoadCredentials` | crates/zephyrvox-http/src/client.rs:129-137 | The same for loading, which asks the store once and only once it has succeeded |
| `CredentialStates.CredentialState.SetTokens` | crates/zephyrvox-http/src/client.rs:148-154 | The same for a login: the pair is active only after it was saved |
| `CredentialStates.CredentialState.RefreshOnce` | crates/zephyrvox-http/src/client/refresh.rs:100-138 | A whole refresh, uninterrupted, is the load, the answer and the section the answer calls for |
| `Sessions.StepKeepsInvariant` | crates/zephyrvox-http/src/client.rs:231-277 | Requests, singleflight and credential tasks running together, dropped at any await, stay in step: a leader's task is at work only while its leader is inside `refresh_once`, and a load is begun once |
| `Sessions.OneRefreshUnderWay` | crates/zephyrvox-http/src/client/refresh.rs:47-82 | Over every run, however many flights there have been, at most one refresh is under way |
| `Retries.RejectedRequestGoesOn` | crates/zephyrvox-http/src/client.rs:250-260 | A 401 to a request that may be retried: with the rejected token still active it goes on to refresh, with another one it goes on to reload |
| `Retries.RefreshedRequestIsResent` | crates/zephyrvox-http/src/client.rs:258-277 | A request whose refresh succeeded begins its reload at once and is sent again with the token then active |
| `Retries.FailedRefreshEndsRequest` | crates/zephyrvox-http/src/client.rs:257-259 | One whose refresh failed ends there |
| `Retries.AnswerEndsRequestExactly` | crates/zephyrvox-http/src/client.rs:248-263 | Any answer ends a request except a 401 to the first sending of one that may be retried |
| `Retries.LoadEndsRequestExactly` | crates/zephyrvox-http/src/client.rs:238-277 | A load that finds no pair ends the request, except the comparison's, which leaves that to the retry |
| `Retries.LeaderPassesItsOutcome` | crates/zephyrvox-http/src/client/refresh.rs:65-73 | What the leader's credential task came to is what its flight is told |
| `Sessions.AskedAgainOnlyAfterFailure` | crates/zephyrvox-http/src/client/refresh.rs:100-190 | A pair goes to the server a second time only after every earlier refresh from it, since it became active, was dropped or failed without replacing it |
| `SessionTokens.SentTokensWereActive` | crates/zephyrvox-http/src/client.rs:236-249 | Every token sent was the active one at some point of the load the request made for it |
| `SessionTokens.RefreshCalledForActiveToken` | crates/zephyrvox-http/src/client.rs:250-259 | A rejected request calls for a refresh only if the rejected token was the active one at some point of its comparing load |
| `SessionTokens.SentAtMostTwice` | crates/zephyrvox-http/src/client.rs:249-261 | A request is sent once with the token it first loaded, and at most once more after a 401 |
| `SecondFlights.OpensExactly` | crates/zephyrvox-http/src/client/refresh.rs:47-63 | A rejected request that calls for a refresh opens a flight exactly when every flight before it was cleared or cancelled |
| `SecondFlights.SecondFlightExactly` | crates/zephyrvox-http/src/client.rs:250-259 | "One refresh per access token" fails exactly so: over every run, two flights were opened for one rejected token exactly when a request that had found it active called after all flights before were over |
| `SecondFlights.SameTokenRefreshedTwice` | crates/zephyrvox-http/src/client.rs:249-261 | A run in which that happens, and the second flight sends the rotated pair to the server |
| `Replay.DecisionByHistory` | crates/zephyrvox-voice/src/replay.rs:14-49 | After any run of arrivals in any order, the next is accepted exactly when it is non-zero, has not arrived before and is less than 128 behind the highest arrival |
| `Replay.NeverAcceptedTwice` | crates/zephyrvox-voice/src/replay.rs:14-49 | Nothing is accepted twice, however far apart |
| `Replay.WindowTracksArrivals` | crates/zephyrvox-voice/src/replay.rs:31-49 | The window stands at the highest arrival and has accepted exactly what arrived within its span |
| `Replay.ReplayWindow.WouldAccept` | crates/zephyrvox-voice/src/replay.rs:14-28 | The bitmap test decides as the unbounded set of accepted sequences does |
| `Replay.ReplayWindow.Accept` | crates/zephyrvox-voice/src/replay.rs:31-49 | Shifting and marking two 64-bit words records exactly the accepted sequence in that set |
| `Replay.ReplayWindow.ShiftLeft` | crates/zephyrvox-voice/src/replay.rs:52-65 | The 128-bit map moves up by the shift, for every shift below 128, across the word boundary |
| `Codec.FromConfig` | crates/zephyrvox-voice/src/codec.rs:28-51 | A valid configuration makes a usable codec, failing exactly when encryption has no key; the table allows the advertised types, or all but the heartbeat type |
| `Codec.EncodeBody` | crates/zephyrvox-voice/src/codec.rs:192-238 | The two buffers filled in place, and the checks around them, give the specified datagram or error; what that is, the rows below say |
| `Codec.ClientPacketsIgnoreServerCipher` | crates/zephyrvox-voice/src/codec.rs:219-224 | Making and reading client packets does not depend on the server-to-client cipher at all |
| `Codec.ServerPacketsIgnoreClientCipher` | crates/zephyrvox-voice/src/decode.rs:144-148 | nor server packets on the client-to-server one |
| `Codec.ClientPacketsOpen` | crates/zephyrvox-voice/src/codec.rs:192-238 | Encrypted client packets open under the client-to-server cipher, at the nonce of their sequence with their header as associated data, to the plain channel header and payload |
| `Codec.ServerPacketsOpen` | crates/zephyrvox-voice/src/codec.rs:192-238 | and server packets under the server-to-client one |
| `Codec.FitsExactly` | crates/zephyrvox-voice/src/codec.rs:192-238 | A packet is made exactly if its payload is within the limit, 1158 bytes bare and 1142 sealed, and is 42 bytes longer, or 58 |
| `Codec.PlainLayout` | crates/zephyrvox-voice/src/decode.rs:101-224 | Where each field of an accepted plaintext datagram stands, byte by byte |
| `Refusals.RefusedExactly` | crates/zephyrvox-voice/src/decode.rs:101-224 | A datagram is refused exactly for the first broken rule of a list read off its bytes: header, then seal, then body, each with its own error |
| `Codec.MediaRoundTrip` | crates/zephyrvox-voice/src/codec.rs:76-85 | In both modes, encoding client media succeeds exactly on the negotiated contract, stays within 1200 bytes and decodes to the same fields |
| `Codec.ServerMediaRoundTrip` | crates/zephyrvox-voice/src/codec.rs:111-128 | The same for server media, with its speaker |
| `Codec.HeartbeatRoundTrip` | crates/zephyrvox-voice/src/codec.rs:94-103 | Heartbeats round trip for every non-zero sequence |
| `Codec.RevocationRoundTrip` | crates/zephyrvox-voice/src/codec.rs:137-150 | Revocations round trip; the reason comes back exactly when it is not `Unknown(1)` or `Unknown(2)` |
| `Codec.ReasonRoundTrip` | crates/zephyrvox-voice/src/decode.rs:21-38 | The wire byte of a reason always survives, the reason unless it aliases a named one |
| `Codec.WireFormIsCanonical` | crates/zephyrvox-voice/src/decode.rs:101-224 | Whatever is accepted, in both modes and directions, re-encodes to the identical bytes |
| `Codec.DecodeInjective` | crates/zephyrvox-voice/src/decode.rs:101-224 | Distinct accepted datagrams decode to distinct packets |
| `Codec.ReflectedMediaIsRefused` | crates/zephyrvox-voice/src/decode.rs:195-207 | Without encryption a client packet sent back is refused for its speaker, unless it is control |
| `Codec.RefusedMedia` | crates/zephyrvox-voice/src/codec.rs:168-203 | Media outside the contract is refused with the error of the first rule it breaks, sequence zero last |
| `Codec.HeaderFaultIsNamed` | crates/zephyrvox-voice/src/decode.rs:112-125 | One wrong byte before the sequence of an acceptable datagram is always found, and reported as what it is |
| `Codec.NonceInjective` | crates/zephyrvox-voice/src/crypto.rs:32-36 | Distinct sequences have distinct nonces |
| `Codec.NonceFor` | crates/zephyrvox-voice/src/crypto.rs:32-36 | The array filled in place is four zero bytes and the big-endian sequence |
| `Worker.NoncesNeverRepeat` | crates/zephyrvox-voice/src/worker.rs:256-297 | Over any run mixing media, heartbeats, failures and stops, emitted sequences strictly increase within [1, 2^64 - 2], so nonces are distinct |
| `Worker.StreamsCountFromZero` | crates/zephyrvox-voice/src/worker.rs:256-273 | The packets written on a stream carry 0, 1, 2, ... modulo 2^16: failed sends skip nothing |
| `Worker.EmissionsDecode` | crates/zephyrvox-voice/src/worker.rs:256-287 | Every emitted datagram decodes to the fields the worker meant |
| `Worker.PublishedExactly` | crates/zephyrvox-voice/src/worker.rs:317-358 | A received datagram is published exactly when it decodes as media and its sequence is fresh; one that does not decode changes nothing, the replay window included |
| `Worker.PublishedOnce` | crates/zephyrvox-voice/src/worker.rs:317-358 | No transport sequence is published twice |
| `Worker.RevocationIsFinal` | crates/zephyrvox-voice/src/worker.rs:332-335 | The first accepted revocation ends the worker with its reason; nothing is sent or published after it |
| `Worker.FinishedStaysFinished` | crates/zephyrvox-voice/src/worker.rs:137-209 | A finished worker does nothing more |
| `WorkerAnswers.OkMeansWritten` | crates/zephyrvox-voice/src/worker.rs:256-287 | A send or a heartbeat is answered with success exactly when one packet was handed over and the socket took it |
| `WorkerAnswers.SendAnswersExactly` | crates/zephyrvox-voice/src/worker.rs:256-273 | What the caller is told, from the contract, the numbers left and the write alone |
| `WorkerAnswers.SendInContract` | crates/zephyrvox-voice/src/worker.rs:212-273 | Over every run: a send within the contract hands over exactly one packet, with its stream type and payload and the count of packets written on the stream before it modulo 2^16; the worker stays active when it is written and ends when it is not |
| `WorkerAnswers.RefusedSendChangesNothing` | crates/zephyrvox-voice/src/worker.rs:236-249 | A send outside the contract is only an answer |
| `WorkerAnswers.HeartbeatGoesOut` | crates/zephyrvox-voice/src/worker.rs:181-206 | A due heartbeat is exactly one control packet, and any failure to write it ends the worker |
| `WorkerAnswers.StatusExactly` | crates/zephyrvox-voice/src/worker.rs:137-254 | Over every run, whatever comes next: whether the worker goes on, and as what it ends |
| `WorkerAnswers.StartsExactly` | crates/zephyrvox-voice/src/worker.rs:122-131 | It becomes active exactly when its first heartbeat is written |
| `WorkerTasks.VoiceWorker.RunLoop` | crates/zephyrvox-voice/src/worker.rs:110-209 | The loop over counters, map and replay window in place comes to the whole specified run |
| `WorkerTasks.VoiceWorker.SendMedia` | crates/zephyrvox-voice/src/worker.rs:256-273 | Validation, counter, reservation, encoding and write in order, and what each failure leaves behind: the object does what the rows above say |
| `WorkerTasks.VoiceWorker.ReserveTransportSequence` | crates/zephyrvox-voice/src/worker.rs:290-297 | Hands out each number once and refuses at 2^64 - 1 without wrapping |
| `WorkerTasks.VoiceWorker.HandleInbound` | crates/zephyrvox-voice/src/worker.rs:317-358 | Decoding comes before the window, and the window before publication |
| `Der.ReadTlv` | crates/zephyrvox-http/src/tls_pin.rs:181-202 | The octet-by-octet length loop in a 64-bit word computes the big-endian length without losing bits |
| `Der.ShiftDoesNotTruncate` | crates/zephyrvox-http/src/tls_pin.rs:192-195 | With at most eight octets neither the shift nor the addition overflows |
| `Der.SpkiSlice` | crates/zephyrvox-http/src/tls_pin.rs:158-179 | The walk takes only slices in bounds and returns the specified one |
| `Der.FindsSpki` | crates/zephyrvox-http/src/tls_pin.rs:158-179 | For every certificate of the reference encoder, in any length form up to eight octets, the slice is its encoded SubjectPublicKeyInfo |
| `Der.AcceptedIsEncoded` | crates/zephyrvox-http/src/tls_pin.rs:158-179 | Only certificates of that form are accepted |
| `Der.SpkiExactly` | crates/zephyrvox-http/src/tls_pin.rs:158-202 | Both together: the slice is a key exactly when the input is an encoded certificate with that key |
| `Der.ReadsEncoded` | crates/zephyrvox-http/src/tls_pin.rs:181-202 | An encoded element is read back wherever it stands |
| `Der.ReadIsEncoded` | crates/zephyrvox-http/src/tls_pin.rs:181-202 | What is read is an encoded element |
| `Commands.TableIsBoundedAndLeakFree` | crates/zephyrvox-realtime/src/connection.rs:232-306 | Under every interleaving the table stays within its limit, each entry belongs to a caller still running under that identifier, and it is empty once all have ended |
| `Commands.NoWaiterIsForgotten` | crates/zephyrvox-realtime/src/connection.rs:248-278 | Until 2^64 numbers are drawn, a running caller is in the table or has been told; its sender never disappears silently |
| `CommandOutcomes.CallIsRegisteredExactly` | crates/zephyrvox-realtime/src/connection.rs:240-262 | A command is registered exactly if the connection is live, its payload encodes and there is room; else it ends with the error of the first that fails |
| `CommandOutcomes.OutboundDecides` | crates/zephyrvox-realtime/src/connection.rs:267-273 | With an outbound channel that takes the payload it waits; with one that does not it ends closed and its entry is gone |
| `CommandOutcomes.ReplyIsReturned` | crates/zephyrvox-realtime/src/connection.rs:248-278 | A reply under its own identifier is what it returns, and its entry is gone |
| `CommandOutcomes.LossIsReturned` | crates/zephyrvox-realtime/src/engine.rs:81-92 | So is the loss of the socket |
| `CommandOutcomes.SilenceEnds` | crates/zephyrvox-realtime/src/connection.rs:274-278 | Told nothing, it times out, or ends closed if its sender is gone |
| `Commands.ToldOnceAndByItsOwn` | crates/zephyrvox-realtime/src/engine.rs:68-92 | A waiter is told at most once, and only by a reply to its own identifier or by the loss of the socket |
| `Commands.LossTellsEveryone` | crates/zephyrvox-realtime/src/engine.rs:81-92 | Losing the socket empties the table and tells everyone still waiting |
| `Commands.IdentifiersAreDistinct` | crates/zephyrvox-realtime/src/connection.rs:282-289 | Running callers have distinct identifiers until the counter wraps |
| `Commands.IdentifiersCollideExactly` | crates/zephyrvox-realtime/src/connection.rs:282-289 | Two requests have one identifier exactly when their clock readings and their numbers modulo 2^64 agree |
| `Commands.WrappedCounterForgetsWaiter` | crates/zephyrvox-realtime/src/connection.rs:250-278 | The run in which they do: after 2^64 - 1 other commands, a second one takes over the entry of one still waiting, which is then answered by nobody |
| `RequestIds.RequestIdInjective` | crates/zephyrvox-realtime/src/connection.rs:282-289 | The formatted identifier tells both the clock reading and the number |
| `RequestIds.RequestIdReads` | crates/zephyrvox-realtime/src/connection.rs:282-289 | Read back in hexadecimal, its two parts are the clock reading and the sequence, the latter in sixteen digits |
| `RequestIds.OwnIdsAreValid` | crates/zephyrvox-realtime/src/frame.rs:221-226 | Every identifier the client makes meets the grammar it demands of replies |
| `PendingTables.PendingTable.DrainPending` | crates/zephyrvox-realtime/src/engine.rs:87-91 | The loop that empties the map tells every waiter and no one else |
| `PendingTables.PendingTable.Register` | crates/zephyrvox-realtime/src/connection.rs:250-262 | Refuses at the limit, and otherwise inserts |
| `Reconnect.BoundedReconnects` | crates/zephyrvox-realtime/src/engine.rs:8-65 | With maximum m the loop ends within m + 1 turns, waits at most m times and at most m times the maximum delay in all |
| `Reconnect.PassingFailuresUseEveryAttempt` | crates/zephyrvox-realtime/src/engine.rs:8-65 | and while every attempt fails for a passing reason, exactly m + 1 sockets are tried |
| `Reconnect.GoesOnExactly` | crates/zephyrvox-realtime/src/engine.rs:8-159 | The loop goes on after a turn exactly when the policy is enabled and allows another attempt, the wait runs out, and the failure is one of the provider, the transport, the projection, a server command, not being live, a command timeout or exhausted reconnects |
| `Reconnect.NothingFollowsATerminalError` | crates/zephyrvox-realtime/src/engine.rs:26-57 | After any other error no socket is opened and nothing is waited for |
| `Reconnect.WaitsAreDelays` | crates/zephyrvox-realtime/src/engine.rs:124-142 | The k-th wait is the policy's delay of attempt k at the clock reading of its turn |
| `Reconnect.DisabledNeverRetries` | crates/zephyrvox-realtime/src/config.rs:60-69 | A disabled policy opens at most one socket and never waits |
| `Reconnect.Run` | crates/zephyrvox-realtime/src/engine.rs:8-65 | The loop over its attempt counter, with every way out, comes to the specified run |
| `Reconnect.LoopIsAccounted` | crates/zephyrvox-realtime/src/engine.rs:8-65 | Each turn that goes on has waited once; closed is published once, last; connecting first and reconnecting ever after |
| `Reconnect.DelayBounds` | crates/zephyrvox-realtime/src/config.rs:104-124 | Every delay of a valid policy is at most the maximum and at least the minimum (within 64 bits of nanoseconds), for any jitter |
| `Reconnect.DelayDoubles` | crates/zephyrvox-realtime/src/config.rs:104-124 | The delay is exactly the doubled minimum plus jitter, capped |
| `Reconnect.AcceptedPolicyDelays` | crates/zephyrvox-realtime/src/config.rs:41-58 | A policy is accepted exactly with a positive, ordered range, and then no delay is zero or above the maximum |
| `Reconnect.NeverSaturates` | crates/zephyrvox-realtime/src/config.rs:105-107 | No `Duration` makes the 128-bit arithmetic saturate |
| `Reconnect.DelaysOrderedExactly` | crates/zephyrvox-realtime/src/config.rs:104-124 | A later attempt never waits less than an earlier one, for every pair of clock readings, exactly when the jitter is at most 1 ns, or fits between their capped bases, or the later base is capped |
| `Reconnect.DefaultDelaysAreOrdered` | crates/zephyrvox-realtime/src/config.rs:72-80 | Under the default policy every attempt waits at least as long as those before it, for every pair of clock readings |
| `Reconnect.SameReadingOrdered` | crates/zephyrvox-realtime/src/config.rs:104-124 | At one clock reading delays are ordered under every policy |
| `Reconnect.JitterReorders` | crates/zephyrvox-realtime/src/config.rs:109-117 | A policy and two readings that put the later delay first |

## Left out

- HTTP endpoint accessors and request building: no state of their own.
- Requests that need no access token: sent once, nothing to prove.
- JSON decoding: an event carries what each decoder would return, and its encoded size.
- AES-GCM is a pair of functions with the laws stated in `Codec.Authentic`; HKDF, SHA-256 and base64 are not modelled.
- Sockets, timers, DNS, the provider and the credential store: their answers are inputs.
- Receivers, Refresh, Credentials, Sessions and Commands are modelled as steps on values between points where another task may run, since what is proved is about interleaving; relaxed memory orderings are not modelled.
- Receivers: how far a receiver lags is an input; completeness is claimed only without lag.
- Commands: whether the connection's status lets a command begin is an input.
- What a handler dropped by a stop leaves in its machine: the machine dies with the socket, so only the store is followed further.
- Command results inside `process_frame`: they touch only the pending table (see `Commands`) and the access lease expiry, which is not modelled.
- `check_stream_epoch`, `phase` and other accessors of the machine; the stream epoch is carried and never checked by the code modelled here.
- Voice status changes made outside the worker (`request_termination`), several workers on one session, key cache retention and the SDK's voice join: only one worker's own steps are modelled.
- Worker heartbeat timing: whether a heartbeat is due is an input.
- Der: the digest of the slice is not modelled; `crates/zephyrvox-realtime/src/tls.rs` holds the same walk.
- Logout clears without comparing, so nothing is claimed for a login racing a logout.
- Referential integrity of the projection: not kept by the code (deleting a group leaves memberships of its channels), so not claimed.
- Commands.NoWaiterIsForgotten: for fewer than 2^64 commands on one connection, after which identifiers can repeat.
- Receivers.NothingStaleIsDelivered: for fewer than 2^64 replacements of one store.
- Reconnect.BoundedReconnects: for maxima up to the largest `usize`, which is every maximum the policy can hold.
