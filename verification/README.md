# Verified model of the chat, session and observability core

A Dafny model of the parts of the repository that carry protocol, transaction
and validation logic, with proofs about every run of them. `dafny verify
dfyconfig.toml` checks the whole project.

What the source changes in place is a class whose methods are loops and
assignments, each proved equal to a function of the old state; what the source
promises is then proved about those functions, for every input, every run or
every interleaving. Concurrent parts are state machines over atomic steps.

- **Run output fan-out** (`HubEntry`, `HubProtocol`, `HubDelivery`,
  `HubErrors`, `HubBlocking`, `HubRegistry`). One source publishes under the entry lock and
  sends after releasing it; streams subscribe, replay, read and leave in
  between. Deliveries are conserved over every interleaving, and what streams
  are told about the end is told from the run's own steps. `Publish` and
  `Finish` are the locked parts; `SendEvent`, `SendDone` and `CloseChannel` are
  single channel operations that block on a full buffer.
- **Consumption and resume** (`RunOutputEvents`, `AguiConsumer`, `AguiResume`).
  The per-attachment de-duplication of output and usage, and what reconnecting
  with a cursor forwards.
- **Run lifecycle loop** (`AguiState`, `RunLifecycle`, `RunLifecycleLoop`,
  `RunLifecycleProofs`, `RunLifecycleGate`, `RunLifecycleWaiting`,
  `RunLifecycleOutput`, `RunLifecycleStreams`). The event loop over its captured
  variables; snapshot agreement, terminal gating, the documents passed on and the
  streams followed, over whole runs.
- **Sessions** (`SessionTypes`, `SessionResource`, `SessionStore`,
  `SessionRepository`, `SessionRuns`, `SessionCalls`, `SessionStatusCodec`,
  `SessionConditions`, `SessionReadiness`, `SessionLocks`, `SessionOverlaps`,
  `SessionClaimants`).
  Rows, generations and the outbox, and when each call succeeds. The generation,
  outbox, status and readiness results take transactions one at a time, because `Update` and
  `UpdateStatus` read without a lock; `SessionLocks` splits transactions into
  read, write, commit and rollback steps, and `SessionOverlaps` and
  `SessionClaimants` show what claims, releases and unlocked updates then keep.
- **Pagination** (`Keyset`, `KeysetTokens`, `PageTokens`, `MessageBodies`,
  `TurnMessages`, `ChatStore`). Keyset pages over any strict total order, walks over tables
  that change between the pages, the text of page tokens, and message bodies.
- **Runtime catalog** (`RuntimeCatalog`, `RuntimeCatalogBuilder`,
  `RuntimeCatalogOrder`, `RuntimeCatalogKeys`, `RuntimeCatalogProofs`,
  `RuntimeCatalogContents`, `RuntimeCatalogExamples`). The view users choose from and the index specs are
  checked against.
- **Chats** (`ChatSetup`, `ChatService`, `ChatLinks`, `ChatPuts`,
  `ChatEffects`, `ChatCalls`). Creating a chat with its session, setups, renames and PUT
  requests.
- **Metrics** (`MetricNames`, `MetricNameLaws`, `MetricRules`,
  `Observability`, `ObservabilityValidator`, `ObservabilityAcceptance`). The two-way metric naming and the
  contract validator against a declarative description, and what acceptance means.
- `Text` and `Decimal` hold the Go string and number helpers.

## What the proofs found

Where a property does not hold everywhere, the exact condition is proved for
all inputs, and an input that fails it is given.

- Resuming is exact if and only if no wanted event was evicted and no live
  event lies behind the cursor (`AguiResume.ResumeIsExactIff`): live deliveries
  are not filtered by the cursor. `CursorAheadRepeats` and `EvictedEventIsLost`
  fail it.
- The source of a run can get past its next send if and only if that channel
  has room or its reader is still there (`HubBlocking.PublisherCanMoveIff`). A
  reader that leaves with a full channel blocks it for ever
  (`HubBlocking.PublisherCanBlock`), at its end too, and then the entry is
  never removed (`HubRegistry.BlockedEntryStaysRegistered`).
- A stream that joins after the source has returned, while `finish` is still
  busy or later, waits for ever if and only if the entry holds no terminal
  result and no error (`HubBlocking.JoinedAfterEndIff`); behind the blocked done
  notice of such an end every later stream of the run waits
  (`HubRegistry.JoinedBlockedEntryWaits`, `NextStreamWaits`).
- While the loop goes on following one run, its terminal event comes out if and
  only if at some poll the turn is over, the run's result was received and the
  wait has passed (`RunLifecycleWaiting.FollowedRunFinishesIff`). After a stream
  that ended cleanly without a result it never does (`CleanEndWaitsForever`,
  `WithheldForever`).
- A status is announced again each time it is sent if and only if the stored
  form cannot hold it (`SessionStatusCodec.RepeatedStatusIsNoOpIff`,
  `RepeatedStatusExample`).
- A claim leaves an invalid status if and only if the status had not observed
  the current generation (`SessionReadiness.ClaimKeepsStatusValidIff`).
- With `Update` in the interleaving, slots follow the committed claims and
  releases if and only if no update commits after those committed since its
  unlocked read have moved its slot (`SessionOverlaps.SlotsFollowIff`);
  `LostClaimExample` loses a claim. A claim and its release in between cancel
  (`ClaimAndReleaseCancel`), so what counts is where they leave the slot. Two
  runs can hold unreleased claims at once (`SessionClaimants.TwoClaimants`);
  unreleased claims stay those of the runs in the slots if and only if no update
  commits over one granted to another run since its read (`ExclusiveIff`).
- The call for the next page of messages is refused if and only if the page's
  last id has a `|` or its time does not print (`TurnMessages.NextPageFailsIff`,
  `NextPageCanFail`); a chat id may have any character.
- The catalog's view and its validator agree on every spec if and only if the
  last CLI shown under each id covers the surfaces of every CLI shown under it:
  the last of its surfaces under a key has their models
  (`RuntimeCatalogProofs.CatalogAgreesIff`,
  `RuntimeCatalogExamples.CatalogCanDisagree`).
- A valid semantic name is stored under a valid name if and only if it is a
  counter or does not end in `_total` (`MetricRules.StoredNameIsValidIff`,
  `StoredNameCanFail`).

## Parameters and abstractions

Clocks, channel and entry identities are inputs. JSON and protobuf encodings of
rows are the identity. Times print and parse as RFC 3339 section 5.6 does for
four-digit years; base64 with the URL alphabet (RFC 4648 section 5) and time
text are a codec assumed only to be lawful, and `PageTokens.LawfulCodecExists`
shows that the laws can be met. So is the JSON text of messages
(`MessageBodies.FaithfulCodecExists`). The database collation is any strict total
order. SHA-256 of a resource config and the case mappings of strings are
functions that are only assumed to be functions. A service answer is either the
answer or a failure; writes to the browser fail from some point on. The second
metric table of the source is the first one read backwards, and is modelled as
such. `ProtocolName` and `SourceName` list the enum names of the two protobuf
enums the keys are built from.

## Model

| member | source | states |
|---|---|---|
| `HubEntry.RunOutputHubEntry.Subscribe` | packages/console-api/internal/chats/run_output_hub.go:129-145 | Atomically hands back the window's events that are unnumbered or numbered above the cursor, and registers the channel unless the entry has ended |
| `HubEntry.RunOutputHubEntry.Unsubscribe` | packages/console-api/internal/chats/run_output_hub.go:147-154 | Takes exactly this channel out of the subscriber set |
| `HubEntry.RunOutputHubEntry.Publish` | packages/console-api/internal/chats/run_output_hub.go:156-166 | Appends to the window, keeps the last 1024, latches the terminal flag, and enumerates the registered subscribers without repetition |
| `HubEntry.RunOutputHubEntry.Finish` | packages/console-api/internal/chats/run_output_hub.go:173-181 | Records the error unless the stream had ended in a terminal event, and takes every subscriber out |
| `HubEntry.RunOutputHubEntry.SubscriberList` | packages/console-api/internal/chats/run_output_hub.go:196-201 | Lists every registered subscriber once, in any order |
| `HubEntry.ReplayConcat` | packages/console-api/internal/chats/run_output_hub.go:132-138 | The replay of a window is the replay of its parts in order |
| `HubDelivery.StepKeepsInv` | packages/console-api/internal/chats/run_output_hub.go:121-194 | No interleaved step of publish, send, finish, close, subscribe, replay, receive, leave or unsubscribe breaks the conservation of deliveries |
| `HubDelivery.RunKeepsInv` | packages/console-api/internal/chats/run_output_hub.go:51-194 | Over every interleaving: received, queued and pending deliveries of each stream add up to the events of its span and then its done notice |
| `HubDelivery.StreamYieldsReplayThenLivePrefix` | packages/console-api/internal/chats/run_output_hub.go:51-92 | Wherever its caller stops, in the replay or after it, a stream has given an in-order prefix, nothing lost or repeated, of the filtered last 1024 events from before it subscribed followed by what was published until it left; nothing live comes before the whole replay |
| `HubDelivery.DoneMeansComplete` | packages/console-api/internal/chats/run_output_hub.go:173-186 | Whoever reads the done notice has been given its whole replay and everything published since it subscribed, and reads nothing after it |
| `HubDelivery.ChannelsAreUsedSafely` | packages/console-api/internal/chats/run_output_hub.go:168-186 | No send ever goes to a closed channel and no channel is closed twice |
| `HubErrors.DoneTellsTheError` | packages/console-api/internal/chats/run_output_hub.go:173-186 | In every run a stream that has read a done notice was told exactly what the source returned: its error, or none |
| `HubErrors.EventsCarryNoError` | packages/console-api/internal/chats/run_output_hub.go:168-170 | Whatever a stream reads before the done notice is an event the source published, without an error |
| `HubErrors.ReadsUntilDoneIff` | packages/console-api/internal/chats/run_output_hub.go:78-91 | A stream's call goes on exactly until its caller leaves it or it has read the done notice |
| `HubErrors.SubscribesIff` | packages/console-api/internal/chats/run_output_hub.go:139-145 | A stream is taken on if and only if the source has published no terminal event and not returned an error by then |
| `HubErrors.RefusalIs` | packages/console-api/internal/chats/run_output_hub.go:139-141 | A stream is refused with the error the source has returned, and with none after a terminal event or before the source has returned |
| `HubErrors.LateStreamsAreRefused` | packages/console-api/internal/chats/run_output_hub.go:173-177 | After an error without a terminal event every later stream is refused with that error, after a terminal event every later one without an error |
| `HubErrors.UnsubscribedGetsNoMore` | packages/console-api/internal/chats/run_output_hub.go:147-154 | Whatever happens after it has left, a stream is handed nothing that was not sent or due before |
| `HubBlocking.PublisherCanMoveIff` | packages/console-api/internal/chats/run_output_hub.go:168-185 | Whether it is sending an event or a done notice, the source goroutine can get past its next send if and only if that channel has room or its reader has not gone |
| `HubBlocking.BlockedForever` | packages/console-api/internal/chats/run_output_hub.go:168-185 | A send to a full channel whose reader has gone blocks the source for good, whatever else happens |
| `HubBlocking.PublisherCanBlock` | packages/console-api/internal/chats/run_output_hub.go:156-185 | Such blocked states are reachable, with an event and with the done notice |
| `HubBlocking.JoinedAfterEndIff` | packages/console-api/internal/chats/run_output_hub.go:139-144 | A stream that subscribes after the source has returned, while finish is still sending or later, stays registered and waits for ever with nothing sent to it, if and only if the entry records neither a terminal result nor an error |
| `HubBlocking.JoinedAfterCleanEnd` | packages/console-api/internal/chats/run_output_hub.go:173-194 | A clean end before anyone subscribed leaves such a state |
| `HubRegistry.RunOutputHub.Entry` | packages/console-api/internal/chats/run_output_hub.go:94-110 | Returns the registered entry of the run id, or registers the new one |
| `HubRegistry.RunOutputHub.Remove` | packages/console-api/internal/chats/run_output_hub.go:112-119 | Unregisters the run id only while it still maps to this entry |
| `HubRegistry.HubRunKeepsInv` | packages/console-api/internal/chats/run_output_hub.go:94-127 | Over every hub run an entry is registered exactly until it removes itself, which is after its source has ended |
| `HubRegistry.OneSourcePerRun` | packages/console-api/internal/chats/run_output_hub.go:94-110 | At most one source stream is running per run id, at any moment of any run |
| `HubRegistry.RemoveTakesOnlyItsOwn` | packages/console-api/internal/chats/run_output_hub.go:187-193 | However long a removal is delayed, it takes out the remover's own mapping and no newer one |
| `HubRegistry.BlockedEntryStaysRegistered` | packages/console-api/internal/chats/run_output_hub.go:182-193 | An entry whose source goroutine is blocked is never removed and keeps its run id, so every later stream of the run joins it |
| `HubRegistry.FinishedEntryCanStay` | packages/console-api/internal/chats/run_output_hub.go:182-193 | A hub run that ends there: the source has returned, its done notice cannot be sent, and the entry stays in the map |
| `HubRegistry.JoinedBlockedEntryWaits` | packages/console-api/internal/chats/run_output_hub.go:94-110 | Whatever the hub does in between and afterwards, a stream of a run whose entry is blocked on a done notice joins that entry, and waits for nothing if the source returned without a result or an error |
| `HubRegistry.NextStreamWaits` | packages/console-api/internal/chats/run_output_hub.go:94-145 | In the hub of FinishedEntryCanStay the next stream of the run is such a one |
| `HubRegistry.EveryEntryDelivers` | packages/console-api/internal/chats/run_output_hub.go:51-92 | Every stream of every entry of every hub run has given its caller a prefix of its replay followed by its span |
| `AguiConsumer.AguiRunOutputState.Apply` | packages/console-api/internal/chats/agui_output.go:26-54 | Moves the cursor, drops terminal, stale and snapshot events, writes each other document once, and fails on one that does not decode |
| `AguiConsumer.AguiUsageState.Apply` | packages/console-api/internal/chats/agui_usage.go:28-64 | Takes over a usage report only when it is newer than the last of its kind, and reports whether it did |
| `RunOutputEvents.OutputOfIff` | packages/console-api/internal/chats/agui_output.go:63-72 | An event's output is its delta's, or without a delta its result's, and its number is that of its output or zero |
| `AguiResume.RedeliveryIsIdempotent` | packages/console-api/internal/chats/agui_output.go:26-54 | Any redelivery that keeps the order of first occurrences forwards the same documents and ends with the same cursor and usage as delivering each event once |
| `AguiResume.RepeatChangesNothing` | packages/console-api/internal/chats/agui_usage.go:28-64 | Delivering an event again changes neither the forwarded documents, nor the cursor, nor the usage |
| `AguiResume.UsageIsLatest` | packages/console-api/internal/chats/agui_usage.go:28-64 | With increasing numbers on the usage reports, the usage shown takes model and context from the last call report, counters from the last turn report, and tokens from the last of either |
| `AguiResume.ConsumeWellNumbered` | packages/console-api/internal/chats/agui_output.go:26-54 | A fresh consumer forwards exactly the numbered documents of a well-numbered stream, up to the first that does not decode |
| `AguiResume.ResumeIsExact` | packages/console-api/internal/chats/run_output_hub.go:129-145 | Reconnecting with a cursor forwards every wanted document behind it once and in order, if none was evicted and nothing live lies behind the cursor |
| `AguiResume.ResumeIsExactIff` | packages/console-api/internal/chats/run_output_hub.go:129-145 | That condition is also necessary when every document decodes |
| `AguiResume.ReachedCursorCanResume` | packages/console-api/internal/chats/run_output_hub.go:158-161 | A cursor the hub has reached meets the condition unless the window has overflowed past it |
| `AguiResume.HubResumeIsExact` | packages/console-api/internal/chats/run_output_hub.go:51-92 | The same for a real stream at any point of any interleaving of the hub: exact once the replay has been given, a first part of what is expected before |
| `AguiResume.CursorAheadRepeats` | packages/console-api/internal/chats/run_output_hub.go:129-145 | A cursor ahead of the hub fails the condition: event 1 is forwarded again after cursor 1 |
| `AguiResume.EvictedEventIsLost` | packages/console-api/internal/chats/run_output_hub.go:158-161 | So does a history one longer than the window: a new reader never gets event 1 |
| `AguiState.TerminalEventIff` | packages/console-api/internal/chats/agui.go:693-741 | There is a terminal event exactly when the action (or, while it has no phase, the run) is over, and it is an error exactly when that phase failed |
| `AguiState.FinishedRunIsFollowed` | packages/console-api/internal/chats/agui.go:750-766 | A finished event names the run the loop follows when the action names one |
| `RunLifecycleLoop.OutputFollower.Detach` | packages/console-api/internal/chats/agui.go:230-242 | Forgets the followed stream, its usage and the held terminal event, keeping the resume position only for the run to follow next |
| `RunLifecycleLoop.OutputFollower.SwitchOutputRun` | packages/console-api/internal/chats/agui.go:223-249 | Follows the named run: unchanged if already followed, detached without a stream or run, else from the resume cursor or from zero |
| `RunLifecycleLoop.OutputFollower.Fail` | packages/console-api/internal/chats/agui.go:276-291 | Leaves a failed stream, remembers where to resume it, and hands back the terminal event that waited for it |
| `RunLifecycleLoop.OutputFollower.Hold` | packages/console-api/internal/chats/agui.go:351-370 | Holds a terminal event while the attached stream has not delivered its result or 1.5 seconds have not passed since it first waited |
| `RunLifecycleLoop.OutputFollower.HoldAtStart` | packages/console-api/internal/chats/agui.go:262-269 | At the start a terminal event waits for an attached stream |
| `RunLifecycleLoop.Lifecycle.MaybeEmitProjection` | packages/console-api/internal/chats/agui.go:196-210 | Writes a state snapshot only when it differs from the last one |
| `RunLifecycleLoop.Lifecycle.MaybeEmitActivity` | packages/console-api/internal/chats/agui.go:211-222 | Writes an activity snapshot only when there is one and it differs from the last one |
| `RunLifecycleLoop.Lifecycle.OnStart` | packages/console-api/internal/chats/agui.go:255-269 | Snapshots, attachment, and a terminal event held or written, before the first input |
| `RunLifecycleLoop.Lifecycle.OnUpdate` | packages/console-api/internal/chats/agui.go:273-313 | One output event: forwarded, counted, and a new snapshot if the usage moved; events of other runs are ignored |
| `RunLifecycleLoop.Lifecycle.OnStreamError` | packages/console-api/internal/chats/agui.go:276-291 | A failed stream lets a held terminal event out |
| `RunLifecycleLoop.Lifecycle.OnPoll` | packages/console-api/internal/chats/agui.go:322-370 | One poll: refreshed states, the stream of the run they name, changed snapshots, and the terminal event unless it has to wait |
| `RunLifecycleLoop.Lifecycle.Stream` | packages/console-api/internal/chats/agui.go:271-371 | The whole loop computes the run of its inputs and stops at the first that ends it |
| `RunLifecycleProofs.SnapshotsAgreeAtEveryHead` | packages/console-api/internal/chats/agui.go:195-222 | Whenever the loop waits, the last state snapshot equals the projection of the current session and usage, the last activity equals the current one if it has an id, and no snapshot repeats the one before |
| `RunLifecycleProofs.TerminalIsLast` | packages/console-api/internal/chats/agui.go:263-371 | A run writes at most one terminal event, exactly when it finishes, and nothing after it |
| `RunLifecycleGate.TerminalIsGated` | packages/console-api/internal/chats/agui.go:271-371 | The terminal event is only written with no stream attached, or on the attached stream's failure, or after a terminal result of the attached run was received and the wait has passed since the event was first held |
| `RunLifecycleGate.PollFinishesIff` | packages/console-api/internal/chats/agui.go:345-370 | While the browser accepts writes, a poll ends the run exactly when the deciding phase is over and the terminal event is due, and then writes that event last |
| `RunLifecycleGate.StreamFailureFinishesIff` | packages/console-api/internal/chats/agui.go:276-291 | A failed stream ends the run exactly when a terminal event was waiting, and is remembered at its last sequence otherwise |
| `RunLifecycleGate.ObservedWasSeen` | packages/console-api/internal/chats/agui.go:306-312 | A run counts as observed only if a terminal result of it was received since it was attached |
| `RunLifecycleGate.PendingWasHeld` | packages/console-api/internal/chats/agui.go:352-357 | A held terminal event has been held ever since the time recorded for it |
| `RunLifecycleWaiting.FollowedRunFinishesIff` | packages/console-api/internal/chats/agui.go:271-371 | From any live point of a run, over polls, heartbeats and readable output that leave it following the same run: the terminal event comes out if and only if at some poll the turn is over, the terminal result has been received before, and the event has been held for the whole wait |
| `RunLifecycleWaiting.CleanEndWaitsForever` | packages/console-api/internal/chats/agui_output.go:98-100 | After a stream that ended cleanly without a terminal result, no polls naming the same run, answered or failing, let the terminal event out |
| `RunLifecycleWaiting.WithheldForever` | packages/console-api/internal/chats/agui.go:262-269 | A run whose turn is over from the start and whose terminal event is still held back after any polls |
| `RunLifecycleOutput.DocumentsArePassedOn` | packages/console-api/internal/chats/agui.go:297-300 | From any live point of a run that follows the run it names, with an open browser, over any input that leaves it there: the payloads written are those of the run's new documents but for message snapshots, each once and in order, up to the first that does not decode or the poll at which the terminal event is due, and exactly these end the loop |
| `RunLifecycleOutput.LatestUsageIsShown` | packages/console-api/internal/chats/agui.go:301-306 | From a freshly attached stream on, with increasing numbers on its usage reports, the state last shown has the model and context of the last call report, the counters of the last turn report, and the tokens of the last of either |
| `RunLifecycleOutput.LoopConsumes` | packages/console-api/internal/chats/agui.go:297-306 | What the loop has counted and where its cursor stands is what a consumer of the run's events has, so the resume and redelivery results hold for the loop |
| `RunLifecycleOutput.HeartbeatsAreWritten` | packages/console-api/internal/chats/agui.go:316-320 | As long as the loop runs every heartbeat has been written out once |
| `RunLifecycleStreams.PolledRunIsFollowed` | packages/console-api/internal/chats/agui.go:321-341 | After a poll the loop follows the stream of the run the poll names, newly started if it followed another or none, and none if that run was not found; a poll that could not read what it needs ends the loop |
| `RunLifecycleStreams.FailedStreamResumes` | packages/console-api/internal/chats/agui.go:232-247 | Whatever comes in until the next poll, a failed stream of the named run is started again behind the last document it delivered, and the stream of another run from its beginning |
| `RunLifecycleStreams.StartFinishesIff` | packages/console-api/internal/chats/agui.go:255-269 | The run is over at its start if and only if its turn is and there is no stream to wait for; otherwise the stream is followed from its beginning and a terminal event held |
| `RunLifecycleStreams.CancelInterrupts` | packages/console-api/internal/chats/agui.go:313-315 | Cancellation ends the loop at once, with nothing more written, whatever comes after it |
| `RunLifecycleStreams.PolledStateIsShown` | packages/console-api/internal/chats/agui.go:195-222 | At every loop head the state and the turn last shown carry the polled session's and turn's members one by one |
| `RunLifecycleStreams.ActionEventSays` | packages/console-api/internal/chats/agui.go:693-727 | A terminal event the action decides carries the action's members, and the run's failure code when the action has no failure class |
| `RunLifecycleStreams.RunEventSays` | packages/console-api/internal/chats/agui.go:728-741 | While the action has no phase a terminal event carries the run's members |
| `RunLifecycleStreams.TerminalMessageIs` | packages/console-api/internal/chats/agui.go:693-741 | A terminal event's message is the action's, or else the run's own, or its failure's, or else the text for its phase |
| `SessionRepository.PostgresRepository.GetResource` | packages/session/postgres_store.go:75-103 | The row of the id with a missing name and namespace filled in |
| `SessionRepository.PostgresRepository.EnqueueSessionEvent` | packages/session/postgres_events.go:22-57 | Appends one event under the state's trimmed session id and generation, or fails on a blank id |
| `SessionRepository.PostgresRepository.Create` | packages/session/postgres_repository.go:80-125 | A new row of generation 1 and its created event, or no change at all: missing or mismatched ids are invalid, an existing id already exists |
| `SessionRepository.PostgresRepository.Update` | packages/session/postgres_repository.go:127-191 | A changed spec moves the generation by one and is announced; an equal spec changes nothing; any error leaves both tables as they were |
| `SessionRepository.PostgresRepository.UpdateStatus` | packages/session/postgres_status.go:16-77 | A different status for the current generation replaces the whole status and is announced; an equal one changes nothing |
| `SessionRepository.PostgresRepository.ClaimActiveRun` | packages/session/postgres_active_run.go:17-80 | Takes a free slot of a ready session, repeats a claim without change, and refuses any other run |
| `SessionRepository.PostgresRepository.ReleaseActiveRun` | packages/session/postgres_active_run.go:82-124 | Empties the slot for the run that holds it and says so; otherwise changes nothing |
| `SessionRepository.PostgresRepository.ResourceStatusFromProto` | packages/session/postgres_status.go:79-103 | The stored form of a status |
| `SessionRepository.PostgresRepository.GetSession` | packages/session/postgres_repository.go:68-78 | The stored session as a state, with the errors for a blank and for an unknown id |
| `SessionRepository.SetResourceCondition` | packages/session/postgres_active_run.go:162-182 | Replaces the first condition of the type unless it already says the same, or appends one |
| `SessionRepository.ActiveRunDispatchReady` | packages/session/postgres_active_run.go:148-160 | Ready exactly when some workspace condition and some warm-state condition are true |
| `SessionResource.ConditionsToResource` | packages/session/postgres_conditions.go:41-63 | Every condition in order, nil entries dropped |
| `SessionResource.ConditionsFromResource` | packages/session/postgres_conditions.go:20-39 | Every stored condition in order |
| `SessionResource.StatusRoundTrip` | packages/session/postgres_resource.go:78-113 | A status reads back as written exactly when its enum values have names, no condition is nil, its run id is trimmed and non-empty and its times print as RFC 3339 |
| `SessionResource.ConditionsRoundTrip` | packages/session/postgres_conditions.go:20-63 | A condition list reads back as written exactly when each condition can be stored |
| `SessionResource.PhaseRoundTrip` | packages/session/postgres_resource.go:134-162 | A phase reads back exactly when it has a name |
| `SessionRuns.CallKeepsInv` | packages/session/postgres_repository.go:80-190 | Every call keeps rows well formed and the outbox in step with them |
| `SessionRuns.OutboxMatchesRows` | packages/session/postgres_repository.go:80-190 | After any calls: row, payload and resource version agree on the generation, created and updated events carry versions 1 up to it in order, and the latest event holds what Get returns |
| `SessionRuns.EventsHaveRows` | packages/session/postgres_events.go:22-57 | No event is for a session that does not exist |
| `SessionRuns.EventIffChanged` | packages/session/postgres_repository.go:150-155 | A call appends at most one event, only when it succeeds, and any call but a status update appends one only when it changes a row |
| `SessionCalls.CreateSucceedsIff` | packages/session/postgres_repository.go:80-125 | A session is created if and only if one is given, its trimmed id is not empty and the id has no row; it then reads as given, refs filled in, with generation 1 and an empty status, and is announced, every other row as before; otherwise nothing changes and the code tells which condition failed |
| `SessionCalls.UpdateSucceedsIff` | packages/session/postgres_repository.go:127-191 | An update succeeds if and only if it names a stored session and no other; an equal spec changes nothing, any other reads back as given with the next generation and the same status, and is announced |
| `SessionCalls.UpdateStatusSucceedsIff` | packages/session/postgres_status.go:16-77 | A status is accepted if and only if it names a stored session and no other and observed its generation or none; one that can be stored reads back as given and is announced unless it was there |
| `SessionCalls.ClaimAcceptedIff` | packages/session/postgres_active_run.go:17-60 | A claim succeeds if and only if it names a run and a stored session whose slot that run holds, or whose slot is empty with both readiness conditions true; otherwise nothing changes and the code tells why |
| `SessionCalls.ClaimReadsBack` | packages/session/postgres_active_run.go:53-80 | A claim that takes the slot reads back as running, with that run active, the claim's time and message, and the one condition set; a repeated one changes nothing |
| `SessionCalls.ReleaseAnswers` | packages/session/postgres_active_run.go:82-124 | A release never fails: for the run in the slot the session reads back as pending, with no active run and its conditions as they were, and for any other nothing changes |
| `SessionCalls.GetIff` | packages/session/postgres_repository.go:68-78 | A session reads if and only if its trimmed id has a row; a blank and an unknown id are told apart |
| `SessionCalls.GetKeeps` | packages/session/postgres_repository.go:68-78 | A call that writes one session's row leaves what every other session reads as |
| `SessionCalls.RunKeepsRowsOk` | packages/session/postgres_repository.go:80-190 | After any calls from the empty tables every row is such that the results above apply |
| `SessionStatusCodec.StatusIsReadBackIff` | packages/session/postgres_status.go:36-76 | Get returns an accepted status, as cloned with empty messages for nil conditions, exactly when the stored form can hold it |
| `SessionStatusCodec.RepeatedStatusIsNoOpIff` | packages/session/postgres_status.go:47-53 | Sending an accepted status again changes and announces nothing exactly when the stored form can hold it |
| `SessionStatusCodec.RepeatedStatusExample` | packages/session/postgres_status.go:47-53 | A status with an empty active run is accepted and changes the store each time it is sent |
| `SessionStatusCodec.ReturnedStatusIsNoOpIff` | packages/session/status.go:26-28 | Sending back the returned status changes nothing exactly when the written update time prints as RFC 3339 |
| `SessionStatusCodec.AcceptedIff` | packages/session/postgres_status.go:28-42 | A status is accepted exactly when it names an existing session and observed its generation or none |
| `SessionConditions.ValidateAgentSessionCondition` | packages/platform-contract/session_conditions.go:84-110 | Accepts exactly known types with one of their reasons, a specified status and a non-negative generation |
| `SessionConditions.ValidateAgentSessionStatus` | packages/platform-contract/session_conditions.go:114-150 | Accepts exactly statuses whose header is set, whose conditions are valid and not ahead of the status, and whose condition types are unique |
| `SessionConditions.ValidStatusMeans` | packages/platform-contract/session_conditions.go:84-150 | A valid status has at most five conditions, each of a type of its own, decided, and observed no later than the status |
| `SessionReadiness.ClaimSucceedsIff` | packages/session/postgres_active_run.go:48-60 | A claim succeeds exactly when the run holds the slot, or the slot is free and the session ready |
| `SessionReadiness.ReleaseFrees` | packages/session/postgres_active_run.go:108-124 | A release empties the slot for the run in it and does nothing for any other |
| `SessionReadiness.CallKeepsReadiness` | packages/session/postgres_active_run.go:37-78 | No call but a status update of the session changes its readiness |
| `SessionReadiness.ClaimAfterRelease` | packages/session/postgres_active_run.go:37-124 | After a claim and any calls that set no status of the session, a release frees the slot unless the run was released before, and once freed the next claim succeeds exactly when the session was ready before the first claim; a claim of a free slot shows that it was |
| `SessionReadiness.CallKeepsHeldSlot` | packages/session/postgres_active_run.go:37-124 | Spec updates, repeated and rejected claims and releases by other runs leave a held slot alone |
| `SessionReadiness.ClaimKeepsStatusValidIff` | packages/session/postgres_active_run.go:61-75 | A claim keeps a valid status valid exactly when the status had observed the current generation; condition types stay unique |
| `SessionReadiness.ValidReadySession` | packages/session/postgres_active_run.go:37-60 | Ready sessions with a valid, current status exist, so a claim can come out either way |
| `SessionReadiness.ClaimTakesSlot` | packages/session/postgres_active_run.go:61-78 | What a claim leaves in the status: run, phase, message, time and the condition, everything else as it was |
| `SessionReadiness.ClaimAfterUpdateInvalidatesStatus` | packages/session/postgres_active_run.go:61-75 | A spec change between the last status and a claim leaves an invalid status |
| `SessionLocks.LockedCommitIsAtomic` | packages/session/postgres_store.go:71-103 | A claim or release commits exactly what the call would do alone at the moment of its commit, because its row is read under the lock |
| `SessionLocks.ClaimsAreSerializable` | packages/session/postgres_store.go:55-103 | Any interleaving of claims and releases leaves the rows and outbox of the committed calls run one at a time in commit order |
| `SessionOverlaps.SlotsFollowIff` | packages/session/postgres_repository.go:147-171 | Over any interleaving of claims, releases and updates, every slot always holds the run the committed claims and releases left there if and only if no update commits after those committed since its read have moved the slot |
| `SessionOverlaps.ClaimsStayExclusive` | packages/session/postgres_active_run.go:17-124 | In such a run every unreleased claim is the one in the slot, so no two runs hold a session |
| `SessionOverlaps.SlotChangesOnlyByItsRun` | packages/session/postgres_active_run.go:42-63 | In such a run each step leaves a committed slot alone or moves it from empty to the run whose claim commits, or to empty from the run whose release commits |
| `SessionOverlaps.QuietUpdateIsNotOvertaken` | packages/session/postgres_repository.go:147-171 | An update is not in the way while no claim or release of its session has succeeded since its read |
| `SessionOverlaps.AtMostOneClaimant` | packages/session/postgres_active_run.go:17-124 | Interleavings of claims and releases alone always keep the slots and never let two runs hold unreleased claims on one session |
| `SessionOverlaps.UpdateCanLoseClaim` | packages/session/postgres_repository.go:147-171 | An update that read before a claim and writes after it loses the claim |
| `SessionOverlaps.LostClaimExample` | packages/session/postgres_repository.go:147-171 | A concrete session on which that happens |
| `SessionClaimants.ExclusiveIff` | packages/session/postgres_repository.go:147-171 | Over any interleaving of claims, releases and updates, unreleased claims are always those of the runs in the slots if and only if no update commits over an unreleased claim that another run was granted after the update's read |
| `SessionClaimants.TwoClaimants` | packages/session/postgres_repository.go:147-171 | A run in which two runs hold unreleased claims on one session |
| `Keyset.SortSorts` | packages/session/postgres_turn_messages.go:66 | The order lists every key once, ascending |
| `Keyset.PageSpans` | packages/session/postgres_turn_messages.go:60-87 | A page holds the keys between its cursor and the next one, in order; the next cursor is its last key |
| `Keyset.CursorIncreases` | packages/session/postgres_turn_messages.go:65 | Every cursor is strictly after the one before |
| `Keyset.UntouchedListedOnce` | packages/session/postgres_turn_messages.go:60-87 | A finished walk lists every key that stayed in the table exactly once and in order, whatever happened to other keys between the pages |
| `Keyset.UnchangedWalkIsSorted` | packages/session/postgres_turn_messages.go:60-87 | Over an unchanged table any page sizes give the sorted list, in at most one page more than it has keys |
| `KeysetTokens.TokensFollowKeys` | packages/session/postgres_turn_messages.go:55-87 | A walk by tokens is the walk by keys when every key's token parses back |
| `KeysetTokens.UntouchedRowListedOnce` | packages/session/postgres_turn_messages.go:55-87 | A row no one touched between the pages is listed exactly once |
| `KeysetTokens.QueryGivesPage` | packages/session/postgres_turn_messages.go:69-87 | Asking for one row more than the page holds tells whether there is a next page |
| `KeysetTokens.WalkedRowsInOrder` | packages/session/postgres_turn_messages.go:60-87 | Whatever happens to the table between its pages, a walk lists its rows in key order, as they were when their page was read |
| `KeysetTokens.ListedPage` | packages/session/postgres_turn_messages.go:55-87 | A page has the table's rows after the cursor in key order, and leaves out none before its last one |
| `TurnMessages.UpsertKeepsTable` | packages/session/postgres_turn_messages.go:26-47 | Upserts store trimmed keys, keep creation times and touch only the row they name |
| `TurnMessages.UpsertStores` | packages/session/postgres_turn_messages.go:26-47 | An upsert is accepted if and only if it names a session, its sequence is not negative and its body is a valid message; the row it names then holds what was given, and every other row stays |
| `TurnMessages.UpsertIsListed` | packages/session/postgres_turn_messages.go:26-87 | After an accepted upsert, walking the session shows its message once, with the normalized text of its body and the creation time it first had, and every other message as before, once each, and nothing else |
| `TurnMessages.SendingBackChangesNothing` | packages/session/postgres_turn_messages.go:26-47 | After any upserts, sending a stored message back changes nothing, whatever creation time comes with it |
| `MessageBodies.BodyOfMessage` | packages/session/turn_message.go:51-62 | A body is accepted exactly when it reads as a valid message; printing it again never fails, and its id is trimmed and not empty |
| `MessageBodies.StoredTextIsStable` | packages/go-contract/agui/messages.go:13-42 | A stored text normalizes to itself, with the same id |
| `TurnMessages.TokenRoundTripIff` | packages/session/postgres_turn_messages.go:117-144 | A message's page token parses back exactly when its id has no '&#124;' and its time has a four-digit year; otherwise it is refused |
| `TurnMessages.ListTurnMessages` | packages/session/postgres_turn_messages.go:49-87 | The page after the token's cursor with the token of its last message, or the error for a blank session or a bad token |
| `TurnMessages.UntouchedMessageListedOnce` | packages/session/postgres_turn_messages.go:49-87 | With ids free of '&#124;' a walk never fails, and a message left untouched is listed exactly once |
| `TurnMessages.MessagesInOrder` | packages/session/postgres_turn_messages.go:60-87 | Without writes in between a walk ends and lists the messages by time, sequence and id |
| `TurnMessages.PageIsOldestFirst` | packages/session/postgres_turn_messages.go:49-87 | In every page the messages are stored ones of the session after the cursor, by creation time, sequence and id ascending, none left out before the last; at most 200, or 500 if asked for; a blank session is refused |
| `TurnMessages.WalkIsOldestFirst` | packages/session/postgres_turn_messages.go:60-87 | So are they across the pages of a walk, whatever is written in between |
| `TurnMessages.WalkListsRows` | packages/session/postgres_turn_messages.go:60-87 | A finished walk of an unchanged table lists every message of the session once, oldest first, and nothing else |
| `TurnMessages.NextPageFailsIff` | packages/session/postgres_turn_messages.go:127-130 | The call after a page succeeds exactly when the page's last id has no '&#124;' and its time prints |
| `TurnMessages.NextPageCanFail` | packages/session/postgres_turn_messages.go:127-130 | A session of two messages whose first page is followed by a call that is refused |
| `ChatStore.PostgresChatStore.Create` | packages/console-api/internal/chats/postgres_chat_store.go:52-74 | Stores a normalized chat under a new id, or reports that it exists |
| `ChatStore.PostgresChatStore.Get` | packages/console-api/internal/chats/postgres_chat_store.go:76-93 | The stored chat, with the errors for a blank and for an unknown id |
| `ChatStore.PostgresChatStore.Update` | packages/console-api/internal/chats/postgres_chat_store.go:95-123 | Replaces a stored chat and keeps its creation time |
| `ChatStore.StoringKeepsChats` | packages/console-api/internal/chats/postgres_chat_store.go:199-212 | Stored chats have trimmed, non-empty ids, scopes and session ids, and creation times never move |
| `ChatStore.TokenRoundTripIff` | packages/console-api/internal/chats/postgres_chat_store.go:224-246 | A chat's page token parses back whatever characters its id has, exactly when its time has a four-digit year |
| `ChatStore.ListChats` | packages/console-api/internal/chats/postgres_chat_store.go:125-179 | The scope's chats after the token's cursor, newest first, with the token of the last one |
| `ChatStore.UntouchedChatListedOnce` | packages/console-api/internal/chats/postgres_chat_store.go:125-179 | A chat nobody touched between the pages is listed exactly once |
| `ChatStore.ChatsInOrder` | packages/console-api/internal/chats/postgres_chat_store.go:132-139 | Without writes in between a walk ends and lists the scope's chats by update time and id, descending |
| `ChatStore.PageIsNewestFirst` | packages/console-api/internal/chats/postgres_chat_store.go:125-179 | In every page the chats are stored ones of the scope after the cursor, by update time and then id descending, none left out that is newer than the last; at most 20, or 100 if asked for, and full when there is a next page |
| `ChatStore.WalkIsNewestFirst` | packages/console-api/internal/chats/postgres_chat_store.go:132-139 | So are they across the pages of a walk, whatever is written in between |
| `ChatStore.ChatsNewestFirst` | packages/console-api/internal/chats/postgres_chat_store.go:132-139 | A finished walk of an unchanged table lists every chat of the scope once, newest first, and nothing else |
| `PageTokens.SplitThree` | packages/session/postgres_turn_messages.go:127 | Splitting text joined by a separator gives back the parts in front of it |
| `RuntimeCatalogBuilder.RuntimeSurfaceModels` | packages/console-api/internal/chats/session_runtime_options_catalog.go:190-208 | The named models of a surface, each once, in order |
| `RuntimeCatalogBuilder.RuntimeAvailableExecutionClasses` | packages/console-api/internal/chats/session_runtime_options_catalog.go:104-118 | A class is available for a CLI exactly when some image with text names both |
| `RuntimeCatalogBuilder.RuntimeExecutionClasses` | packages/console-api/internal/chats/session_runtime_options_catalog.go:120-144 | The definition's available classes, each once, in order |
| `RuntimeCatalogBuilder.RuntimeProviderSurfaces` | packages/console-api/internal/chats/session_runtime_options_catalog.go:63-102 | A CLI's surface options in display order, and the index of their models by key |
| `RuntimeCatalogBuilder.BuildRuntimeCatalog` | packages/console-api/internal/chats/session_runtime_options_catalog.go:15-61 | The view and the index built from one pass over the CLIs in label order |
| `RuntimeCatalogBuilder.ValidateInlineSpec` | packages/console-api/internal/chats/session_runtime_options_validation.go:13-40 | Accepts exactly the specs whose provider, class and every candidate's surface and model are in the index |
| `RuntimeCatalogBuilder.ValidateRuntimeSurface` | packages/console-api/internal/chats/session_runtime_options_validation.go:42-52 | Accepts exactly an indexed key with an indexed model |
| `RuntimeCatalogKeys.KeyIdentifies` | packages/console-api/internal/chats/session_runtime_options_catalog.go:234-251 | The NUL-joined key of a shown reference is matched only by that reference, whatever is looked up, when its own ids hold no NUL |
| `RuntimeCatalogKeys.KeysCollideWithNul` | packages/console-api/internal/chats/session_runtime_options_catalog.go:234-251 | With NUL in an id two different references share a key |
| `RuntimeCatalogProofs.ModelsAreTheNamedOnes` | packages/console-api/internal/chats/session_runtime_options_catalog.go:190-208 | A surface offers exactly the model ids it names, each once |
| `RuntimeCatalogProofs.ClassesAreTheAvailableOnes` | packages/console-api/internal/chats/session_runtime_options_catalog.go:120-144 | A CLI offers exactly the classes its definition lists and an image provides, each once |
| `RuntimeCatalogProofs.LastDefinitionCounts` | packages/console-api/internal/chats/session_runtime_options_catalog.go:21-27 | The definition used for a CLI id is the last one given for it |
| `RuntimeCatalogProofs.SurfacesAgreeIff` | packages/console-api/internal/chats/session_runtime_options_catalog.go:63-102 | For one CLI: every reference and model is accepted exactly when a shown surface offers it, if and only if every offered surface has its models in the last one offered under its key |
| `RuntimeCatalogProofs.AgreeingRefsAreCovered` | packages/console-api/internal/chats/session_runtime_options_catalog.go:90-95 | Which is so when surfaces with one reference have the same models |
| `RuntimeCatalogExamples.LastSurfaceWins` | packages/console-api/internal/chats/session_runtime_options_catalog.go:90-95 | With two surfaces of one reference the first one's extra models are shown but refused |
| `RuntimeCatalogProofs.CatalogAgreesWithView` | packages/console-api/internal/chats/session_runtime_options_validation.go:13-52 | A spec is accepted exactly when one item of the view offers its class and every candidate's surface and model, given ids without NUL and that the last CLI shown under each id covers the surfaces of every CLI shown under it |
| `RuntimeCatalogProofs.CatalogAgreesIff` | packages/console-api/internal/chats/session_runtime_options_validation.go:13-52 | Whatever CLIs there are, repeated ids included: view and validator agree on every spec if and only if the last CLI shown under each id covers every CLI shown under it |
| `RuntimeCatalogProofs.UniqueCLIsCoveredIff` | packages/console-api/internal/chats/session_runtime_options_catalog.go:35-54 | With one CLI per id that means that each shown CLI covers itself |
| `RuntimeCatalogExamples.CatalogCanDisagree` | packages/console-api/internal/chats/session_runtime_options_catalog.go:90-95 | A catalog with a spec that its view offers and its validator refuses |
| `RuntimeCatalogContents.ViewShowsSources` | packages/console-api/internal/chats/session_runtime_options_catalog.go:63-102 | The view shows a CLI if and only if it has an id, an available class and a surface; with its available classes and exactly the surfaces with ids and a named model whose CLI runtime names it, or that name no CLI and whose protocol it speaks |
| `RuntimeCatalogContents.ModelsByName` | packages/console-api/internal/chats/session_runtime_options_catalog.go:190-208 | The models shown with a surface are the ids its models go by, the provider's own before the referred one |
| `RuntimeCatalogContents.AcceptedCanRun` | packages/console-api/internal/chats/session_runtime_options_validation.go:13-52 | With ids free of NUL, for every accepted spec some CLI of its provider id has its class and serves, for the primary and every fallback, a surface with the reference and model asked for |
| `RuntimeCatalogContents.AcceptsIffCanRun` | packages/console-api/internal/chats/session_runtime_options_validation.go:13-52 | When the last CLI of each id covers the others, that is also enough |
| `RuntimeCatalogOrder.ViewIsOrdered` | packages/console-api/internal/chats/session_runtime_options_catalog.go:96-101 | Providers are shown by label, those with one label in the order given, and the surfaces of each by label and then key; texts compare by their first difference |
| `RuntimeCatalog.SortKeepsElements` | packages/console-api/internal/chats/session_runtime_options_catalog.go:31-33 | Sorting neither adds nor drops an entry |
| `ChatService.GRPCChatServer.CreateChat` | packages/console-api/internal/chats/grpc_chat_state.go:18-60 | A chat with a session of its own, or an error that leaves both tables as they were |
| `ChatService.GRPCChatServer.GetChat` | packages/console-api/internal/chats/grpc_chat_state.go:62-80 | The chat with its session, with the errors of either |
| `ChatService.GRPCChatServer.UpdateChatSessionSetup` | packages/console-api/internal/chats/grpc_chat_state.go:82-118 | Writes the session only when its normalized spec changes |
| `ChatService.GRPCChatServer.RenameChat` | packages/console-api/internal/chats/grpc_chat_state.go:120-146 | Stores the new name; a session that cannot be read then is an error that keeps the rename |
| `ChatService.GRPCChatServer.UpsertChat` | packages/console-api/internal/chats/chat_setup.go:35-55 | Dispatches a PUT by mode on the chat it finds, or none |
| `ChatService.GRPCChatServer.UpsertProfileChat` | packages/console-api/internal/chats/chat_setup.go:57-91 | Creates a profile chat or confirms an equal one |
| `ChatService.GRPCChatServer.UpsertInlineChat` | packages/console-api/internal/chats/chat_setup.go:93-144 | Creates an inline chat or merges the request into its session, when the options allow the result |
| `ChatLinks.CallIsLinkStep` | packages/console-api/internal/chats/grpc_chat_state.go:18-146 | Every call leaves the chat-to-session mapping as it is, or adds one new chat with one new session |
| `ChatLinks.RunKeepsWorld` | packages/console-api/internal/chats/grpc_chat_state.go:18-146 | Over any calls the mapping stays one to one and a chat keeps its session for good |
| `ChatLinks.ChatsAndSessionsCorrespond` | packages/console-api/internal/chats/grpc_chat_state.go:18-146 | From the empty tables: every chat's session exists, distinct chats have distinct sessions, and no session is orphaned |
| `ChatPuts.NormalizeIsIdempotent` | packages/session/spec.go:15-35 | Normalizing gives a spec with id and refs, and leaves such a spec as it is |
| `ChatPuts.ResourcesNormalizeOnce` | packages/session/spec.go:94-118 | The snapshot id is computed from everything but itself, so normalizing twice is normalizing once |
| `ChatPuts.MergeIsIdempotent` | packages/console-api/internal/chats/chat_setup.go:191-228 | Merging a request into its own result gives that result |
| `ChatPuts.CreationReadsBack` | packages/console-api/internal/chats/grpc_chat_state.go:30-60 | A created chat reads back as it was answered |
| `ChatPuts.SetupReadsBack` | packages/console-api/internal/chats/grpc_chat_state.go:88-118 | A setup reads back as it was answered, and an equal one writes nothing |
| `ChatEffects.InlinePutTakesEffect` | packages/console-api/internal/chats/chat_setup.go:191-228 | An accepted PUT on an existing inline chat puts the configs it carries into effect, keeps those it leaves out and the prepare jobs, and leaves the chat itself alone |
| `ChatEffects.CreationStores` | packages/console-api/internal/chats/grpc_chat_state.go:45-58 | A new chat has the name and scope asked for, trimmed, and the default scope if none was |
| `ChatEffects.RenameStores` | packages/console-api/internal/chats/grpc_chat_state.go:132-140 | A rename changes the name and update times of its chat and nothing else |
| `ChatCalls.GetChatIff` | packages/console-api/internal/chats/grpc_chat_state.go:62-80 | A chat is answered with its session if and only if both are stored |
| `ChatCalls.CreateChatSucceedsIff` | packages/console-api/internal/chats/grpc_chat_state.go:18-60 | A chat is created with its session if and only if its trimmed id is not empty and free, a session is given, and the session's id is free; both are then stored as given and nothing else changes; otherwise nothing changes and the code tells why |
| `ChatCalls.RenameSucceedsIff` | packages/console-api/internal/chats/grpc_chat_state.go:120-146 | A rename is carried out if and only if id and name are not blank and the chat is stored, and answered if its session is stored too |
| `ChatCalls.SetupSucceedsIff` | packages/console-api/internal/chats/grpc_chat_state.go:82-118 | A setup is accepted if and only if chat and session are stored and the spec names no other session; it then reads back, with the next generation unless it was there before |
| `ChatCalls.ProfilePutSucceedsIff` | packages/console-api/internal/chats/chat_setup.go:57-91 | A profile PUT is accepted if and only if it names a profile and nothing else, and the chat runs it already or chat and session are both free and then created |
| `ChatCalls.InlineChangeSucceedsIff` | packages/console-api/internal/chats/chat_setup.go:109-129 | An inline PUT on a stored chat is accepted if and only if the session has no profile, the provider and class asked for are its own, the configs decode and the catalog accepts the changed setup, which the session then has |
| `ChatCalls.InlineCreationSucceedsIff` | packages/console-api/internal/chats/chat_setup.go:130-144 | On any other chat it is accepted if and only if the setup is complete, the catalog accepts it, and chat and session are both free and then created |
| `ChatCalls.InlinePutNeedsSetup` | packages/console-api/internal/chats/chat_setup.go:102-108 | An inline PUT without a setup, or with a profile besides, is refused |
| `ChatCalls.PutRefusesIf` | packages/console-api/internal/chats/chat_setup.go:35-55 | A PUT of neither mode, or of a blank chat id, is refused |
| `ChatPuts.RepeatedPutChangesNothing` | packages/console-api/internal/chats/chat_setup.go:93-144 | Repeating an accepted inline PUT leaves both tables, hence every generation and the outbox, unchanged and gives the same answer |
| `ChatPuts.MergeKeepsIdentity` | packages/console-api/internal/chats/chat_setup.go:191-228 | A merge keeps mode, provider, execution class, workspace and home state |
| `ChatPuts.IdentityNeverChanges` | packages/console-api/internal/chats/chat_setup.go:35-144 | Over any PUTs, creations, renames and status calls a session keeps mode, profile, provider, class, workspace and home state |
| `MetricNames.TailsAreOk` | packages/console-api/internal/providers/metric_repo.go:15-33 | Every storage name of the table is its semantic name with '.' replaced |
| `MetricNameLaws.StorageNameIsReplacement` | packages/console-api/internal/providers/metric_repo.go:69-87 | For every string StorageName is trimming and then replacing '.' by '_' |
| `MetricNameLaws.SemanticNameKeepsStorageName` | packages/console-api/internal/providers/metric_repo.go:89-105 | Making a name semantic never changes what it is stored as |
| `MetricNameLaws.SemanticNameRecoversIff` | packages/console-api/internal/providers/metric_repo.go:69-105 | A trimmed name comes back from its storage name exactly when it is in the table, or prefixed with no '_' behind the prefix, or a plain name that is no storage name |
| `MetricRules.StoredNameIsValidIff` | packages/go-contract/observability/v1/validate.go:188-217 | A valid semantic name is stored under a Prometheus name that meets the suffix rules, unless it is a non-counter ending in "_total" |
| `MetricRules.StoredNameCanFail` | packages/go-contract/observability/v1/validate.go:188-217 | The gauge a.b_total has a valid semantic name and a refused stored name |
| `ObservabilityValidator.ValidateMetric` | packages/go-contract/observability/v1/validate.go:135-186 | Accepts exactly well-formed metrics |
| `ObservabilityValidator.ValidateMetrics` | packages/go-contract/observability/v1/validate.go:67-92 | Accepts exactly non-empty lists of well-formed metrics with unique names, and collects the label names each declares |
| `ObservabilityValidator.ValidateActiveQuery` | packages/go-contract/observability/v1/validate.go:219-262 | Accepts exactly well-formed active queries |
| `ObservabilityValidator.ValidateBackfills` | packages/go-contract/observability/v1/validate.go:370-423 | Accepts exactly well-formed backfill rules with unique ids and unique targets |
| `ObservabilityValidator.ValidateMaterialFields` | packages/go-contract/observability/v1/validate.go:264-280 | Accepts exactly unique, well-formed field keys |
| `ObservabilityValidator.ValidateForm` | packages/go-contract/observability/v1/validate.go:282-368 | Accepts exactly forms with unique well-formed fields whose transient fields name a stored field anywhere in the form |
| `ObservabilityValidator.ValidateTargets` | packages/go-contract/observability/v1/validate.go:359-367 | The second pass finds a transient field without a stored target |
| `ObservabilityValidator.ValidateTransforms` | packages/go-contract/observability/v1/validate.go:453-508 | Accepts exactly well-formed transforms no two of which share source, header and metric |
| `ObservabilityValidator.ValidateRedaction` | packages/go-contract/observability/v1/validate.go:509-531 | Accepts exactly policies that drop raw headers and name unique valid headers |
| `ObservabilityValidator.ValidateSelector` | packages/go-contract/observability/v1/validate.go:534-558 | Accepts exactly selectors with upper-case methods, rooted paths, real status codes and named hosts |
| `ObservabilityValidator.ValidatePassiveHttp` | packages/go-contract/observability/v1/validate.go:438-532 | Accepts exactly well-formed passive collections over the declared metrics |
| `ObservabilityValidator.ValidateQuery` | packages/go-contract/observability/v1/validate.go:578-608 | Accepts exactly complete queries over declared metrics |
| `ObservabilityValidator.ValidateAvailability` | packages/go-contract/observability/v1/validate.go:610-665 | Accepts exactly complete judgments whose queries and comparisons name declared queries |
| `ObservabilityValidator.ValidateProfile` | packages/go-contract/observability/v1/validate.go:56-132 | Accepts exactly well-formed profiles |
| `ObservabilityValidator.ValidateCapability` | packages/go-contract/observability/v1/validate.go:30-53 | Accepts exactly the capabilities whose profiles are all well formed and have unique ids |
| `ObservabilityValidator.AvailabilityResolves` | packages/go-contract/observability/v1/validate.go:610-665 | Every comparison of an accepted profile reaches declared metrics through a query |
| `ObservabilityValidator.LabelsAreDeclared` | packages/go-contract/observability/v1/validate.go:483-507 | Every label of an accepted transform is declared by the one metric it feeds |
| `ObservabilityValidator.KeyTextInjective` | packages/go-contract/observability/v1/validate.go:471-475 | The NUL-joined key tells transforms with valid headers apart |
| `ObservabilityAcceptance.NoCredentialIsMeasured` | packages/go-contract/observability/v1/validate.go:473-531 | An accepted capture drops raw headers and measures no header that carries a credential |
| `ObservabilityAcceptance.TransformsDiffer` | packages/go-contract/observability/v1/validate.go:471-475 | No two transforms of an accepted capture share source, header and metric |
| `ObservabilityAcceptance.RedactedOnce` | packages/go-contract/observability/v1/validate.go:509-531 | No header of an accepted policy is both hashed and redacted |
| `ObservabilityAcceptance.SecretsHaveNoDefault` | packages/go-contract/observability/v1/validate.go:310-358 | No sensitive field of an accepted form has a default |
| `ObservabilityAcceptance.TransientsAreStored` | packages/go-contract/observability/v1/validate.go:359-367 | What a transient field turns into is exactly one field of the form, and that one is stored |
| `ObservabilityAcceptance.BackfillsDiffer` | packages/go-contract/observability/v1/validate.go:370-423 | No two backfill rules of an accepted query share a target or an id |
| `ObservabilityAcceptance.IntervalPasses` | packages/go-contract/observability/v1/validate.go:219-230 | An accepted query has an interval, and it is positive |
| `ObservabilityAcceptance.NamesDiffer` | packages/go-contract/observability/v1/validate.go:30-92 | Accepted profiles, and the metrics of each, go by different names |
| `ObservabilityAcceptance.SuffixTellsKind` | packages/go-contract/observability/v1/validate.go:188-217 | A metric of an accepted profile ends in the counter suffix if and only if it is a counter, and in seconds if that is its unit |
| `ObservabilityAcceptance.SomeAreAccepted` | packages/go-contract/observability/v1/validate.go:30-53 | A capability with an active and a passive profile is accepted |

## Left out

- HTTP and gRPC plumbing, server-sent-event framing, telemetry setup and the clients: no hard property.
- Eventual delivery by the hub and the loop: the code does not guarantee it, and the blocking states are shown instead.
- The stop request sent when the loop is cancelled or fails (bestEffortStopTurn): its answer is ignored.
- The branch of the loop that stamps a held terminal event without a time (agui.go lines 309 to 311): every holder sets the time with the event, so it cannot be taken.
- Updates posted by an earlier attachment of the same run that arrive after it was re-attached: inputs carry only the run id, so the model applies them as the code does, but the theorems do not tell the attachments apart.
- Activity steps derived from prepare jobs, display-phase and failure-class labels: opaque texts of the action and run.
- HubEntry.RunOutputHubEntry.Publish: the sends after the lock are not part of the method; they are the SendEvent steps of HubProtocol.
- RunLifecycleLoop.OutputFollower.SwitchOutputRun: the goroutine of a stream is represented by the record of its start; its events are the loop's inputs.
- RunLifecycleLoop.Lifecycle.OnUpdate: counts are applied through the functions that AguiRunOutputState.Apply and AguiUsageState.Apply are proved to compute, not through the objects.
- SessionRepository.PostgresRepository.Update: generations are unbounded integers; the overflow of a 64-bit counter is not modelled.
- The resource's API version, kind, finalizers and creation time, and random event ids: carried through unchanged or fresh.
- SQL text, connection errors and failed commits: a transaction either runs to its commit or changes nothing.
- SessionOverlaps.AtMostOneClaimant: overlapping UpdateStatus transactions are outside the claim, because UpdateStatus overwrites the slot by design.
- The writes of the catalog's sort to the caller's slice: only order, stability and contents are proved.
- Nil entries in a spec's list of prepare jobs: the list holds jobs only, and cloning it is the identity.
- Chat payload contents beyond their keys. A message body is read, checked and printed by functions; which messages the snapshot check refuses, other than those without an id, is not part of this model.
- Prometheus queries, observability builders, credentials, OAuth polling and the front end: easy or opaque.
