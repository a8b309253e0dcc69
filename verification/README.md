# Verification model of the gate controller

The controller opens a physical gate when a number plate is recognised or a remote command
arrives. This project models the parts whose correctness depends on crashes, interleavings,
clocks or unbounded input, and proves what they guarantee over every run.

- **Actuation** (`Store`, `StoreMeaning`, `Actuation`, `ActuationSafety`, `Coordinator`): the durable
  "at most one pulse" protocol. Tables are sequences, a SQL transaction is one step, a crash
  keeps only the tables, a store call may raise before or after its commit, and wall time,
  monotonic time and boot are separate. `Coordinator` is the sequential code of `actuate`,
  shown to be a run of the machine.
- **Relay** (`Guards`, `Relay`, `RelaySafety`, `RelayAnswers`, `RelayController`, `RelayContract`): one thread
  in `trigger` and any number of `begin_shutdown` calls, step by step, with the boundary lock,
  the latch, an `off()` that may fail, and the deactivation callback. `RelayController` is the
  code of each hold of the boundary; `RelayContract` shows that the interlock provides what
  `Coordinator` assumes of `trigger`.
- **Release activation** (`Releases`, `Updater`, `UpdaterSafety`, `GateUpdater`): record, link,
  directories and the legacy unit's flags under process death and reboot at any point.
- **Delivery** (`Traces`, `RetryOrder`, `Delivery`, `DeliveryMeaning`, `DeliverySafety`, `OutboxWorker`): the
  outbox send states, what each send carries, the trace that stays the same through every rewrite, and retry
  fairness. `Store` keeps of an outbox row only what the actuation protocol needs; `Delivery` has the whole
  row, and any change it makes is allowed there.
- **Streams, windows and text** (`Timestamps`, `TelemetryPages`, `JpegStream`, `Correlator`,
  `Matching`, `Burst`, `MediaConfig`, `MediaMeaning`).

The machines are functions (`Next`, `Run`) over explicit choices, so "over every run" means for
all choice sequences. Objects that the source updates in place are classes whose methods are
proved equal to those functions or to runs of those machines over the same environment. What those
functions write and answer is stated again field by field, with its texts and numbers written out,
in lemmas that do not name them in their conclusions (`StoreMeaning`, `DeliveryMeaning`, `RelayAnswers`,
`MediaMeaning`, and the lemmas called `...Meaning`).

Some properties hold only under a condition, or were found to fail without one:

- The legacy unit's flags are restored exactly, except when the host reboots after the record
  was written and starts an enabled unit that was not active. `UpdaterSafety.RebootStartsTheUnit`
  gives the run; `UpdaterSafety.ReconciliationConverges` gives the exact condition, readable from
  the host before reconciling; `UpdaterSafety.OnlyAReboot` shows that nothing else produces it.
- An unfinished row keeps one idempotency key in every run if and only if it names its
  controller (`DeliverySafety.OneKeyIffNamed`); for every other one `DeliverySafety.TwoKeys` gives
  a run that sends it under two keys, and `DeliverySafety.KeyAcrossARestart` says exactly which
  restarts keep the key.
- Splitting the JPEG stream differently changes nothing when no boundary splits a start marker
  and no carried partial frame exceeds the limit. Both conditions are needed: a frame whose start
  marker is split, with no later start marker in it, is lost
  (`JpegStream.SplitMarkerLosesTheFrame`), and a partial frame dropped for its size changes the
  frames (`JpegStream.DroppedPartialChangesTheFrames`).
- The replay window is tight (`Correlator.WindowIsTight`).

## Model

| member | source | states |
|---|---|---|
| Store.LatestKnown | gate_controller/store.py:876-886 | the latest retained marker of a known boot, or none exactly when no marker of a known boot is retained |
| Store.LocalStore.ClaimActuation | gate_controller/store.py:45-89 | one transaction: a finalized, open or new key, the cooldown decision before the insert, and the commit that may raise before or after its effect |
| Store.LocalStore.MarkActuationAttempt | gate_controller/store.py:91-120 | the durable marker is written to an open claim only, else the call raises and changes nothing |
| Store.LocalStore.FinalizeActuation | gate_controller/store.py:122-167 | event, outbox row, acknowledgement and the claim's final state are one transaction; an unretained or expired attempt loses its marker |
| Store.LocalStore.RecordTerminalOutcome | gate_controller/store.py:169-206 | a refusal is recorded once; an existing claim keeps its event |
| Store.LocalStore.RecordEventWithOutbox | gate_controller/store.py:208-231 | an event with a known key is not inserted twice and its outbox row is ensured |
| Store.LocalStore.RecoverInterruptedActuations | gate_controller/store.py:1103-1169 | the loop over open claims computes the recovery transaction, whose effect on each claim, event, outbox row and acknowledgement `StoreMeaning` states, and counts the recovered claims |
| StoreMeaning.FinalizeMeaning | gate_controller/store.py:122-167 | finalizing works exactly on an open claim whose key has no event; then the event is stored as given and queued, the command acknowledged, and that row alone closed with status, detail, event and, if kept, marker |
| StoreMeaning.RecordTerminalMeaning | gate_controller/store.py:169-206 | a new refusal raises exactly when its key has an event; otherwise event, outbox row, acknowledgement and a finalized claim are written |
| StoreMeaning.RecordTerminalAgain | gate_controller/store.py:169-206 | for a key that has a claim nothing but the outbox row of its event and the acknowledgement is written, and its event is answered |
| StoreMeaning.RecordEventMeaning | gate_controller/store.py:208-231 | an event with a known key keeps its first row, another one is stored as given, and either is queued |
| StoreMeaning.RecoveryMeaning | gate_controller/store.py:1103-1161 | every recoverable claim ends failed with the reason its marker calls for, names the event of its pending key, which was there or records the pending event under that reason, the event is queued when there was a payload, and the command is acknowledged as failed with that reason |
| StoreMeaning.RecoveredOutbox | gate_controller/store.py:1162-1168 | recovery makes exactly the unfinished waiting rows ready, leaves every other row as it was, and adds only ready ones |
| Store.RecoverySettles | gate_controller/store.py:1103-1169 | after recovery no decodable pending claim is open, no unsent row awaits telemetry, earlier events and finalized claims are untouched |
| Store.RecoverTwice | gate_controller/store.py:1103-1169 | recovering twice equals recovering once |
| Actuation.ClaimHasShape | gate_controller/store.py:45-89 | a successful claim adds exactly one open, recoverable row without a marker, and only when every retained marker is older than the cooldown |
| Actuation.NextKeeps | gate_controller/actuation.py:31-161 | every step of `actuate`, of a prompt, of recovery, and every crash, reboot or clock change keeps the protocol's invariant |
| ActuationSafety.RunKeeps | gate_controller/actuation.py:31-161 | the invariant holds in every reachable state |
| ActuationSafety.MarkersApartInWallTime | gate_controller/actuation.py:41-96 | in every reachable state all retained attempt markers are pairwise more than the cooldown apart in wall time |
| ActuationSafety.PulsesApartInOneBoot | gate_controller/store.py:864-905 | any two pulses in one known boot, across process restarts, have claim-time monotonic readings more than the cooldown apart |
| ActuationSafety.PulsesSpacedInOneProcess | gate_controller/actuation.py:68-90 | within one process a pulsing claim comes at least a cooldown after every earlier pulse ended |
| ActuationSafety.AtMostOnePulsePerKey | gate_controller/actuation.py:31-161 | at most one pulse per idempotency key over any calls, store exceptions, crashes and restarts |
| ActuationSafety.AuditTruth | gate_controller/actuation.py:135-161 | every opened event with a key has a pulse for its key, and every pulse keeps its claim with the marker made durable before it |
| ActuationSafety.OutcomesAreForever | gate_controller/store.py:122-167 | a finalized outcome never changes and a recorded event is never rewritten, over any run |
| ActuationSafety.ReplayedForever | gate_controller/actuation.py:32-40 | once a key is finalized, every later call in any process is answered from the stored row and leaves the relay alone |
| ActuationSafety.NoPulseAfterFinal | gate_controller/actuation.py:32-40 | a finalized claim is never pulsed again |
| ActuationSafety.CooldownQueryMeaning | gate_controller/store.py:864-905 | the four queries together refuse exactly: recent by wall time, or recent in this known boot, or a known boot younger than the cooldown with any known-boot marker retained |
| ActuationSafety.ClaimDecision | gate_controller/store.py:45-89 | the claim of a new key succeeds exactly when no cooldown holds, and is refused exactly when one does |
| ActuationSafety.RebootInhibits | gate_controller/store.py:868-887 | while a known boot is younger than the cooldown, any retained marker of a known boot blocks every new claim, whatever the wall clock did |
| ActuationSafety.InterruptionIsAudited | gate_controller/store.py:1103-1161 | however an actuation was interrupted, the next completed start leaves the claim of every pulse and of every marked attempt finalized: with its earlier outcome, or failed as indeterminate with its marker kept, its event recorded and queued and its command failed |
| ActuationSafety.CrashIsReported | gate_controller/store.py:1103-1161 | over every run: whenever the process dies with a claim of its call in hand, the next completed start leaves that claim failed with the literal reason its marker calls for, and an event of its key that says so |
| ActuationSafety.StartLeavesNothingPending | gate_controller/store.py:236-247 | a completed start leaves no decodable claim open and no row awaiting telemetry |
| Coordinator.ActuationCoordinator.Actuate | gate_controller/actuation.py:24-161 | the sequential code is a run of the machine with what its environment gave it; a finalized key is answered from its row, queued and acknowledged again; an open one is refused with the literal reason; a new key is answered with what the tables now say of its event and row, or with the literal refusal of the fault; a cooldown answers with its refusal and no pulse, otherwise the answer says what the trigger said; without a fault there is an answer with an event, and a pulse if the relay pulses |
| Coordinator.ActuationCoordinator.MarkAndFire | gate_controller/actuation.py:91-161 | a pulse only follows a mark that succeeded, and whatever follows the pulse, its claim keeps exactly that marker |
| Coordinator.ActuationCoordinator.FinalizeFired | gate_controller/actuation.py:135-161 | the final event and claim row carry the reason, opening, activation time, status and detail that the answer and the captured inhibition call for, the caller is told exactly that, and an attempt keeps its marker while a refusal loses it |
| Guards.InhibitionMeaning | gate_controller/processor.py:258-274 | the check passes exactly when the processor is open, the burst fresh, the normalised plate among the normalised authorised plates and the deadline ahead; a command exactly when 0 < remaining <= lifetime |
| Guards.RefusalMeaning | gate_controller/command_server.py:83-92 | every refusal of either check, with its status and detail, has its exact condition (the plate check is gate_controller/processor.py:258-274) |
| Relay.NextKeeps | gate_controller/relay.py:29-172 | every step of either thread keeps the interlock's invariant |
| Relay.RunKeeps | gate_controller/relay.py:29-172 | the invariant holds over every interleaving |
| RelaySafety.PulsesAreChecked | PiRelay.py:33-40 | every write of HIGH finds the pin low and follows, in the same hold of the boundary, a passing check of its own call with no shutdown requested |
| RelaySafety.OnePulsePerCall | gate_controller/relay.py:57-80 | one call drives the pin high at most once |
| RelaySafety.PulsesPrecedeShutdown | gate_controller/relay.py:120-130 | every pulse belongs to a hold of the boundary before the one that set the shutdown flag, and none follows |
| RelaySafety.NoPulseAfterShutdown | gate_controller/relay.py:120-130 | once shutdown is requested the pin never rises again |
| RelaySafety.LatchIsForGood | gate_controller/relay.py:120-127 | nothing resets the latch |
| RelaySafety.TriggerLeavesThePinSafe | gate_controller/relay.py:94-118 | whenever no `trigger` runs the pin is low or the latch is set for good; after `activated` or `relay_error` the pin is low |
| RelaySafety.AnswersAreTrue | gate_controller/relay.py:94-118 | `activated` means the pin rose in that call, a refusal that it did not |
| RelayAnswers.TriggerAnswers | gate_controller/relay.py:29-118 | over every interleaving the answer is the refusal of the check or latch met, `relay_deenergize_error` exactly after all attempts to switch off failed, `activated` after a pulse that ended and `relay_error` after an exception; more than an exception is raised again |
| RelayAnswers.PermittedCallPulses | gate_controller/relay.py:29-118 | a permitted call on a controller that is neither latched nor shut down and is left alone drives the pin high once and low again, runs its callback and answers `activated` |
| RelaySafety.CallbackRunsOnce | gate_controller/relay.py:151-172 | whichever thread de-energised the pin, a deactivation callback runs at most once, after activation was notified, for a pulse that happened |
| RelaySafety.WaitHasAHolder | gate_controller/relay.py:219-255 | a `trigger` that waits for its callback waits for another thread that holds it and can run it |
| RelaySafety.WaitEnds | gate_controller/relay.py:236-255 | given a fixed number of its own turns the holder has run or skipped the callback, whatever is interleaved, so the wait can finish |
| RelaySafety.TriggerReturns | gate_controller/relay.py:112-118 | in every reachable state in which `trigger` waits, its callback is reported or some worker holds it, and every run that gives that worker its turns and then `trigger` one returns `activated` |
| RelaySafety.BoundaryIsReleased | gate_controller/relay.py:58-80 | whoever holds the boundary lets go after a bounded number of its own turns |
| RelayController.RelayController.constructor | gate_controller/relay.py:10-27 | the controller starts latched exactly when every attempt to switch off failed |
| RelayController.RelayController.DeenergizeAtBoundary | gate_controller/relay.py:160-167 | the retry loop reports success exactly when one attempt worked; otherwise the pin is high only if no attempt had an effect |
| RelayController.RelayController.Deenergize | gate_controller/relay.py:151-158 | the callback is handed over exactly when the pin was switched off, and the hold is a run of the interlock |
| RelayController.RelayController.BeginShutdown | gate_controller/relay.py:120-130 | flag and latch are set, and the callback taken exactly when the pin was switched off |
| RelayController.RelayController.SwitchOn | PiRelay.py:33-40 | the pin rises only with a passing check in the same hold, and the callback is stored only when it did |
| RelayContract.TriggerMeetsContract | gate_controller/actuation.py:129-134 | over every interleaving, what `trigger` answers meets the assumption the coordinator makes of it |
| Releases.HasSuccessfulCiRun | deployment/gate_controller_updater.py:176-194 | true exactly when some completed, successful push run of the CI workflow has this SHA and branch |
| Releases.DecideUpdate | deployment/gate_controller_updater.py:197-208 | install exactly for a valid new SHA with a qualifying run; no change exactly for the current one |
| Releases.PruningKeepsTheNewest | deployment/gate_controller_updater.py:211-228 | the active release is never pruned, the newest `keep - 1` others stay, nothing newer than what stays is pruned, and nothing is lost |
| Updater.NextKeeps | deployment/gate_controller_updater.py:732-892 | every step of reconciliation, activation, rollback and pruning, and every death or reboot, keeps the invariant |
| Updater.RunKeeps | deployment/gate_controller_updater.py:732-892 | the invariant holds over every run |
| UpdaterSafety.PendingRecordIsSound | deployment/gate_controller_updater.py:732-828 | while a record exists the link is its candidate or its previous, these differ and both directories exist; the linked release is never pruned |
| UpdaterSafety.LinkedCommitsAreVouched | deployment/gate_controller_updater.py:176-208 | every SHA ever linked was trusted at the start or had a qualifying exact-SHA run |
| UpdaterSafety.ClearedAfterHealth | deployment/gate_controller_updater.py:737-769 | the record is cleared only after the linked release passed its health check, and at the previous release only with the recorded flags back |
| UpdaterSafety.ReconciliationConverges | deployment/gate_controller_updater.py:732-769 | from every state a crash or reboot can leave, one undisturbed reconcile ends with no record, the link at candidate or previous and healthy; the flags are restored exactly if and only if the unit was not left over at its start |
| UpdaterSafety.OnlyAReboot | deployment/gate_controller_updater.py:602-642 | a unit is left over only after a reboot started an enabled unit that the record says was not active |
| UpdaterSafety.NewHeadIsInstalled | deployment/gate_controller_updater.py:786-892 | a run with nothing pending that meets no failure and a new head with a qualifying run does not stop before that head is staged, linked, confirmed and unrecorded with the legacy unit down, and pruning keeps it |
| UpdaterSafety.FailureBeginsRollback | deployment/gate_controller_updater.py:749-828 | every failure between writing the record and clearing it begins the rollback with the record kept |
| UpdaterSafety.FailedActivationRollsBack | deployment/gate_controller_updater.py:804-828 | wherever an activation failed after its record was written, five undisturbed steps link the previous release, confirm it, restore the flags and clear the record |
| UpdaterSafety.RebootStartsTheUnit | deployment/gate_controller_updater.py:620-642 | a concrete run in which a reboot makes the restored flags differ from the recorded ones |
| GateUpdater.ReleaseHost.RetireLegacyCommandService | deployment/gate_controller_updater.py:602-613 | retiring only lowers flags, and both are down when it succeeds on the present flags |
| GateUpdater.ReleaseHost.RestoreLegacyCommandService | deployment/gate_controller_updater.py:620-642 | recorded flags are raised again only for a previous release that ships the unit |
| GateUpdater.ReleaseHost.ReconcilePendingActivation | deployment/gate_controller_updater.py:732-769 | the code with its handlers is the machine's run over the entries met; it returns only with the record gone, and raises only where the machine stops |
| GateUpdater.ReleaseHost.ActivateRelease | deployment/gate_controller_updater.py:786-828 | it returns only with the candidate linked, the record gone and the unit retired; otherwise it raises, untouched if the flags could not be read |
| GateUpdater.ReleaseHost.FindCandidate | deployment/gate_controller_updater.py:866-876 | the head is answered exactly when it is valid, new and has a qualifying run; none exactly when it is the current one or has no such run yet |
| GateUpdater.ReleaseHost.PruneReleases | deployment/gate_controller_updater.py:843-853 | the doomed directories go one by one, and never the current one |
| GateUpdater.ReleaseHost.RunOnce | deployment/gate_controller_updater.py:856-892 | whatever the process meets, the host is exactly where the machine's run over the entries met leaves it; the run ends only where the machine stops or the process dies, exit code 0 means no pending record and an existing linked release, a run without failure and with nothing pending exits with 0, and a head offered throughout is installed when it returns |
| Traces.SameTraceMeaning | gate_controller/store.py:1272-1294 | two payloads are the same trace exactly when id and content agree, every duration agrees except `delivery_lag_ms` and `cloud_send_to_ack_ms`, and every stamp except those that begin with `cloud_` |
| Traces.SendingSameTrace | gate_controller/store.py:503-522 | preparing a send keeps the trace, keeps the enqueue time, drops the acknowledgement time and sets the counter to min(previous + 1, 1000) |
| Traces.RetryingSameTrace | gate_controller/store.py:717-752 | marking a retry keeps trace and counter |
| Traces.DeliveredSameTrace | gate_controller/store.py:724-752 | completing keeps trace and counter |
| Traces.EnrichedSameTrace | gate_controller/store.py:1380-1391 | stamping the enqueue time keeps trace and counter |
| Traces.SendingMeaning | gate_controller/store.py:503-522 | what is sent: the state, the counter, the enqueue, start and acknowledgement stamps and the lag between 0 and 600000 as written out; every other entry as stored |
| Traces.RetryingMeaning | gate_controller/store.py:717-752 | a failed attempt changes the state to retry_pending and bounds the counter, nothing else |
| Traces.DeliveredMeaning | gate_controller/store.py:724-752 | a confirmed attempt changes the state, the acknowledgement stamp and, unless it is negative or unknown, the interval, nothing else |
| Traces.EnrichedMeaning | gate_controller/store.py:1380-1391 | attaching stamps the enqueue time of a queued event unless there is one, nothing else |
| RetryOrder.RotatedIsOrdered | gate_controller/store.py:307-318 | the rotated listing is in the ORDER BY clause's order and is a permutation of the pending ids |
| RetryOrder.BatchIsDistinct | gate_controller/store.py:294-319 | no row is listed twice in one call |
| RetryOrder.EveryRowIsVisited | gate_controller/outbox.py:330-398 | every row that stays pending is visited in any ceil(n / limit) consecutive calls, even if every send fails |
| RetryOrder.BoundIsTight | gate_controller/store.py:294-319 | with one pending row more than the limit, one call is not enough |
| Delivery.NextKeeps | gate_controller/store.py:476-781 | enqueue, attach, prepare, send, complete, retry, purge and restart keep the delivery invariant |
| DeliveryMeaning.EnqueueMeaning | gate_controller/store.py:837-862 | an event is queued once, as version 2 without telemetry, ready or waiting |
| DeliveryMeaning.ReleaseMeaning | gate_controller/store.py:321-330 | releasing wakes the event's row if it still waits, nothing else |
| DeliveryMeaning.AttachMeaning | gate_controller/store.py:332-388 | attaching is accepted exactly for the same trace or for a new one whose id no other event has; it stores the first trace, keeps a stored one, and promotes the event's unfinished row with it |
| DeliveryMeaning.PreparationMeaning | gate_controller/store.py:476-550 | a good preparation with a stored trace has in hand version 3 with exactly the trace now stored, every other one version 2 without telemetry; both keep every other field of the row's payload |
| DeliveryMeaning.TransmissionMeaning | gate_controller/outbox.py:168-190 | one send logs what was in hand, under the key of controller and event, with every field of the row |
| DeliveryMeaning.CompletionMeaning | gate_controller/store.py:696-781 | completing closes the row with the payload that was sent; the trace becomes delivered unless its rewrite fails |
| DeliveryMeaning.RetryMeaning | gate_controller/store.py:696-781 | a failed attempt leaves the row unfinished, with the stored trace marked for retry or with none |
| DeliveryMeaning.PurgeMeaning | gate_controller/store.py:555-584 | retention deletes exactly the named traces of completed rows and strips those rows of theirs |
| DeliveryMeaning.RestartMeaning | gate_controller/store.py:1162-1168 | a start wakes exactly the unfinished waiting rows and changes nothing else but the bases that binding changes |
| DeliveryMeaning.UnqueuedMeaning | gate_controller/store.py:589-611 | the other retention deletes exactly the named traces of events without a row |
| DeliveryMeaning.OneEventPerTrace | gate_controller/store.py:357-368 | over every run no two events share a trace id |
| DeliveryMeaning.StepBase | gate_controller/store.py:633-657 | no step changes a row's payload apart from telemetry and version, except that a binding start names a missing controller and drops a path to legacy evidence |
| DeliveryMeaning.SendsCarryTheQueued | gate_controller/store.py:1313-1319 | over every run every send of a row carries the event, image digest, other fields and named controller that were queued |
| DeliveryMeaning.SendsMean | gate_controller/outbox.py:168-190 | every transmission of every run is the row as it stood, field by field, with the stored trace or none |
| DeliverySafety.OneRowPerEvent | gate_controller/store.py:837-862 | at most one outbox row per event |
| DeliverySafety.SentOnlyWhenSendable | gate_controller/store.py:482-493 | nothing is sent while awaiting telemetry, when completed, or when local only |
| DeliverySafety.CompletedOnlyAfterASend | gate_controller/outbox.py:356-383 | a row completes only after a send for it returned |
| DeliverySafety.NoSendAfterCompletion | gate_controller/store.py:482-493 | a completed row is never sent again |
| DeliverySafety.RestartWakesEveryRow | gate_controller/store.py:1162-1168 | after recovery no row of an earlier process ever awaits telemetry again, over any run |
| DeliverySafety.ResendsKeepTheKey | gate_controller/outbox.py:168-196 | all sends of a row that names its controller carry one idempotency key, across failures, restarts and configuration changes |
| DeliverySafety.KeyAcrossARestart | gate_controller/store.py:633-657 | exactly when a restart keeps an unfinished row's key, whether or not its binding of pending rows succeeds |
| DeliverySafety.TwoKeys | gate_controller/outbox.py:312-316 | for every unnamed, unfinished row that can be sent, a run in which it is sent under two keys |
| DeliverySafety.OneKeyIffNamed | gate_controller/outbox.py:168-196 | an unfinished row that can be sent keeps one key in every run if and only if it names its controller |
| DeliverySafety.KeyTextInjective | gate_controller/outbox.py:193-196 | different controller and event pairs are hashed from different texts |
| DeliverySafety.StepSameTrace | gate_controller/store.py:476-781 | no step changes which trace is stored; only preparing a send moves the counter, by one up to 1000 |
| DeliverySafety.PreparationCounts | gate_controller/store.py:503-530 | a successful preparation of a sendable row with a stored trace keeps the trace and sets the counter to min(previous + 1, 1000) |
| DeliverySafety.RunSameTrace | gate_controller/store.py:476-781 | over any run during which it stays stored a trace stays the same and its counter never falls |
| DeliverySafety.AttachingAgainIsAccepted | gate_controller/store.py:332-388 | attaching a trace again after any run is accepted and leaves the stored trace as it is |
| DeliverySafety.OtherTracesAreRefused | gate_controller/store.py:345-356 | a different trace for the same event is refused and changes nothing |
| OutboxWorker.OutboxWorker.PrepareOutboxAttempt | gate_controller/store.py:476-550 | the transaction with its fallbacks is the machine's step; it raises, skips or hands over exactly when it should: the row's payload with the trace now stored as version 3, or without telemetry as version 2 |
| OutboxWorker.OutboxWorker.CompleteOutboxItem | gate_controller/store.py:685-781 | completing is the machine's step; without an exception the row is completed |
| OutboxWorker.OutboxWorker.MarkOutboxRetry | gate_controller/store.py:696-781 | marking a retry is the machine's step and leaves the row sendable |
| OutboxWorker.OutboxWorker.RunOnce | gate_controller/outbox.py:330-412 | one call runs retention and takes exactly the first twenty rows of the rotation through prepare, send and complete or retry, completes exactly those whose send was answered and whose completion committed, counts exactly those without an exception, leaves the cursor on the last, and changes no other row except that retention may strip completed ones |
| OutboxWorker.OutboxWorker.RunRepeatedly | gate_controller/outbox.py:330-398 | after ceil(n / 20) calls, n being the pending count at the start, every row that is still pending has been visited, even if every send failed |
| Timestamps.TextOrderIsTimeOrder | gate_controller/store.py:1237-1238 | lexicographic order of stored UTC timestamps equals time order, with and without a fraction |
| Timestamps.TextInjective | gate_controller/store.py:1237-1238 | equal texts mean equal times |
| TelemetryPages.SelectMeaning | gate_controller/store.py:407-445 | a page query returns exactly the matching rows in order of time and id |
| TelemetryPages.KeysetSelectsTheRest | gate_controller/store.py:407-445 | the query after the n-th row selects exactly the rows of the full scan from n on |
| TelemetryPages.PageIsNextStretch | gate_controller/store.py:397-445 | the next page is the next stretch of the scan |
| TelemetryPages.EventTelemetryRows | gate_controller/store.py:397-405 | the paging loop terminates and exports the full scan |
| TelemetryPages.ExportMeaning | gate_controller/store.py:397-445 | the export is exactly the rows at or after `since`, none skipped or repeated, sorted by time and id |
| JpegStream.JpegStreamParser.Feed | gate_controller/hot_stream.py:80-102 | the buffer-editing loop returns the frames, and keeps the rest, of the splitting function on kept bytes plus chunk |
| JpegStream.CutPointIrrelevant | gate_controller/hot_stream.py:80-102 | cutting the stream at a point that splits no start marker changes neither frames nor the unfinished rest |
| JpegStream.ChunkIndependence | gate_controller/hot_stream.py:80-102 | if no boundary splits a start marker and the carried partial stays within the limit, feeding chunks equals feeding the whole stream |
| JpegStream.SplitMarkerLosesTheFrame | gate_controller/hot_stream.py:80-102 | the condition on boundaries is needed: a single frame whose start marker is split, and that holds no later start marker, is lost |
| JpegStream.DroppedPartialChangesTheFrames | gate_controller/hot_stream.py:80-102 | the condition on the carried partial is needed: when it is dropped for its size, the next chunk yields a frame that the undivided stream does not |
| JpegStream.FramesAreStretches | gate_controller/hot_stream.py:75-102 | with no assumption the frames are ordered disjoint stretches of the stream, whole and within the limit, and the kept buffer is a bounded suffix after the last one |
| JpegStream.EveryFrameIsReturned | gate_controller/hot_stream.py:80-102 | of a stream of frames and gaps without start markers exactly the frames within the limit are returned, in order |
| JpegStream.EvictIsLeast | gate_controller/hot_stream.py:114-138 | eviction drops the oldest frames and no more than the two bounds ask for |
| JpegStream.HotFrameRing.Add | gate_controller/hot_stream.py:114-138 | bounds and distinctness are kept; a held frame is only renewed, a new one appended |
| JpegStream.HotFrameRing.Select | gate_controller/hot_stream.py:140-146 | the reverse scan picks recent frames only, newest first; a recent frame is left out only if `count` newer ones were picked |
| Correlator.ReolinkEventCorrelator.Record | gate_controller/reolink_events.py:149-172 | record computes the window's step function on the two collections |
| Correlator.ReolinkEventCorrelator.Correlate | gate_controller/reolink_events.py:174-202 | correlate computes the window's step function on the two collections |
| Correlator.ReplyMeaning | gate_controller/reolink_events.py:149-172 | stale exactly when receipt or event time is out of range, duplicate exactly when the id is remembered within the TTL, accepted exactly otherwise |
| Correlator.AcceptedIsKept | gate_controller/reolink_events.py:165-172 | an accepted trigger becomes the newest held and its id the newest remembered, behind what the TTL keeps and less only the oldest at the bound; any other answer adds nothing |
| Correlator.StaysHeld | gate_controller/reolink_events.py:149-211 | a held trigger stays held over every run while the TTL keeps it, no answer takes it and fewer than max_events are accepted after it |
| Correlator.CorrelateFinds | gate_controller/reolink_events.py:174-202 | correlate finds a trigger exactly when one within the TTL lies in the window |
| Correlator.AcceptedIsMatched | gate_controller/reolink_events.py:149-202 | after such a run a correlate within window and TTL of an accepted trigger answers with one no further away |
| Correlator.NearestMeaning | gate_controller/reolink_events.py:174-202 | the chosen event is in the window and no event in the window is closer by distance, receipt and id |
| Correlator.MatchIsNearest | gate_controller/reolink_events.py:174-202 | a match is the nearest retained event and is the only one removed |
| Correlator.RunBounded | gate_controller/reolink_events.py:149-211 | both collections stay within their bounds and ids distinct on every run |
| Correlator.ReplayRefused | gate_controller/reolink_events.py:149-172 | while fewer than 2 * max_events other ids are accepted and the receipt stays within the TTL, an accepted id is not accepted again |
| Correlator.AcceptedIsRemembered | gate_controller/reolink_events.py:160-172 | acceptance starts that window |
| Correlator.WindowIsTight | gate_controller/reolink_events.py:160-172 | one acceptance more and the id is accepted again |
| Correlator.MatchesWithinAcceptances | gate_controller/reolink_events.py:149-202 | matches never outnumber acceptances |
| Matching.ConfusionMeaning | gate_controller/matching.py:81-91 | the comprehension finds exactly the plates that differ at one position by a known confusion |
| Matching.ConfusionSymmetric | gate_controller/matching.py:81-91 | being one confusion apart is symmetric and excludes equality |
| Matching.NormaliseTwice | gate_controller/matching.py:13-16 | normalising is idempotent |
| Matching.NormaliseAppend | gate_controller/matching.py:13-16 | normalising goes character by character |
| Matching.NormaliseChar | gate_controller/matching.py:13-16 | the form of each character: digits and capitals stay, small letters become capitals, seventeen others become their letters, all else vanishes |
| Matching.NormalStays | gate_controller/matching.py:13-16 | text of digits and capitals is its own form, so distinct plates stay distinct |
| Matching.DecideAccess | gate_controller/matching.py:19-78 | the code with its dictionaries and early returns satisfies the declarative rule over frames and plates |
| Matching.RuleDetermines | gate_controller/matching.py:19-78 | the rule has exactly one decision |
| Matching.AuthorisedListOrderIrrelevant | gate_controller/matching.py:19-78 | order and duplicates in the authorised list do not matter |
| Matching.AllowedMeansAuthorised | gate_controller/matching.py:19-78 | an allowed decision names an authorised plate, equal to the observed one or its only one-confusion neighbour |
| Matching.AllowedNamesAListedPlate | gate_controller/matching.py:19-78 | in terms of raw observations and list: the gate opens only for a listed plate read with confidence 0.90 exactly, or one look-alike away from a plate read twice; and a listed plate read exactly always opens it |
| Matching.ExactSurvivesMoreFrames | gate_controller/matching.py:19-78 | an exact match is not undone by later frames |
| Burst.ReadFrames | gate_controller/processor.py:140-206 | the loop decides on exactly the observations made, stops at the first allowed decision, and stops early only for a clock, a busy slot or a deadline |
| Burst.DecideBurst | gate_controller/processor.py:119-257 | the gate is asked for only with a decision the rule allows on at most three frames, made in time on a burst fresh at every check; it is asked for when the rule allows it and nothing goes wrong; each refusal before the frames has its exact reason |
| Burst.Conclude | gate_controller/processor.py:205-257 | every outcome after the frames has its exact condition: timeout, staleness, OCR failure, the rule's reason, or the call of the coordinator |
| MediaConfig.ParseEnvironment | gate_media_config.py:103-126 | the line loop computes the parser function, with its refusals |
| MediaMeaning.ParseMeaning | gate_media_config.py:103-126 | a text is accepted exactly when it ends with a newline, holds no carriage return and each line assigns a key of its own; the result holds exactly what the lines assign |
| MediaMeaning.SplitMeaning | gate_media_config.py:117 | the lines are the stretches between the separators of `splitlines`, and no line holds one |
| MediaConfig.RoundTrip | gate_media_config.py:397-398 | parsing a printed clean environment gives it back |
| MediaConfig.ParsedIsClean | gate_media_config.py:103-126 | whatever the parser accepts is printable again |
| MediaConfig.WrittenPartReadsBack | gate_media_config.py:219-260 | each part the migration writes reads back as it was |
| MediaConfig.GatewayFiles.Migrate | gate_media_config.py:219-260 | the code, stopped after any number of its writes, leaves the files of its plan and ends as the plan says |
| MediaConfig.FinishedRunIsQuiet | gate_media_config.py:219-286 | after a finished run the next plan has no write |
| MediaConfig.MigrationSurvivesACrash | gate_media_config.py:219-286 | a run repeated after a crash between its writes reaches the files of an uninterrupted run |
| MediaConfig.SecondRunWritesNothing | gate_media_config.py:219-286 | a second run changes nothing |
| MediaConfig.SplitKeepsValues | gate_media_config.py:219-260 | splitting a combined file keeps every value |
| MediaMeaning.MigratesExactly | gate_media_config.py:219-286 | a run ends without an error exactly for the files that can be migrated: keys, single values, the derived clear source, an acceptable TURN file and texts within the limit |
| MediaMeaning.MigrationMeaning | gate_media_config.py:219-286 | the gateway file then holds the camera source as under its own or its legacy key, the clear source as it was or exactly as derived, every other static value as it was; a TURN part goes to a TURN file that had no text |

## Left out

- Store.LocalStore.ClaimActuation: SQLite, its isolation and its schema migrations are replaced by atomic
  transactions on sequences; the legacy log import and the claim rows of older schemas are not modelled.
- Store.LatestKnown: among markers with equal wall time the choice is unspecified in SQL; retained markers
  are never equal, so it does not matter here.
- ActuationSafety.PulsesSpacedInOneProcess: covers pulses whose `trigger` returned; when `trigger` itself
  raises, the source records no end of the pulse.
- Coordinator.ActuationCoordinator.Actuate: clock readings are parameters, monotonic seconds are reals
  instead of floats, and the event's key is never empty.
- Relay.NextKeeps: an `off()` or callback that raises more than an `Exception`, and a callback that never
  returns, are not modelled; `trigger` calls are one at a time, as its lock makes them.
- RelaySafety.WaitEnds: the holder's turns are given; that the operating system schedules it is assumed.
- Updater.NextKeeps: one updater process at a time; records and links written by anything else, malformed
  records, file modes and fsync are not modelled; building and testing a staged release is one step that
  works or fails.
- GateUpdater.ReleaseHost.RunOnce: GitHub, git, systemd and the file system are outcomes; which failures
  give exit code 1 is stated only as: none when nothing fails and nothing is pending.
- DeliveryMeaning.TransmissionMeaning: the image bytes of a send are not modelled, only the digest.
- Delivery.NextKeeps: a malformed stored trace appears as a rewrite that fails and falls back; foreign keys,
  JSON, evidence files and their deletion are not modelled, and a send whose evidence could not be loaded
  counts as a send that raised.
- DeliverySafety.KeyTextInjective: SHA-256 is not modelled; digests are assumed distinct for distinct texts.
- OutboxWorker.OutboxWorker.RunRepeatedly: assumes, as stated, no new rows and no restart between the calls,
  and that each call lists its rows without raising.
- DeliverySafety.OneKeyIffNamed: a row that is for local use only is never sent as it stands and is left out
  of the equivalence.
- Matching.NormaliseTwice: upper-casing is modelled for ASCII letters and for the seventeen other characters
  whose upper case holds an ASCII letter; what it makes of the rest is dropped by the filter and left as it
  is.
- JpegStream.HotFrameRing.Add: JPEG decoding and SHA-256 are parameters.
- JpegStream.HotFrameRing.Select: a negative `count`, which the source's slice would accept, is not modelled.
- MediaConfig.GatewayFiles.Migrate: host, port and URL validation are parameters; file ownership and
  temporary files are not modelled.
- Burst.DecideBurst: telemetry marks, the OCR slot and content de-duplication are not modelled; the
  duplicate-event check before it is the store's.
- The command parser, prompt playback beyond its claim, the HTTP servers and clients, worker queues,
  authorisation refresh, camera capability files, TURN and media tokens and the performance harness: mostly
  I/O or short checks.
- Evidence-spool deletion against concurrent staging: staging and the row write are separate steps in the
  source, so the property needs an added atomicity assumption.
