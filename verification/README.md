# Aquarium controller: verified model

A Dafny 4.11 model of the parts of the aquarium controller where a mistake is hardest to see: the revision stream
between controller and browser, the path of a schedule from the editor to the duty a device drives, the ESP32 device
itself, and the durable alerts with their single-attempt notifications. `dafny verify dfyconfig.toml` checks all of
it.

## What is modelled

Where the source updates fields in place, the project has a class with those fields and methods of the same shape;
each method is proved equal to a function of the old state, and the theorems are about those functions over whole
runs. Where the source computes values, the project has functions and lemmas. Paths below are paths in the repository.

**Revision stream.** `StreamModel` gives the connection of one browser as functions and states what a stream means:
every frame must fit the frames sent before it; `StreamSafety` proves that for every sink and every run.
`StreamConnection` is the connection class, over a sink that answers each write as an arbitrary script says.
`ClientModel` and `Coordinator` do the same for the browser's coordinator, whose asynchronous callbacks are separate
operations that come at any time. `RevisionProtocol` puts both ends together with commits, in-order publishing,
pruning, controller restarts, replay windows, back-pressure, lost connections, automatic reconnects with the last
event identifier, and snapshot requests. `RevisionSafety` has the theorems over whole runs. The invariant ties what is
in flight to what the browser shows, and gives more than `docs/architecture.md` promises: as long as the controller's
own revision never falls, the browser's revision never drops before the coordinator is started again, and no delivered
frame is ever a gap.

**Schedules.** `Rounding` has half-even rounding and, built on it, rounding to binary32 as an exact function (24
significant bits, subnormal numbers included), proved monotone, odd, exact on integers of up to 24 bits and within
2^-24. `Schedule` validates, evaluates and converts graphs over real arithmetic. `Firmware` compiles graphs to integer
links and evaluates these as the device does, with three float roundings and a truncation. `DraftPoints`, `Canonical`
and `CanonicalValues` model the editor's points, their cyclic reading and the canonical points with hidden boundaries.
`ScheduleRequest` says exactly when a draft can be saved. `Pipeline` joins the bounds from editor to device, and
`EndToEnd` carries them to the duty a running device drives. `ScheduleDrafts` is the editor's reducer.

**Device.** `Pwm` rescales duties. `DeviceTime` has the wrapping counter, the epoch clock with its hourly checkpoints
and the diagnostics; counter values are compared with true times kept as history. `DeviceOutputs` has pins, overrides,
schedule replacement and the scheduled tick; `DeviceCache` says when the write-suppression cache is honest, that is,
when every channel carries the duty of the percentage it is said to carry, and exactly what each operation does to
that. `DeviceModel` is the whole device with its run loop, its storage (whose writes may fail in any edit or schedule
command) and its reboot. `DeviceSafety` has the theorems over whole runs, `DeviceRepair` those about duties out of
range, `DeviceExamples` the runs from boot in which a duty stays wrong. `DeviceClock` and `FakeEsp` are the mutable objects.

**Notifications and alerts.** `NotificationModel` is a table changed by conditional updates, with any number of
dispatchers that may crash between any two steps and that act on rows read at any earlier time. `NotificationSafety`
proves its invariant. `NotificationDispatcher` and `NotificationRuntime` are one dispatcher and its runtime as
objects; each of their atomic actions is proved to be a step of the model. `AlertModel`, `AlertSafety` and
`AlertService` treat the alert lifecycle in the same way, with the history of evaluations kept for the statements
about opening; `AlertClock` has what depends on the clock.

**Log cursor.** `LogCursor` has the JSON payload, base64url without padding (section 5 of RFC 4648) and the
canonical-form comparison.

## Results worth knowing

Some statements hold only under a condition; the project states the condition exactly.

- A canonicalised schedule repeats what the editor shows between its first and last point if and only if it does not
  have points at both minute 0 and minute 1439 with different percentages (`ExactBetweenPointsIff`), and on the whole
  day if and only if first and last percentage are equal (`ExactAllDayIff`). The bound of one minute's slope holds for
  all valid drafts that can be canonicalised, clashing ones included. The same condition decides whether a saved draft reads back as itself
  (`SavedPointsReadBack`).
- The device suppresses writes of a percentage it believes to have written. That belief is right throughout a run if
  and only if every event of it is harmless (`HonestThroughoutIff`), and then every scheduled loop is exact
  (`CacheNeverStale`). Three kinds of event can be harmful, each exactly under a condition on the state before it
  (`StepHonestIff`): a manual duty without override that is not the cached one, an edit whose storage write fails and
  after which a cached percentage means another duty, and a schedule whose storage write fails after written channels
  were released. A channel that has gone wrong stays wrong until its percentage moves, or something else writes or
  resets it (`StuckStays`, `LoopSetsRightIff`, `SetThenLoopIff`, `EditResets`, `EndedOverrideIsExact`).
- Duties are in range throughout a run if and only if no edit whose storage write fails introduces a resolution that a
  present duty does not fit (`InRangeThroughoutIff`). Such a duty stays out of range for as long as no event of the run
  mends it, and no longer (`OutOfRangeUntilMended`).
- Repeating an edit whose storage write failed stores it but repairs nothing, because the device finds nothing changed
  (`RepeatedEditResetsNothing`).
- `DeviceExamples` reaches each of these failures from boot with a steady schedule of 50 percent.
- A runtime stopped while `start` runs its first cycle still sends the rest of the batch in progress, although `stop`
  has resolved, and nothing beyond it. Without a fault, something is sent in that dispatch if and only if its batch holds a delivery
  that can be read and has a configured destination (`StopSendsIff`).
- An alert's last observation is at least one interval per observed transition after its opening, in every state of a
  run, if and only if every clear of an active alert comes that late or is refused by the schema
  (`BoundedThroughoutIff`), which a clock that never goes back ensures (`RunInTimeIsSpaced`) and other clocks need not
  (`BoundNeedsTheClock`). A clear evaluation moves the last observation back exactly when `ClearMovesBackIff` says.
- A valid draft can be canonicalised if and only if each edge has a point, a hidden point, or an identifier short enough
  for a new one (`CanonicalPoints`, `LongIdentifierFails`), and be saved if and only if its identifiers also satisfy the
  contracts (`RequestSucceedsIff`).
- An accepted conflict stays accepted through a run if and only if the run holds no refused revision for the channel and
  no snapshot that conflicts with its edits (`SilentThroughoutIff`); the snapshot that raised it does so again.

## Where code and documentation differ

The model follows the code.

- `docs/architecture.md` says that a stale heartbeat closes the stream and forces a snapshot. When heartbeats stop,
  the code only marks the data as stale and keeps the stream (`HeartbeatTimeout`); it resynchronises when a heartbeat
  names a newer revision, which never happens on a stream without lost publishes (`DeliveryNeverGaps`).
- The same document says that rescaling on a change of resolution cannot change intensity. Truncation can lose one
  step of the coarser scale (`RescaleRoundTrip`).

## Model

| member | source | states |
|---|---|---|
| StreamSafety.EveryStreamIsExact | apps/controller/src/realtime/state-event-stream.ts:137-398 | for every sink and every order of live events, replay, heartbeats and drains: the committed frames sent, and while the stream is open those sent and queued, are exactly the revisions after the requested one up to the current one, once each and in order; a resync comes at most once and last; the queue is bounded and empty unless blocked |
| StreamSafety.EveryRunKeepsValid | apps/controller/src/realtime/state-event-stream.ts:137-398 | the stream contract holds after every run, and nothing sent is taken back |
| StreamSafety.OpenStreamIsExact | apps/controller/src/realtime/state-event-stream.ts:178-398 | the same for any state that meets the stream contract |
| StreamSafety.CoherentIsConsecutive | apps/controller/src/realtime/state-event-stream.ts:322-337 | the frame-by-frame stream contract (each frame fits what was sent before it) means consecutive revisions and at most one, final, resync |
| StreamModel.AcceptSequentialKeeps | apps/controller/src/realtime/state-event-stream.ts:322-337 | an event at or below the current revision is ignored, the next one is sent, any other closes the stream with a resync; the contract holds in each case, whatever the sink answers |
| StreamModel.EnqueueSends | apps/controller/src/realtime/state-event-stream.ts:339-356 | a frame is written, queued, or overflows into a resync, and in each case the stream is the old one with exactly this frame appended or has closed |
| StreamModel.ResyncCloses | apps/controller/src/realtime/state-event-stream.ts:375-398 | a forced resync drops the queue, adds at most the one resync frame and closes, keeping the contract |
| StreamModel.DrainKeeps | apps/controller/src/realtime/state-event-stream.ts:294-305 | draining sends queued frames without changing, reordering or dropping any, until blocked, empty or closed |
| StreamModel.AcceptCommittedKeeps | apps/controller/src/realtime/state-event-stream.ts:178-191 | a live event is buffered during the replay and sequenced afterwards; either way the contract holds and the newest known revision is remembered |
| StreamModel.AcceptTransientKeeps | apps/controller/src/realtime/state-event-stream.ts:193-196 | transient frames never disturb the numbering |
| StreamModel.HeartbeatKeeps | apps/controller/src/realtime/state-event-stream.ts:273-292 | a heartbeat names a revision at least as new as everything sent, and on a lossless feed exactly that one |
| StreamModel.CloseKeeps | apps/controller/src/realtime/state-event-stream.ts:307-320 | closing drops queue and buffer and leaves a contract-abiding prefix |
| StreamModel.FinishReplayKeeps | apps/controller/src/realtime/state-event-stream.ts:198-271 | after the three refusals, replay and buffered live events together reach exactly the last of them, and the connection is live |
| StreamConnection.StateEventStreamConnection.constructor | apps/controller/src/realtime/state-event-stream.ts:152-168 | a new connection is replaying, at the requested revision, and keeps the stream contract |
| StreamConnection.StateEventStreamConnection.AcceptCommitted | apps/controller/src/realtime/state-event-stream.ts:178-191 | the method on private fields computes the modelled step and keeps the stream contract |
| StreamConnection.StateEventStreamConnection.AcceptTransient | apps/controller/src/realtime/state-event-stream.ts:193-196 | the method computes the modelled step and keeps the stream contract |
| StreamConnection.StateEventStreamConnection.FinishReplay | apps/controller/src/realtime/state-event-stream.ts:198-271 | the method sorts the live buffer, replays, goes live and keeps the stream contract |
| StreamConnection.StateEventStreamConnection.HeartbeatTick | apps/controller/src/realtime/state-event-stream.ts:273-292 | the method computes the modelled step and keeps the stream contract |
| StreamConnection.StateEventStreamConnection.Drain | apps/controller/src/realtime/state-event-stream.ts:294-305 | the loop computes the recursive drain, whatever the sink answers |
| StreamConnection.StateEventStreamConnection.Close | apps/controller/src/realtime/state-event-stream.ts:307-320 | closing is idempotent and ends the sink |
| StreamConnection.StateEventStreamConnection.AcceptSequentialEvents | apps/controller/src/realtime/state-event-stream.ts:232-255 | the replay loop stops at the first event that closed the connection and otherwise takes all of them |
| StreamConnection.StateEventStreamConnection.AcceptSequentialEvent | apps/controller/src/realtime/state-event-stream.ts:322-337 | the method computes the modelled step and says whether to go on |
| StreamConnection.StateEventStreamConnection.Enqueue | apps/controller/src/realtime/state-event-stream.ts:339-356 | the method computes the modelled step |
| StreamConnection.StateEventStreamConnection.Write | apps/controller/src/realtime/state-event-stream.ts:358-365 | a throwing sink closes the connection, a refusing one blocks it |
| StreamConnection.StateEventStreamConnection.ForceResync | apps/controller/src/realtime/state-event-stream.ts:375-398 | the method computes the modelled step |
| StreamConnection.SortedEvents | apps/controller/src/realtime/state-event-stream.ts:240-242 | the buffered events come out complete and in ascending revision order |
| ClientModel.EveryRunIsValid | apps/web/src/controller-state-coordinator.ts:87-412 | over every run: fresh data means a snapshot at the shown revision; a snapshot is never ahead of it; an open stream has the required revision equal to the shown one; a ready stream with a lagging snapshot has a fetch in flight or shows an error |
| ClientModel.ApplyKeepsValid | apps/web/src/controller-state-coordinator.ts:87-448 | each public method and callback keeps that invariant |
| ClientModel.WhyRevisionChanges | apps/web/src/controller-state-coordinator.ts:171-198 | the shown revision changes only by a restart, by an acceptable snapshot of the current generation, or by one through the next committed event of the current stream |
| ClientModel.RevisionDropsOnlyAfterResync | apps/web/src/controller-state-coordinator.ts:396-412 | over any run without stop and authoritative resync the shown revision never goes down |
| Coordinator.ControllerStateCoordinator.constructor | apps/web/src/controller-state-coordinator.ts:66-78 | the initial state is the model's and satisfies the invariant |
| Coordinator.ControllerStateCoordinator.Start | apps/web/src/controller-state-coordinator.ts:87-98 | starting resets the view and asks for a snapshot in a new generation |
| Coordinator.ControllerStateCoordinator.Stop | apps/web/src/controller-state-coordinator.ts:100-111 | stopping closes the stream and abandons the fetch of the generation |
| Coordinator.ControllerStateCoordinator.Refresh | apps/web/src/controller-state-coordinator.ts:113-123 | refreshing raises the required revision to the shown one |
| Coordinator.ControllerStateCoordinator.Retry | apps/web/src/controller-state-coordinator.ts:125-144 | retrying closes the stream and reconnects after the next snapshot |
| Coordinator.ControllerStateCoordinator.FetchSucceeded | apps/web/src/controller-state-coordinator.ts:171-198 | an answer of another generation changes nothing, one that is too old is asked for again, any other is accepted and may open a stream |
| Coordinator.ControllerStateCoordinator.FetchFailed | apps/web/src/controller-state-coordinator.ts:199-216 | a failure of the current generation is shown as an error with stale data |
| Coordinator.ControllerStateCoordinator.StreamOpened | apps/web/src/controller-state-coordinator.ts:247-257 | only the current stream counts |
| Coordinator.ControllerStateCoordinator.StreamErrored | apps/web/src/controller-state-coordinator.ts:259-272 | an error makes the stream unready and the data stale |
| Coordinator.ControllerStateCoordinator.HeartbeatTimeout | apps/web/src/controller-state-coordinator.ts:435-447 | a silent stream makes the data stale |
| Coordinator.ControllerStateCoordinator.HandleMessage | apps/web/src/controller-state-coordinator.ts:288-348 | each kind of message has the modelled effect |
| Coordinator.ControllerStateCoordinator.RequestSnapshot | apps/web/src/controller-state-coordinator.ts:146-167 | at most one fetch is in flight |
| Coordinator.ControllerStateCoordinator.OpenStream | apps/web/src/controller-state-coordinator.ts:219-286 | a stream that cannot be created or listened to is an error |
| Coordinator.ControllerStateCoordinator.HandleCommittedEvent | apps/web/src/controller-state-coordinator.ts:372-394 | old events are ignored, the next one is taken, a gap resynchronises |
| Coordinator.ControllerStateCoordinator.Resynchronize | apps/web/src/controller-state-coordinator.ts:396-412 | the stream is closed and a snapshot at least as new as required is asked for |
| Coordinator.ControllerStateCoordinator.ApplyDeviceContact | apps/web/src/controller-state-coordinator.ts:350-370 | a later contact updates the device in the snapshot, an earlier one does not |
| Coordinator.ControllerStateCoordinator.TouchStream | apps/web/src/controller-state-coordinator.ts:414-429 | an invalid clock closes the stream |
| Coordinator.ControllerStateCoordinator.CloseStream | apps/web/src/controller-state-coordinator.ts:450-459 | the method computes the modelled step |
| RevisionSafety.EveryRunKeepsInv | apps/controller/src/realtime/state-event-stream.ts:74-433 | the joint invariant of outbox, connection, frames in flight, fetches and browser holds in every run of commits, publishing, pruning, restarts, replay, back-pressure, reconnects and fetches |
| RevisionProtocol.StepKeepsInv | apps/web/src/controller-state-coordinator.ts:87-459 | every step of either side keeps the joint invariant |
| RevisionSafety.ClientNeverAhead | apps/web/src/controller-state-coordinator.ts:146-217 | the browser never shows a revision the controller has not committed, and fresh data is one snapshot at that revision |
| RevisionSafety.RevisionNeverDrops | apps/web/src/controller-state-coordinator.ts:396-412 | while the controller's own revision never falls, the browser's does not either until the coordinator is started again, not even through authoritative resyncs and controller restarts |
| RevisionSafety.DeliveryNeverGaps | apps/web/src/controller-state-coordinator.ts:307-394 | a delivered committed frame is the committed event itself and at most one ahead of the browser; no heartbeat is ahead of it; no resync is for a gap or for being ahead; only a resync or an invalid clock ends the stream |
| RevisionSafety.QuiescentClientIsCurrent | apps/web/src/controller-state-coordinator.ts:372-394 | once everything is published and delivered on a live stream, the browser shows the controller's revision |
| RevisionSafety.OneFetchPerGeneration | apps/web/src/controller-state-coordinator.ts:146-153 | over every run from boot, of all requests made so far at most one of each generation is unanswered |
| RevisionSafety.NoRequestWhileOutstanding | apps/web/src/controller-state-coordinator.ts:146-167 | no step asks again while a request of the same generation is outstanding; requests are never lost, and each step adds at most one and answers at most its own |
| RevisionProtocol.ReplayIsComplete | apps/controller/src/realtime/state-event-stream.ts:401-433 | the window read and the live events buffered since then leave no revision out |
| RevisionProtocol.WindowRefusedIff | apps/controller/src/realtime/state-event-stream.ts:401-433 | a replay is refused if and only if the requested revision is ahead, pruned, or more than the limit behind; otherwise the window holds every later revision |
| RevisionProtocol.NextFrame | apps/controller/src/realtime/state-event-stream.ts:198-292 | what the next frame in flight may say, compared with what the browser has read |
| Rounding.RoundHalfEvenIsNearest | packages/domain/src/schedule.ts:341-364 | half-even rounding gives a nearest integer, the even one of two |
| Rounding.NearestEvenIsUnique | packages/domain/src/schedule.ts:341-364 | there is only one such integer |
| Rounding.FroundMonotone | packages/fake-esp/src/fake-esp.ts:1395-1403 | rounding to binary32 is monotone |
| Rounding.FroundExact | packages/fake-esp/src/fake-esp.ts:1395-1403 | integers of up to 24 bits are exact in binary32 |
| Rounding.FroundClose | packages/fake-esp/src/fake-esp.ts:1395-1403 | away from zero the relative error of binary32 rounding is at most 2^-24 |
| Rounding.FroundAbsolute | packages/fake-esp/src/fake-esp.ts:1395-1403 | up to 100 the absolute error is at most 100 * 2^-24, subnormal numbers included |
| Schedule.ValidateScheduleGraph | packages/domain/src/schedule.ts:128-272 | validation succeeds exactly for contiguous, continuous, full-day, periodic graphs, and otherwise lists exactly the defects there are |
| Schedule.SoundIffPeriodic | packages/domain/src/schedule.ts:128-272 | a graph is periodic if and only if no defect is to be reported |
| Schedule.ValidatePoint | packages/domain/src/schedule.ts:386-435 | exactly the defects of one point |
| Schedule.EvaluateSchedulePercent | packages/domain/src/schedule.ts:275-290 | evaluation finds a covering segment at every whole minute of the day and throws only for other minutes; the value is the curve's and a percentage |
| Schedule.CurveIsAFunction | packages/domain/src/schedule.ts:281-285 | which covering segment is used makes no difference |
| Schedule.CoveringSegmentsAgree | packages/domain/src/schedule.ts:437-444 | covering segments agree at their joints |
| Schedule.ScheduleGraphFromPoints | packages/domain/src/schedule.ts:108-122 | the graph joins each point to the next |
| Firmware.CompileFirmwareSchedule | packages/domain/src/schedule-compiler.ts:44-95 | compilation succeeds exactly for distinct pins within range and acceptable throttles and gains, and keeps channel and segment order |
| Firmware.CompileKeepsShape | packages/domain/src/schedule-compiler.ts:97-116 | compiled links are acceptable to the firmware, keep coverage of the whole day, joints and the wrap; no minute is uncovered |
| Firmware.FirmwareScheduledValue | packages/fake-esp/src/fake-esp.ts:1386-1407 | the loop computes the first applying link's value, or 0 |
| Firmware.LinkValueInHull | packages/fake-esp/src/fake-esp.ts:1391-1404 | in spite of three float roundings and truncation the value stays between the link's endpoints |
| Firmware.ScheduledValueIsPercent | packages/fake-esp/src/fake-esp.ts:1386-1407 | the device's percentage is a percentage |
| Firmware.FirmwareTracksSchedule | packages/domain/src/schedule-compiler.ts:97-116 | the device's percentage is at most 0.5 above and less than 1.5 below the exact product of schedule, throttle and gain, up to 300 * 2^-24 |
| Firmware.DeviceTracksHost | packages/domain/src/schedule.ts:370-384 | the device's 8-bit duty is at most 1 above and at most 5 below the host's |
| Firmware.HostPwmClose | packages/domain/src/schedule.ts:370-384 | the host's duty is within one half of the exact one |
| Firmware.FloatTruncation | packages/fake-esp/src/test-fixtures/firmware-goldens.ts:19-23 | falling from 25 to 0 in five minutes, exact arithmetic gives 10 at minute 3 but the device 9, duty 22: the float roundings matter |
| DraftPoints.NormalizeSorts | apps/web/src/combined-schedule-state.ts:731-741 | normal order is a sorted permutation numbered by index |
| DraftPoints.NormalIsFixed | apps/web/src/combined-schedule-state.ts:731-741 | normalising a normal list changes nothing |
| Canonical.ScheduleValueAt | apps/web/src/combined-schedule-state.ts:396-445 | the loops compute the cyclic reading of the draft |
| Canonical.ValidateDraft | apps/web/src/combined-schedule-state.ts:335-369 | no issue is raised exactly for valid drafts |
| Canonical.CanonicalSchedulePoints | apps/web/src/combined-schedule-state.ts:662-682 | the method computes the canonical points, or fails where an identifier would be too long |
| Canonical.CanonicalPoints | apps/web/src/combined-schedule-state.ts:662-714 | canonicalisation succeeds exactly when each edge has a point, a hidden point whose identifier can be reused, or room for a new identifier within 128 characters |
| Canonical.LongIdentifierFails | apps/web/src/combined-schedule-state.ts:703-714 | a valid draft under an identifier of 109 characters that cannot be canonicalised |
| ScheduleRequest.ReplaceRequestPoints | apps/web/src/combined-schedule-state.ts:371-383 | an invalid draft is refused, and so is one whose canonical points cannot be made or do not satisfy the schema of the request; any other is sent in canonical form |
| ScheduleRequest.RequestSucceedsIff | apps/web/src/combined-schedule-state.ts:371-383 | exactly when a draft can be saved, as conditions on the draft |
| ScheduleRequest.CanonicalFitsSchema | packages/contracts/src/controller.ts:1400-1403 | canonical points are never too few or too many for the schema, and their minutes and percentages always satisfy it |
| ScheduleRequest.ContractDraftSendsIff | packages/contracts/src/controller.ts:1400-1403 | where all identifiers of the draft satisfy the contracts the schema refuses nothing |
| Canonical.CanonicalTracesOpened | apps/web/src/combined-schedule-state.ts:662-714 | the canonical points trace the draft's cycle cut open at midnight, both ends at the boundary percentage |
| CanonicalValues.CanonicalGraphIsPeriodic | apps/web/src/combined-schedule-state.ts:662-682 | every valid draft that can be canonicalised gives a graph that validates |
| CanonicalValues.CanonicalTracksDraft | apps/web/src/combined-schedule-state.ts:396-445 | at every minute the canonical graph is within one minute's slope of the wrap segment of what the editor shows, and equal between first and last point unless both edges clash |
| CanonicalValues.ExactBetweenPointsIff | apps/web/src/combined-schedule-state.ts:666-674 | the graph repeats the draft between its first and last point if and only if the edge points do not disagree |
| CanonicalValues.ExactAllDayIff | apps/web/src/combined-schedule-state.ts:662-682 | it does so all day if and only if first and last percentage are equal |
| CanonicalValues.CyclicValueIsPeriodic | apps/web/src/combined-schedule-state.ts:404-406 | the reading repeats every 1440 minutes; the special case of minute 1440 does not show |
| CanonicalValues.OpenedTracks | apps/web/src/combined-schedule-state.ts:768-779 | the bound, on cycles of points |
| Pipeline.DeviceTracksDraft | apps/web/src/combined-schedule-state.ts:371-383 | from editor to device: the percentage the device computes is within wrap slope, rounding and truncation of what the editor shows, scaled by throttle and gain |
| EndToEnd.RunningDeviceTracksDraft | packages/fake-esp/src/fake-esp.ts:890-924 | from editor to a running device: in every run from boot whose manual duties are overrides and whose storage works, every scheduled loop leaves each attached, free channel with links compiled from a draft at a duty within that band |
| EndToEnd.HostStepUp | packages/domain/src/schedule.ts:370-384 | a constant 1.5 percent gives the device one step more than the host, at every minute |
| EndToEnd.HostStepsDown | packages/domain/src/schedule.ts:370-384 | a rise from 0.5 to 10.5 percent gives the device five steps less than the host just before its top |
| ScheduleDrafts.SynchronizeState | apps/web/src/combined-schedule-state.ts:578-627 | the loop computes the merge of all sources |
| ScheduleDrafts.EveryRunIsValid | apps/web/src/combined-schedule-state.ts:140-321 | over every action sequence points are sorted with position equal to index, dirty drafts have a pinned revision, selected points and channel exist |
| ScheduleDrafts.ReduceKeepsValid | apps/web/src/combined-schedule-state.ts:140-321 | each action keeps that |
| ScheduleDrafts.SnapshotRespectsEdits | apps/web/src/combined-schedule-state.ts:585-612 | a snapshot of an unchanged schedule leaves a dirty draft's points alone and flags a conflict exactly when its new graph differs from draft and baseline |
| ScheduleDrafts.UnsavedEditsSurvive | apps/web/src/combined-schedule-state.ts:578-627 | through any run that does not edit the channel its unsaved points stay, unless the server once had exactly these points |
| ScheduleDrafts.AcceptedConflictReturns | apps/web/src/combined-schedule-state.ts:279-298 | accepting a conflict does not silence it: the same snapshot raises it again |
| ScheduleDrafts.SilentThroughoutIff | apps/web/src/combined-schedule-state.ts:279-321 | over every run: a channel without a conflict, as after accepting one, stays without exactly when the run holds no refused revision for it and no snapshot that conflicts with its unsaved edits |
| ScheduleDrafts.DiscardUndoesEdits | apps/web/src/combined-schedule-state.ts:236-260 | discarding undoes any run of edits |
| ScheduleDrafts.SavedPointsReadBack | apps/web/src/combined-schedule-state.ts:556-576 | what is read back after saving is the draft itself if and only if its edge points do not disagree |
| ScheduleDrafts.ReadBackIsLevelled | apps/web/src/combined-schedule-state.ts:385-394 | the hidden boundary points vanish again when read back |
| DeviceTime.ElapsedIsTrue | packages/fake-esp/src/fake-esp.ts:1417-1424 | differences of the wrapping counter are true differences modulo 2^32, and exact below it |
| DeviceTime.ServiceKeepsClock | packages/fake-esp/src/fake-esp.ts:396-445 | servicing keeps clock, spacing of attempts and drift in order |
| DeviceTime.SyncKeepsClock | packages/fake-esp/src/fake-esp.ts:376-394 | synchronising, however often, keeps the wear limit |
| DeviceTime.DriftIsBounded | packages/fake-esp/src/fake-esp.ts:316-326 | the clock lags the ideal one by at most a second per checkpoint since the last synchronisation and never leads it |
| DeviceTime.ClockNeverGoesBack | packages/fake-esp/src/fake-esp.ts:434-436 | a checkpoint does not set the clock back |
| DeviceTime.DueIsSpaced | packages/fake-esp/src/fake-esp.ts:413-422 | an attempt that is due comes an hour after the previous one, unless it is the one urgent attempt |
| DeviceTime.ServiceKeepsDiagnostics | packages/fake-esp/src/fake-esp.ts:447-474 | diagnostic writes keep the same wear limit, and what is not dirty is what is stored |
| DeviceTime.RecordKeepsDiagnostics | packages/fake-esp/src/fake-esp.ts:952-982 | recording an error keeps the wear limit and the sequence range |
| Pwm.RescaleMonotone | packages/fake-esp/src/fake-esp.ts:1242-1251 | rescaling is monotone |
| Pwm.RescaleKeepsRange | packages/fake-esp/src/fake-esp.ts:1242-1251 | rescaling keeps both ends and hence the range |
| Pwm.RescaleRoundTrip | packages/fake-esp/src/fake-esp.ts:1242-1258 | to a finer resolution and back loses at most 1, and nothing exactly when the intermediate value was not truncated |
| Pwm.PercentDutyInRange | packages/fake-esp/src/fake-esp.ts:911-913 | a percentage gives a duty in range |
| DeviceOutputs.SetKeeps | packages/fake-esp/src/fake-esp.ts:727-768 | a manual duty is in range, equal to its last value and its stored state on its pin, and leaves these of every other pin |
| DeviceOutputs.RescaleKeeps | packages/fake-esp/src/fake-esp.ts:796-816 | a change of resolution, over the attached pins in any order, keeps that |
| DeviceOutputs.EndKeeps | packages/fake-esp/src/fake-esp.ts:1008-1034 | ending overrides keeps that |
| DeviceOutputs.ScheduleReplaces | packages/fake-esp/src/fake-esp.ts:856-888 | replacing a schedule switches off and detaches exactly the pins it drops and attaches exactly those it uses that do not fail; every other duty stays |
| DeviceOutputs.ExpiryKeepsValid | packages/fake-esp/src/fake-esp.ts:1008-1034 | the whole expiry check keeps the invariant of pins, states and channels |
| DeviceCache.TickIsExact | packages/fake-esp/src/fake-esp.ts:890-924 | with an honest cache a tick leaves every attached, free channel at exactly the duty of its schedule, and the cache honest |
| DeviceCache.TickSetsRightIff | packages/fake-esp/src/fake-esp.ts:900-923 | exactly when the loop over all channels leaves a free one right, whatever the cache says |
| DeviceCache.SetIsHarmlessIff | packages/fake-esp/src/fake-esp.ts:745-766 | a manual duty keeps the cache honest exactly when it is refused, is an override, is for no written channel, or is the duty of the cached percentage |
| DeviceCache.FailedEditKeepsDutyIff | packages/fake-esp/src/fake-esp.ts:792-796 | an edit whose storage write fails keeps the duties in range exactly when they all fit the new resolution |
| DeviceCache.FailedEditKeepsCacheIff | packages/fake-esp/src/fake-esp.ts:790-816 | it keeps the cache honest exactly when no written, free channel has another duty at the new resolution |
| DeviceCache.FailedScheduleKeepsCacheIff | packages/fake-esp/src/fake-esp.ts:856-868 | a schedule whose storage write fails keeps the cache honest exactly when no released channel had been written |
| DeviceCache.RescaleIsHarmless | packages/fake-esp/src/fake-esp.ts:796-816 | a stored edit keeps the cache honest, because it resets the cache of every attached channel |
| DeviceModel.EveryRunIsValid | packages/fake-esp/src/fake-esp.ts:337-374 | the device invariant holds through every run of commands, loops, attach failures, storage failures and reboots, across rollovers |
| DeviceModel.OverrideEndsOnTime | packages/fake-esp/src/fake-esp.ts:1008-1016 | an override ends at the first check at which its true age is two minutes, never earlier, rollover or not |
| DeviceSafety.EveryRunIsBounded | packages/fake-esp/src/fake-esp.ts:376-479 | at the end of every run: what is held of a pin agrees; all time and diagnostic writes of the boot but one each are an hour apart; the clock lags by at most a second per checkpoint |
| DeviceSafety.ClockNeverGoesBackInRuns | packages/fake-esp/src/fake-esp.ts:316-326 | between synchronisations and reboots the clock never goes back |
| DeviceSafety.LoopEndsOverrides | packages/fake-esp/src/fake-esp.ts:344-350 | overrides end on time over whole loops; none outlives a loop by more than the check interval |
| DeviceSafety.StepInRangeIff | packages/fake-esp/src/fake-esp.ts:770-818 | an event keeps all duties in range exactly when it is not an edit whose storage write fails at a resolution that a present duty does not fit |
| DeviceSafety.InRangeThroughoutIff | packages/fake-esp/src/fake-esp.ts:337-374 | over every run: all duties are in range throughout exactly when every event of it is such |
| DeviceRepair.LoopMendsIff | packages/fake-esp/src/fake-esp.ts:337-374 | a loop brings a duty out of range back exactly when it writes the pin, a condition on the state before it |
| DeviceRepair.StepMendsIff | packages/fake-esp/src/fake-esp.ts:691-818 | exactly which events bring a duty out of range back |
| DeviceRepair.OutOfRangeUntilMended | packages/fake-esp/src/fake-esp.ts:337-374 | over every run, edits and reboots included: a duty out of range stays out of range throughout exactly when no event mends it |
| DeviceSafety.StepHonestIff | packages/fake-esp/src/fake-esp.ts:890-924 | an event keeps the cache honest exactly when it is harmless, a condition on the state before it |
| DeviceSafety.HonestThroughoutIff | packages/fake-esp/src/fake-esp.ts:337-374 | over every run: the cache is honest throughout exactly when every event of it is harmless |
| DeviceSafety.CacheNeverStale | packages/fake-esp/src/fake-esp.ts:890-924 | in every run of harmless events every scheduled loop leaves each attached, free channel exactly at its scheduled duty |
| DeviceSafety.OrdinaryRunsAreExact | packages/fake-esp/src/fake-esp.ts:337-374 | so does it in every run from boot whose manual duties are overrides and whose storage works, and there all duties are in range |
| DeviceSafety.LoopSetsRightIff | packages/fake-esp/src/fake-esp.ts:361-368 | exactly when a scheduled loop leaves a free channel right, whatever happened before |
| DeviceSafety.SetThenLoopIff | packages/fake-esp/src/fake-esp.ts:745-766 | after a manual duty without override the next scheduled loop is right exactly when the percentage has moved or the manual duty is the scheduled one |
| DeviceSafety.StuckStays | packages/fake-esp/src/fake-esp.ts:910-922 | a wrong duty behind an unmoved percentage stays, loop after loop, through every run without a command for the pin, an edit that reattaches, a schedule that drops or replaces the channel, a moved percentage and a reboot |
| DeviceSafety.EditResets | packages/fake-esp/src/fake-esp.ts:796-816 | a stored edit that reattaches makes the next loop write every attached channel |
| DeviceSafety.RepeatedEditResetsNothing | packages/fake-esp/src/fake-esp.ts:783-796 | repeating an edit whose storage write failed stores it but repairs neither duties nor cache |
| DeviceSafety.EndedOverrideIsExact | packages/fake-esp/src/fake-esp.ts:1008-1034 | a channel whose override ends in a scheduled loop is exactly as scheduled after it, whatever the cache said |
| DeviceSafety.StepUpToDateIff | packages/fake-esp/src/fake-esp.ts:1103-1111 | storage falls behind the settings exactly when an edit takes effect without being stored |
| DeviceSafety.RebootRestores | packages/fake-esp/src/fake-esp.ts:481-520 | a reboot restores the stored settings, which are the present ones exactly when storage is up to date, and the schedule; it forgets overrides, starts all pins at zero and the clock at the last checkpoint |
| DeviceSafety.ScheduleFits | packages/fake-esp/src/fake-esp.ts:1282-1284 | a valid schedule is never refused for its length |
| DeviceExamples.RunningIsReachable | packages/fake-esp/src/fake-esp.ts:337-374 | booted with a steady schedule at 50 percent, the device drives duty 127 after its first loop |
| DeviceExamples.StrayDutyStays | packages/fake-esp/src/fake-esp.ts:759-766 | from there: a manual duty of 200 without override is still there after the next scheduled loop |
| DeviceExamples.BrokenEditStays | packages/fake-esp/src/fake-esp.ts:790-796 | from there: an edit to ten bits whose write fails leaves duty 127 after the next scheduled loop, although every duty fits |
| DeviceExamples.BrokenEditOverflows | packages/fake-esp/src/fake-esp.ts:790-796 | from there: an edit to one bit whose write fails leaves duty 127 out of range |
| DeviceExamples.BrokenScheduleStays | packages/fake-esp/src/fake-esp.ts:856-868 | from there: an empty schedule whose write fails leaves the pin dark, reattached and never written again by the loop |
| DeviceClock.CheckpointedClock.ServiceTimeCheckpoint | packages/fake-esp/src/fake-esp.ts:396-445 | the method computes the modelled step |
| DeviceClock.CheckpointedClock.QueueTimeCheckpoint | packages/fake-esp/src/fake-esp.ts:376-394 | the method computes the modelled step |
| DeviceClock.CheckpointedClock.Synchronize | packages/fake-esp/src/fake-esp.ts:662-666 | the command sets the clock and queues an immediate checkpoint |
| DeviceClock.CheckpointedClock.CurrentEpochSeconds | packages/fake-esp/src/fake-esp.ts:316-326 | the method reads the modelled clock |
| DeviceClock.CheckpointedClock.CurrentMinuteOfDay | packages/fake-esp/src/fake-esp.ts:328-335 | the minute of the day of that clock |
| DeviceClock.DiagnosticStore.ServiceDiagnosticPersistence | packages/fake-esp/src/fake-esp.ts:447-474 | the method computes the modelled step |
| DeviceClock.DiagnosticStore.RecordLastError | packages/fake-esp/src/fake-esp.ts:952-982 | the method computes the modelled step |
| DeviceClock.DiagnosticStore.ResolveLastErrorForPin | packages/fake-esp/src/fake-esp.ts:984-1006 | the method computes the modelled step |
| FakeEsp.PinBoard.SetDuty | packages/fake-esp/src/fake-esp.ts:745-766 | the method computes the modelled step and its outcome |
| FakeEsp.PinBoard.AttachPin | packages/fake-esp/src/fake-esp.ts:1036-1046 | the method computes the modelled step |
| FakeEsp.PinBoard.RescalePins | packages/fake-esp/src/fake-esp.ts:798-816 | the loop over attached pins, in any order, rescales each of them once |
| FakeEsp.PinBoard.EndDueOverrides | packages/fake-esp/src/fake-esp.ts:1008-1034 | the loop over pin states, in any order, ends exactly the due overrides |
| FakeEsp.PinBoard.AdoptSchedule | packages/fake-esp/src/fake-esp.ts:869-874 | the method computes the modelled adoption: every channel unwritten |
| FakeEsp.PinBoard.ReleasePins | packages/fake-esp/src/fake-esp.ts:856-864 | the loop over former channels releases exactly those not used again |
| FakeEsp.PinBoard.DriveSchedule | packages/fake-esp/src/fake-esp.ts:900-923 | the loop over channels computes the modelled tick |
| FakeEsp.FakeEspActor.SetCommand | packages/fake-esp/src/fake-esp.ts:727-768 | the command computes the modelled step and keeps the device invariant |
| FakeEsp.FakeEspActor.EditCommand | packages/fake-esp/src/fake-esp.ts:770-818 | the command computes the modelled step, the storage write that fails before the rescaling loop included, and keeps the invariant |
| FakeEsp.FakeEspActor.ScheduleCommand | packages/fake-esp/src/fake-esp.ts:691-708 | the command computes the modelled step, the storage write that fails after the release of pins included, and keeps the invariant |
| FakeEsp.FakeEspActor.AttachMissing | packages/fake-esp/src/fake-esp.ts:926-950 | the loop attaches what can be attached and reports the first failure |
| FakeEsp.FakeEspActor.SyncCommand | packages/fake-esp/src/fake-esp.ts:662-672 | the command computes the modelled step and keeps the invariant |
| FakeEsp.FakeEspActor.Loop | packages/fake-esp/src/fake-esp.ts:337-374 | the four stages compute the modelled loop and keep the invariant |
| FakeEsp.BootDevice | packages/fake-esp/src/fake-esp.ts:481-520 | booting computes the modelled device, which satisfies the invariant |
| NotificationSafety.AtMostOnce | apps/controller/src/application/alerts/notification-dispatcher.ts:208-346 | across crashes, restarts and concurrent dispatchers: at most one send per delivery; delivered means exactly one, successful; failed means none successful; a checkpoint means the recorder has the final outcome |
| NotificationSafety.EveryRunKeepsInv | apps/controller/src/application/alerts/notification-dispatcher.ts:145-547 | the invariant of table, dispatchers, notifiers and recorder holds in every run |
| NotificationSafety.StepKeepsInv | apps/controller/src/application/alerts/notification-dispatcher.ts:145-547 | each atomic step, crash included, keeps it |
| NotificationSafety.AuditsAgree | apps/controller/src/application/alerts/notification-dispatcher.ts:461-517 | everything the recorder was told about a delivery is identical and still true |
| NotificationSafety.StatusMovesForward | packages/contracts/src/controller.ts:782-864 | rows are never lost and move only from pending over attempting to one terminal status |
| NotificationSafety.OutcomesAreFinal | apps/controller/src/application/alerts/notification-dispatcher.ts:360-391 | a terminal outcome never changes again |
| NotificationSafety.ClaimKeeps | apps/controller/src/application/alerts/notification-dispatcher.ts:239-282 | a conditional claim based on any earlier read is exclusive |
| NotificationSafety.CompleteKeeps | apps/controller/src/application/alerts/notification-dispatcher.ts:360-439 | a completion only touches the attempt it belongs to |
| NotificationSafety.InterruptKeeps | apps/controller/src/application/alerts/notification-dispatcher.ts:165-203 | recovery based on any earlier read only touches unfinished attempts |
| NotificationSafety.CheckpointKeeps | apps/controller/src/application/alerts/notification-dispatcher.ts:510-546 | an audit checkpoint only follows the recorder's acceptance of the same row |
| NotificationDispatcher.AlertNotificationDispatcher.DispatchPending | apps/controller/src/application/alerts/notification-dispatcher.ts:208-346 | the oldest pending deliveries are each settled and audited as reported, exactly those that can be read and have a configured destination are sent, once each, and after a fault those of a prefix; no other pending delivery is touched; what happens is a run of the model |
| NotificationDispatcher.AlertNotificationDispatcher.DispatchOne | apps/controller/src/application/alerts/notification-dispatcher.ts:231-343 | one selected delivery is claimed, sent exactly if it can be, finished and audited |
| NotificationDispatcher.AlertNotificationDispatcher.RecoverInterrupted | apps/controller/src/application/alerts/notification-dispatcher.ts:145-206 | unfinished attempts become outcome-unknown without another send, and nothing is left unaudited |
| NotificationDispatcher.AlertNotificationDispatcher.FlushOutcomes | apps/controller/src/application/alerts/notification-dispatcher.ts:441-459 | the loop ends and leaves no terminal row unrecorded |
| NotificationDispatcher.AlertNotificationDispatcher.RecordOutcome | apps/controller/src/application/alerts/notification-dispatcher.ts:461-547 | one terminal row is told to the recorder and then checkpointed |
| NotificationDispatcher.AlertNotificationDispatcher.FinishRow | apps/controller/src/application/alerts/notification-dispatcher.ts:348-439 | the conditional completion |
| NotificationDispatcher.OldestIsUnique | apps/controller/src/application/alerts/notification-dispatcher.ts:221-228 | the table determines the batch |
| NotificationDispatcher.SendsSomethingIff | apps/controller/src/application/alerts/notification-dispatcher.ts:284-343 | a batch calls a notifier exactly when a delivery of it can be read and has a configured destination |
| NotificationDispatcher.ReachedSendsOnce | apps/controller/src/application/alerts/notification-dispatcher.ts:145-547 | whatever the methods of a dispatcher reach keeps at most one send per delivery, and statuses that tell the truth about sends |
| NotificationDispatcher.SelectOldest | apps/controller/src/application/alerts/notification-dispatcher.ts:221-228 | the selection is the beginning of the matching rows in order of time and identifier |
| NotificationRuntime.AlertNotificationRuntime.RunCycle | apps/controller/src/application/alerts/notification-runtime.ts:116-129 | a cycle ends; then nothing is pending or unaudited, or the runtime has failed for good, or it was stopped, and then exactly what the batch in progress holds to be sent was sent, up to a fault |
| NotificationRuntime.AlertNotificationRuntime.Start | apps/controller/src/application/alerts/notification-runtime.ts:57-76 | starting recovers first; a second start and a start after a stop are refused; a runtime that comes up ready has drained and audited the outbox, and every interrupted attempt is outcome-unknown for good; stopped during recovery it sends nothing, stopped during its first cycle exactly what the batch in progress holds to be sent, up to a fault |
| NotificationRuntime.AlertNotificationRuntime.constructor | apps/controller/src/application/alerts/notification-runtime.ts:28-51 | a new runtime is neither started nor stopped, and valid |
| NotificationRuntime.AlertNotificationRuntime.Poll | apps/controller/src/application/alerts/notification-runtime.ts:94-114 | a poll runs a cycle; afterwards the next poll is scheduled, with the outbox drained and audited, or the runtime has failed, or it was stopped and sent exactly what the batch in progress holds to be sent, up to a fault |
| NotificationRuntime.AlertNotificationRuntime.Stop | apps/controller/src/application/alerts/notification-runtime.ts:78-92 | between cycles: a stopped runtime is never ready nor scheduled again and hands out an earlier error |
| NotificationRuntime.StopSendsIff | apps/controller/src/application/alerts/notification-runtime.ts:78-129 | without a fault, something is sent in the dispatch during which stop was called if and only if its batch holds a delivery that can be read and has a configured destination; each such delivery is sent once |
| NotificationRuntime.BrokenStopSendsIff | apps/controller/src/application/alerts/notification-runtime.ts:78-129 | with a fault the same holds of the deliveries up to some point of that batch |
| NotificationRuntime.AlertNotificationRuntime.Fail | apps/controller/src/application/alerts/notification-runtime.ts:131-148 | the first error stays and stops the runtime |
| AlertSafety.EveryRunIsValid | apps/controller/src/application/alerts/alert-service.ts:446-782 | over every run, with any clock and any failures: rows satisfy the snapshot schema, pending conditions are unbroken spells of matches, active alerts have nothing pending, intents are in order |
| AlertSafety.ApplyKeeps | apps/controller/src/application/alerts/alert-service.ts:446-782 | each operation keeps that |
| AlertSafety.OpensExactlyWhenDue | apps/controller/src/application/alerts/alert-service.ts:561-588 | an alert opens or reopens exactly when it is not active, its condition has matched for the rule's delay since the last clear, recovery or disabled evaluation, and the clock is not behind the stored last match |
| AlertSafety.OpenedAfterUnbrokenMatches | apps/controller/src/application/alerts/alert-service.ts:561-588 | the same spelled out over the history of evaluations |
| AlertSafety.EveryOpeningWasDue | apps/controller/src/application/alerts/alert-service.ts:446-588 | every opening and reopening recorded in any run from the empty service, with any clock and any failures, had its unbroken matches over the delay of its rule |
| AlertClock.ClearMovesBackIff | apps/controller/src/application/alerts/alert-service.ts:514-527 | exactly when a clear evaluation moves the last observation back |
| AlertClock.EvaluationSucceedsInTime | apps/controller/src/application/alerts/alert-service.ts:446-489 | with a clock that never goes back evaluation fails only for an invalid rule |
| AlertClock.OperatorSucceedsInTime | apps/controller/src/application/alerts/alert-service.ts:590-782 | with such a clock operator actions fail only for what was asked |
| AlertClock.RuleBoundedIff | apps/controller/src/application/alerts/alert-service.ts:491-588 | one evaluation, with any clock, keeps every last observation at least one interval per observed transition after its opening exactly when it is no clear of an active alert that is too early for that and yet accepted by the schema |
| AlertClock.OperatorKeepsBound | apps/controller/src/application/alerts/alert-service.ts:590-782 | operator actions keep it whatever the clock says |
| AlertClock.BoundedThroughoutIff | apps/controller/src/application/alerts/alert-service.ts:446-782 | over every run, with any clock and any failures: it holds in every state exactly when every clear of an active alert is spaced |
| AlertClock.RunInTimeIsSpaced | apps/controller/src/application/alerts/alert-service.ts:446-489 | with a clock that never goes back every clear is spaced |
| AlertClock.LastObservationBound | apps/controller/src/application/alerts/alert-service.ts:539-547 | over any run with spaced clears, or with such a clock, the last observation is at least interval times observations after the opening |
| AlertClock.BoundNeedsTheClock | apps/controller/src/application/alerts/alert-service.ts:514-527 | a run with a clear that is not spaced, and the bound broken by it |
| AlertSafety.IntentsAreOwed | apps/controller/src/application/alerts/alert-service.ts:1195-1260 | the intents are exactly one per destination for every transition but observations, in order, with distinct deduplication keys |
| AlertSafety.CommitKeepsIntents | apps/controller/src/application/alerts/alert-service.ts:1018-1075 | each commit adds exactly its own intents under a fresh revision |
| AlertSafety.RecoveredKeeps | packages/contracts/src/controller.ts:577-640 | a recovery that satisfies the schema keeps the row invariant |
| AlertService.AlertService.constructor | apps/controller/src/application/alerts/alert-service.ts:348-380 | a service with distinct destinations starts empty and satisfies the invariant |
| AlertService.AlertService.EvaluateObservation | apps/controller/src/application/alerts/alert-service.ts:446-489 | the method computes the modelled evaluation and keeps the invariant |
| AlertService.AlertService.EvaluateOne | apps/controller/src/application/alerts/alert-service.ts:491-588 | the method computes the modelled decision and keeps the invariant |
| AlertService.AlertService.PersistPending | apps/controller/src/application/alerts/alert-service.ts:867-938 | the pending condition is inserted, advanced, or the clock is refused |
| AlertService.AlertService.CommitTransition | apps/controller/src/application/alerts/alert-service.ts:1084-1176 | the transaction writes the row, removes the pending condition and adds the intents |
| AlertService.AlertService.WriteIntents | apps/controller/src/application/alerts/alert-service.ts:1195-1260 | the loop adds one intent per destination |
| AlertService.AlertService.AcknowledgeAlert | apps/controller/src/application/alerts/alert-service.ts:590-622 | the method computes the modelled decision and keeps the invariant |
| AlertService.AlertService.AcknowledgeAt | apps/controller/src/application/alerts/alert-service.ts:624-748 | the method computes the modelled decision and keeps the invariant |
| AlertService.AlertService.RecoverAlert | apps/controller/src/application/alerts/alert-service.ts:750-782 | the method computes the modelled decision and keeps the invariant |
| LogCursor.OneCursorPerPayload | packages/contracts/src/logs.ts:107-146 | a string decodes to a payload if and only if it is that valid payload's encoding |
| LogCursor.DecodesItsEncoding | packages/contracts/src/logs.ts:107-146 | every valid payload encodes, and its cursor decodes to it |
| LogCursor.EveryPayloadEncodes | packages/contracts/src/logs.ts:68-72 | the 512-character limit never bites |
| LogCursor.EncodingIsInjective | packages/contracts/src/logs.ts:107-120 | different payloads have different cursors |
| LogCursor.EveryReorderingIsRefused | packages/contracts/src/logs.ts:139-141 | the same fields in any other order parse to the payload but are refused |
| LogCursor.OtherTailIsRefused | packages/contracts/src/logs.ts:139-141 | any other string that decodes to the bytes of a payload's document is refused |
| LogCursor.EveryOtherTailIsRefused | packages/contracts/src/logs.ts:129-141 | for every payload whose document does not fill its last group, every change of only the unused bits of the last letter decodes to the same bytes and is refused |
| LogCursor.SomeOtherTail | packages/contracts/src/logs.ts:129-141 | for every such payload there is such a string |
| LogCursor.BytesRoundTrip | packages/contracts/src/logs.ts:116-135 | base64url without padding gives back every byte sequence |
| LogCursor.MembersPrinted | packages/contracts/src/logs.ts:109-115 | what is printed as JSON parses back, in any order of fields |

## Left out

Assumptions about code that is not part of this model:

- The mirror publishes committed revisions in order and pruning removes only published ones (apps/controller/src/server.ts:320-345); frames of one connection arrive in order; an event source reconnects by itself with the last event identifier it received.
- The committed revision never falls, as it would if an older database were restored. So no request is ahead of the controller and no authoritative resync lowers the revision; `ClientModel.RevisionDropsOnlyAfterResync` says what holds of the browser without this.
- A controller restart closes all connections and may have mirrored more revisions than it published.
- Drain and heartbeat calls come only after the replay has finished, as the route registers them (apps/controller/src/app.ts:288-293).
- The rows of one alert rule all have the rule's present source.

Not modelled:

- StreamSafety.EveryStreamIsExact: invalid dates given to the connection, close and error callbacks, and the texts of resync reasons are not modelled.
- ClientModel.EveryRunIsValid: the arming of the heartbeat timer, abort signals and listeners are not modelled; of a snapshot only the revision and the devices' contact times are.
- RevisionSafety.EveryRunKeepsInv: one browser and one stream at a time, as the hub's connections share no state; frames of streams the browser has let go are ignored by it and hence not kept. Liveness of refetching is not stated, because a refresh may raise the required revision again.
- RevisionSafety.RevisionNeverDrops: holds under the assumption above that the committed revision never falls; controllers with a restored database are not modelled.
- Schedule.ValidatePoint: values that are not finite numbers are not modelled, so their kind of issue is missing.
- Schedule.ValidateScheduleGraph: values that are not finite numbers are not modelled, so their kind of issue is missing; host arithmetic is over the reals. The order of issues is not stated.
- Rounding.FroundAbsolute: overflow of binary32 is not modelled.
- ScheduleRequest.ReplaceRequestPoints: of the request's schema, the expected revision and the editor coordinates, which any finite number satisfies, are not modelled.
- Canonical.CanonicalSchedulePoints: identifiers are ordered by code unit, which agrees with the source's comparison; minutes that are not numbers are not modelled.
- ScheduleDrafts.EveryRunIsValid: plot geometry, identifier generation and the React components around the reducer are user interface.
- DeviceModel.EveryRunIsValid: an operation reads the clock once; of storage only the writes of the run loop, edits and schedule commands may fail. Connection, MQTT, responses and their faults, announcements, analog reads, the schedule's hash, byte size and sync time, and the device's identifier are not modelled; stored names are taken to be printable.
- DeviceSafety.CacheNeverStale: limited to runs of harmless events, because `HonestThroughoutIff` shows that other runs do leave the cache wrong.
- DeviceSafety.EveryRunIsBounded: says nothing about the range of duties, which `InRangeThroughoutIff` treats, because a failed edit may leave a duty out of range.
- FakeEsp.FakeEspActor.SetCommand: the actor's fields are divided among the actor, its pin board, its clock and its diagnostics store.
- NotificationSafety.EveryRunKeepsInv: pruning of old deliveries is not modelled.
- NotificationDispatcher.AlertNotificationDispatcher.DispatchPending: the object is one dispatcher working alone; interleaving with others is treated by the steps of `NotificationModel`, which the object's actions are. Parsing of the stored document is one abstract value.
- NotificationDispatcher.AlertNotificationDispatcher.DispatchOne: for the same reason a claim lost to another dispatcher does not occur in the object; `NotificationSafety.ClaimKeeps` treats it.
- NotificationDispatcher.AlertNotificationDispatcher.RecordOutcome: for the same reason the second read after a lost checkpoint does not occur in the object; `NotificationSafety.CheckpointKeeps` treats the checkpoint.
- NotificationRuntime.AlertNotificationRuntime.Start: a stop comes during the recovery, during a dispatch or between operations; the poll interval and the error reporter are not modelled. New deliveries do not arrive during a cycle.
- AlertSafety.EveryRunIsValid: notes, actors and details of alerts, and the concurrency errors that serialised operations cannot raise, are not modelled. A rule does not change while it is being evaluated.
- LogCursor.OneCursorPerPayload: JSON is limited to objects with the five fields in any order, without white space and escapes, and text to ASCII; anything else could not be canonical. The filter fingerprint itself is not computed.

Other parts of the repository: HTTP routes, SQLite and Kysely, MQTT topics and command lanes, snapshots of
configuration, overrides as aggregates, log retention, firmware updates and backups.
