/** What the device guarantees over every run, and exactly which events spoil what. */
module DeviceSafety {
  import opened Options
  import opened Pwm
  import opened Firmware
  import opened DeviceOutputs
  import opened DeviceCache
  import opened DeviceTime
  import opened DeviceModel

  // ----- The loop, up to its schedule stage -----

  function BeforeSchedule(d: Device, at: int): Device {
    ServiceAttachments(ServiceOverrides(ServiceStorage(d, at), at), at)
  }

  lemma BeforeIsValid(d: Device, at: int)
    requires Valid(d, at) && Timely(d, at)
    ensures var r := BeforeSchedule(d, at);
            && Valid(r, at) && r.out.schedule == d.out.schedule && r.lastScheduleUpdate == d.lastScheduleUpdate
            && r.clock == ServiceCheckpoint(d.clock, at) && r.out.resolution == d.out.resolution
            && RunLoop(d, at) == ServiceSchedule(r, at) && RunLoop(d, at).clock == r.clock
  {
    StorageKeepsValid(d, at);
    var d2 := ServiceOverrides(ServiceStorage(d, at), at);
    OverridesKeepValid(ServiceStorage(d, at), at);
    AttachmentsKeepValid(d2, at);
    AttachAllKeeps(d2.out, d2.out.channels);
  }

  lemma StorageOutputs(d: Device, at: int)
    ensures ServiceStorage(d, at).out == d.out && ServiceStorage(d, at).clock == ServiceCheckpoint(d.clock, at)
    ensures ServiceStorage(d, at).clock.boot == d.clock.boot
  {
  }

  lemma OverrideOutputs(d: Device, at: int)
    ensures var r := ServiceOverrides(d, at);
            r.out == d.out || r.out == CheckExpiries(d.out, Millis(at, d.clock.boot), d.clock.initialized)
  {
  }

  lemma AttachmentOutputs(d: Device, at: int)
    ensures ServiceAttachments(d, at).out == d.out || ServiceAttachments(d, at).out == AttachAll(d.out, d.out.channels)
  {
  }

  /** The outputs before the schedule stage. */
  lemma BeforeOutputs(d: Device, at: int)
    ensures var ended := ServiceOverrides(ServiceStorage(d, at), at).out;
            && (ended == d.out
                || ended == CheckExpiries(d.out, Millis(at, d.clock.boot), ServiceCheckpoint(d.clock, at).initialized))
            && (BeforeSchedule(d, at).out == ended || BeforeSchedule(d, at).out == AttachAll(ended, ended.channels))
  {
    StorageOutputs(d, at);
    OverrideOutputs(ServiceStorage(d, at), at);
    AttachmentOutputs(ServiceOverrides(ServiceStorage(d, at), at), at);
  }

  lemma ExpiryAt(o: Outputs, now: nat, timed: bool, i: nat)
    requires i < |o.channels| && !Overridden(o, o.channels[i].pin)
    ensures var r, pin := CheckExpiries(o, now, timed), o.channels[i].pin;
            && |r.channels| == |o.channels| && r.channels[i] == o.channels[i]
            && OutputAt(r, pin) == OutputAt(o, pin) && (Free(r, pin) <==> Free(o, pin))
  {
  }

  /** Neither ending overrides nor attaching pins touches a channel the schedule is in charge of. */
  lemma BeforeAt(d: Device, at: int, i: nat)
    requires Valid(d, at) && Timely(d, at) && i < |d.out.channels| && Free(d.out, d.out.channels[i].pin)
    ensures var r, pin := BeforeSchedule(d, at).out, d.out.channels[i].pin;
            i < |r.channels| && r.channels[i] == d.out.channels[i] && OutputAt(r, pin) == OutputAt(d.out, pin)
              && Free(r, pin)
  {
    var ended := ServiceOverrides(ServiceStorage(d, at), at).out;
    BeforeOutputs(d, at);
    ExpiryAt(d.out, Millis(at, d.clock.boot), ServiceCheckpoint(d.clock, at).initialized, i);
    StorageKeepsValid(d, at);
    OverridesKeepValid(ServiceStorage(d, at), at);
    AttachAllOnly(ended, ended.channels, d.out.channels[i].pin);
  }

  lemma LoopMoves(d: Device, at: int)
    requires Valid(d, at) && Timely(d, at)
    ensures Moves(d.out, RunLoop(d, at).out)
  {
    var ended, before := ServiceOverrides(ServiceStorage(d, at), at).out, BeforeSchedule(d, at);
    BeforeOutputs(d, at);
    BeforeIsValid(d, at);
    StorageKeepsValid(d, at);
    OverridesKeepValid(ServiceStorage(d, at), at);
    EndKeeps(d.out, DuePins(d.out, Millis(at, d.clock.boot)), ServiceCheckpoint(d.clock, at).initialized);
    AttachAllKeeps(ended, ended.channels);
    MovesOn(d.out, ended, before.out);
    if before.out.schedule.Some? && before.clock.initialized {
      DriveAllKeeps(before.out, before.out.schedule.value, MinuteAt(before.clock, at));
    }
    MovesOn(d.out, before.out, RunLoop(d, at).out);
  }

  // ----- Wear, drift and time -----

  /** At the end of every run: each pin is sound; in the present boot all time and diagnostic writes but one
      each were an hour apart; the clock lags by at most a second per checkpoint and never leads. */
  lemma {:induction false} EveryRunIsBounded(d: Device, now: int, run: seq<(Event, int)>, pin: int, at: int)
    requires Valid(d, now) && IsRun(d, now, run) && EndOf(d, now, run).1 <= at
    ensures var end := EndOf(d, now, run).0;
            && PinSound(end.out, pin)
            && WearLimited(end.clock.attempts, end.clock.boot) && WearLimited(end.diag.attempts, end.clock.boot)
            && (end.clock.initialized ==>
                  IdealAt(end.clock, at) / 1000 - end.clock.checkpoints <= EpochAt(end.clock, at)
                    <= IdealAt(end.clock, at) / 1000)
  {
    var (end, later) := EndOf(d, now, run);
    EveryRunIsValid(d, now, run);
    if end.clock.initialized { DriftIsBounded(end.clock, later, at); }
  }

  predicate KeepsTime(e: Event) { !e.SyncCommand? && !e.Reboot? }

  lemma StepNeverGoesBack(d: Device, e: Event, now: int, at: int)
    requires Valid(d, now) && now <= at && KeepsTime(e) && d.clock.initialized && (e.Loop? ==> Timely(d, at))
    ensures Step(d, e, at).clock.initialized && EpochAt(d.clock, now) <= EpochAt(Step(d, e, at).clock, at)
  {
    ClockNeverGoesBack(d.clock, now, at);
    Later(d, now, at);
    if e.Loop? {
      BeforeIsValid(d, at);
    } else {
      assert Step(d, e, at).clock == d.clock;
    }
  }

  /** Between synchronisations and reboots the device's clock never goes back. */
  lemma {:induction false} ClockNeverGoesBackInRuns(d: Device, now: int, run: seq<(Event, int)>)
    requires Valid(d, now) && IsRun(d, now, run) && d.clock.initialized
    requires forall i :: 0 <= i < |run| ==> KeepsTime(run[i].0)
    ensures EpochAt(d.clock, now) <= EpochAt(EndOf(d, now, run).0.clock, EndOf(d, now, run).1)
    decreases |run|
  {
    if run != [] {
      var (e, at) := run[0];
      Later(d, now, at);
      StepKeepsValid(d, e, at);
      StepNeverGoesBack(d, e, now, at);
      ClockNeverGoesBackInRuns(Step(d, e, at), at, run[1..]);
    }
  }

  lemma LoopKeepsOverrides(d: Device, at: int, pin: int)
    ensures Overridden(RunLoop(d, at).out, pin) <==> Overridden(ServiceOverrides(ServiceStorage(d, at), at).out, pin)
  {
    var d2 := ServiceOverrides(ServiceStorage(d, at), at);
    var d3 := ServiceAttachments(d2, at);
    AttachAllStates(d2.out, d2.out.channels);
    if d3.out.schedule.Some? { DriveAllKeepsShape(d3.out, d3.out.schedule.value, MinuteAt(d3.clock, at)); }
  }

  lemma {:induction false} AttachAllStates(o: Outputs, channels: seq<ActiveChannel>)
    ensures AttachAll(o, channels).states == o.states
    decreases |channels|
  {
    if channels != [] { AttachAllStates(o, channels[..|channels| - 1]); }
  }

  /** Overrides over whole loops: one ends at the first checking loop at which it is two minutes old, and at
      no loop before; after any loop none is older than two minutes and the check interval. */
  lemma LoopEndsOverrides(d: Device, at: int, pin: int)
    requires Valid(d, at) && Timely(d, at)
    ensures Overridden(RunLoop(d, at).out, pin)
      <==> Overridden(d.out, pin) && (ChecksNow(d, at) ==> at - StartedAt(d.out, pin) < OVERRIDE_DURATION)
    ensures Overridden(RunLoop(d, at).out, pin) ==>
      at - StartedAt(d.out, pin) < OVERRIDE_DURATION + OVERRIDE_CHECK_INTERVAL
  {
    LoopKeepsOverrides(d, at, pin);
    StorageKeepsValid(d, at);
    OverrideEndsOnTime(ServiceStorage(d, at), pin, at);
    assert OverrideOk(d.out, d.clock.boot, d.checkedAt, pin, at);
  }

  // ----- Duties in range -----

  /** An edit that breaks off at its storage write must leave duties that fit. */
  predicate Fits(d: Device, e: Event) {
    e.EditCommand? && !e.stores && Editable(e.name, e.frequency, e.bits) ==>
      forall pin :: pin in d.out.attached ==> OutputAt(d.out, pin) <= MaxDuty(e.bits)
  }

  lemma StepMoves(d: Device, e: Event, at: int)
    requires Valid(d, at) && (e.Loop? ==> Timely(d, at)) && !e.EditCommand? && !e.Reboot?
    ensures Moves(d.out, Step(d, e, at).out)
  {
    match e
    case SetCommand(pin, value, overwrite) => SetKeeps(d.out, pin, value, overwrite, Millis(at, d.clock.boot), at);
    case ScheduleCommand(schedule, stores) => ScheduleMoves(d, schedule, stores, at);
    case Loop => LoopMoves(d, at);
    case _ =>
  }

  lemma ScheduleMoves(d: Device, schedule: seq<FirmwareChannel>, stores: bool, at: int)
    requires Valid(d, at)
    ensures Moves(d.out, HandleSchedule(d, schedule, stores, at).out)
  {
    if AcceptableSchedule(schedule) {
      var r := Release(d.out, d.out.channels, Pins(schedule));
      ReleaseKeeps(d.out, d.out.channels, Pins(schedule));
      if stores {
        AdoptedIsValid(r, schedule, true);
        AttachAllKeeps(Adopt(r, schedule), Fresh(schedule));
        MovesOn(d.out, r, AttachAll(Adopt(r, schedule), Fresh(schedule)));
      }
    }
  }

  lemma BootIsInRange(stored: Stored, failing: set<int>, at: int, timeOutcomes: seq<bool>,
      diagnosticOutcomes: seq<bool>)
    ensures AllInRange(Boot(stored, failing, at, timeOutcomes, diagnosticOutcomes).out)
  {
    if Usable(stored.schedule) == None {
      BlankIsValid(stored, failing, at, timeOutcomes, diagnosticOutcomes);
    } else {
      var blank := Boot(stored.(schedule := None), failing, at, timeOutcomes, diagnosticOutcomes);
      BlankIsValid(stored.(schedule := None), failing, at, timeOutcomes, diagnosticOutcomes);
      BootActivates(stored, failing, at, timeOutcomes, diagnosticOutcomes);
      AdoptedIsValid(blank.out, stored.schedule.value, true);
      AttachAllKeeps(Adopt(blank.out, stored.schedule.value), Fresh(stored.schedule.value));
      forall p: int ensures InRange(Adopt(blank.out, stored.schedule.value), p) { assert InRange(blank.out, p); }
      MovesKeepRange(Adopt(blank.out, stored.schedule.value),
        Boot(stored, failing, at, timeOutcomes, diagnosticOutcomes).out);
    }
  }

  /** Exactly one event takes duties out of range: an edit whose storage write fails and whose new resolution
      is too small for some duty. */
  lemma StepInRangeIff(d: Device, e: Event, at: int)
    requires Valid(d, at) && AllInRange(d.out) && (e.Loop? ==> Timely(d, at))
    ensures AllInRange(Step(d, e, at).out) <==> Fits(d, e)
  {
    if e.EditCommand? {
      if Editable(e.name, e.frequency, e.bits) {
        RescaleKeeps(d.out, e.bits);
        FailedEditKeepsDutyIff(d.out, e.bits);
      }
    } else if e.Reboot? {
      BootIsInRange(Image(d), d.out.failing, at, e.timeOutcomes, e.diagnosticOutcomes);
    } else {
      StepMoves(d, e, at);
      MovesKeepRange(d.out, Step(d, e, at).out);
    }
  }

  ghost predicate InRangeThroughout(d: Device, now: int, run: seq<(Event, int)>)
    requires ValidResolution(d.out.resolution) && IsRun(d, now, run)
    decreases |run|
  {
    AllInRange(d.out) && (run != [] ==> InRangeThroughout(Step(d, run[0].0, run[0].1), run[0].1, run[1..]))
  }

  predicate AllFit(d: Device, now: int, run: seq<(Event, int)>)
    requires ValidResolution(d.out.resolution) && IsRun(d, now, run)
    decreases |run|
  {
    run != [] ==> Fits(d, run[0].0) && AllFit(Step(d, run[0].0, run[0].1), run[0].1, run[1..])
  }

  /** The duty invariant over runs: every duty is in range throughout exactly when every edit that breaks off
      leaves duties that fit. */
  lemma {:induction false} InRangeThroughoutIff(d: Device, now: int, run: seq<(Event, int)>)
    requires Valid(d, now) && AllInRange(d.out) && IsRun(d, now, run)
    ensures InRangeThroughout(d, now, run) <==> AllFit(d, now, run)
    decreases |run|
  {
    if run != [] {
      var (e, at) := run[0];
      Later(d, now, at);
      StepKeepsValid(d, e, at);
      StepInRangeIff(d, e, at);
      if Fits(d, e) { InRangeThroughoutIff(Step(d, e, at), at, run[1..]); }
    }
  }

  // ----- The cache, over runs -----

  /** What an event must respect to keep the cache honest. */
  predicate Harmless(d: Device, e: Event) {
    match e
    case SetCommand(pin, value, overwrite) => SetIsHarmless(d.out, pin, value, overwrite)
    case EditCommand(name, frequency, bits, stores) =>
      stores || !Editable(name, frequency, bits) || ResolutionIsHarmless(d.out, bits)
    case ScheduleCommand(schedule, stores) =>
      stores || !AcceptableSchedule(schedule) || ReleaseIsHarmless(d.out, Pins(schedule))
    case _ => true
  }

  lemma FreshIsHonest(o: Outputs, schedule: seq<FirmwareChannel>)
    requires SoundPins(o)
    ensures AllHonest(AttachAll(Adopt(o, schedule), Fresh(schedule)))
  {
    forall p: int ensures PinSound(Adopt(o, schedule), p) { assert PinSound(o, p); }
    AttachIsHarmless(Adopt(o, schedule), Fresh(schedule));
  }

  lemma ScheduleHonestIff(d: Device, schedule: seq<FirmwareChannel>, stores: bool, at: int)
    requires Valid(d, at) && AllHonest(d.out)
    ensures AllHonest(HandleSchedule(d, schedule, stores, at).out) <==> Harmless(d, ScheduleCommand(schedule, stores))
  {
    if AcceptableSchedule(schedule) {
      var r := Release(d.out, d.out.channels, Pins(schedule));
      ReleaseKeeps(d.out, d.out.channels, Pins(schedule));
      FailedScheduleKeepsCacheIff(d.out, Pins(schedule));
      FreshIsHonest(r, schedule);
    }
  }

  lemma BootIsHonest(stored: Stored, failing: set<int>, at: int, timeOutcomes: seq<bool>, diagnosticOutcomes: seq<bool>)
    ensures AllHonest(Boot(stored, failing, at, timeOutcomes, diagnosticOutcomes).out)
  {
    if Usable(stored.schedule).Some? {
      BlankIsValid(stored.(schedule := None), failing, at, timeOutcomes, diagnosticOutcomes);
      BootActivates(stored, failing, at, timeOutcomes, diagnosticOutcomes);
      FreshIsHonest(Boot(stored.(schedule := None), failing, at, timeOutcomes, diagnosticOutcomes).out,
        stored.schedule.value);
    }
  }

  lemma BeforeIsHonest(d: Device, at: int)
    requires Valid(d, at) && Timely(d, at) && AllHonest(d.out)
    ensures AllHonest(BeforeSchedule(d, at).out)
  {
    var ended := ServiceOverrides(ServiceStorage(d, at), at);
    BeforeOutputs(d, at);
    StorageKeepsValid(d, at);
    OverridesKeepValid(ServiceStorage(d, at), at);
    ExpiryIsHarmless(ServiceStorage(d, at).out, Millis(at, d.clock.boot), ServiceCheckpoint(d.clock, at).initialized);
    AttachIsHarmless(ended.out, ended.out.channels);
  }

  lemma LoopIsHonest(d: Device, at: int)
    requires Valid(d, at) && Timely(d, at) && AllHonest(d.out)
    ensures AllHonest(RunLoop(d, at).out)
  {
    var before := BeforeSchedule(d, at);
    BeforeIsValid(d, at);
    BeforeIsHonest(d, at);
    if before.out.schedule.Some? && before.clock.initialized { TickIsExact(before.out, MinuteAt(before.clock, at)); }
  }

  /** An event keeps the cache honest exactly when it is harmless. */
  lemma StepHonestIff(d: Device, e: Event, at: int)
    requires Valid(d, at) && AllHonest(d.out) && (e.Loop? ==> Timely(d, at))
    ensures AllHonest(Step(d, e, at).out) <==> Harmless(d, e)
  {
    match e
    case SetCommand(pin, value, overwrite) =>
      SetIsHarmlessIff(d.out, pin, value, overwrite, Millis(at, d.clock.boot), at);
    case EditCommand(name, frequency, bits, stores) => EditHonestIff(d, e, at);
    case ScheduleCommand(schedule, stores) => ScheduleHonestIff(d, schedule, stores, at);
    case Loop => LoopIsHonest(d, at);
    case Reboot(timeOutcomes, diagnosticOutcomes) =>
      BootIsHonest(Image(d), d.out.failing, at, timeOutcomes, diagnosticOutcomes);
    case PinFails(_, _) =>
      forall i | 0 <= i < |d.out.channels| ensures Honest(Step(d, e, at).out, i) { assert Honest(d.out, i); }
    case _ =>
  }

  lemma EditHonestIff(d: Device, e: Event, at: int)
    requires Valid(d, at) && AllHonest(d.out) && e.EditCommand?
    ensures AllHonest(Step(d, e, at).out) <==> Harmless(d, e)
  {
    if Editable(e.name, e.frequency, e.bits) {
      RescaleIsHarmless(d.out, e.bits);
      FailedEditKeepsCacheIff(d.out, e.bits);
    }
  }

  predicate HonestThroughout(d: Device, now: int, run: seq<(Event, int)>)
    requires ValidResolution(d.out.resolution) && IsRun(d, now, run)
    decreases |run|
  {
    AllHonest(d.out) && (run != [] ==> HonestThroughout(Step(d, run[0].0, run[0].1), run[0].1, run[1..]))
  }

  predicate AllHarmless(d: Device, now: int, run: seq<(Event, int)>)
    requires ValidResolution(d.out.resolution) && IsRun(d, now, run)
    decreases |run|
  {
    run != [] ==> Harmless(d, run[0].0) && AllHarmless(Step(d, run[0].0, run[0].1), run[0].1, run[1..])
  }

  lemma {:induction false} HonestThroughoutIff(d: Device, now: int, run: seq<(Event, int)>)
    requires Valid(d, now) && AllHonest(d.out) && IsRun(d, now, run)
    ensures HonestThroughout(d, now, run) <==> AllHarmless(d, now, run)
    ensures AllHarmless(d, now, run) ==> AllHonest(EndOf(d, now, run).0.out)
    decreases |run|
  {
    if run != [] {
      var (e, at) := run[0];
      Later(d, now, at);
      StepKeepsValid(d, e, at);
      StepHonestIff(d, e, at);
      if Harmless(d, e) { HonestThroughoutIff(Step(d, e, at), at, run[1..]); }
    }
  }

  /** The loop at `at` comes in time and is one that runs the schedule. */
  predicate SchedulesAt(d: Device, at: int) {
    && Timely(d, at) && d.clock.initialized && d.out.schedule.Some?
    && Elapsed(Millis(at, d.clock.boot), d.lastScheduleUpdate) >= SCHEDULE_INTERVAL
  }

  lemma HonestLoopIsExact(d: Device, at: int)
    requires Valid(d, at) && SchedulesAt(d, at) && AllHonest(d.out)
    ensures forall i :: 0 <= i < |d.out.schedule.value| ==>
      AsScheduled(RunLoop(d, at).out, d.out.schedule.value[i], MinuteAt(RunLoop(d, at).clock, at))
  {
    var before := BeforeSchedule(d, at);
    BeforeIsValid(d, at);
    BeforeIsHonest(d, at);
    ServiceKeepsClock(d.clock, at);
    TickIsExact(before.out, MinuteAt(before.clock, at));
  }

  /** The cache is never stale in any run of harmless events: each scheduled loop leaves every attached, not
      overridden channel at exactly the duty of its schedule. */
  lemma CacheNeverStale(d: Device, now: int, run: seq<(Event, int)>, at: int, i: nat)
    requires Valid(d, now) && AllHonest(d.out) && IsRun(d, now, run) && AllHarmless(d, now, run)
    requires EndOf(d, now, run).1 <= at && SchedulesAt(EndOf(d, now, run).0, at)
    requires i < |EndOf(d, now, run).0.out.schedule.value|
    ensures var end := EndOf(d, now, run).0;
            AsScheduled(RunLoop(end, at).out, end.out.schedule.value[i], MinuteAt(RunLoop(end, at).clock, at))
  {
    var (end, later) := EndOf(d, now, run);
    EveryRunIsValid(d, now, run);
    HonestThroughoutIff(d, now, run);
    Later(end, later, at);
    HonestLoopIsExact(end, at);
  }

  /** Manual duties as overrides, and storage that works: such events are always harmless. */
  predicate Ordinary(e: Event) {
    && (e.SetCommand? ==> e.overwrite)
    && (e.EditCommand? || e.ScheduleCommand? ==> e.stores)
  }

  lemma {:induction false} OrdinaryIsHarmless(d: Device, now: int, run: seq<(Event, int)>)
    requires ValidResolution(d.out.resolution) && IsRun(d, now, run)
    requires forall k :: 0 <= k < |run| ==> Ordinary(run[k].0)
    ensures AllHarmless(d, now, run) && AllFit(d, now, run)
    decreases |run|
  {
    if run != [] { OrdinaryIsHarmless(Step(d, run[0].0, run[0].1), run[0].1, run[1..]); }
  }

  /** From boot: with manual duties as overrides and storage that works, every scheduled loop of every run is
      exact, and every duty is in range. */
  lemma OrdinaryRunsAreExact(stored: Stored, failing: set<int>, boot: int, run: seq<(Event, int)>, at: int, i: nat)
    requires IsRun(Boot(stored, failing, boot, [], []), boot, run)
    requires forall k :: 0 <= k < |run| ==> Ordinary(run[k].0)
    requires EndOf(Boot(stored, failing, boot, [], []), boot, run).1 <= at
    requires SchedulesAt(EndOf(Boot(stored, failing, boot, [], []), boot, run).0, at)
    requires i < |EndOf(Boot(stored, failing, boot, [], []), boot, run).0.out.schedule.value|
    ensures var end := EndOf(Boot(stored, failing, boot, [], []), boot, run).0;
            AsScheduled(RunLoop(end, at).out, end.out.schedule.value[i], MinuteAt(RunLoop(end, at).clock, at))
    ensures InRangeThroughout(Boot(stored, failing, boot, [], []), boot, run)
  {
    var d := Boot(stored, failing, boot, [], []);
    BootIsValid(stored, failing, boot, [], []);
    BootIsHonest(stored, failing, boot, [], []);
    BootIsInRange(stored, failing, boot, [], []);
    OrdinaryIsHarmless(d, boot, run);
    CacheNeverStale(d, boot, run, at, i);
    InRangeThroughoutIff(d, boot, run);
  }

  // ----- A dishonest cache, over runs -----

  /** Exactly when a scheduled loop leaves a free channel right, whatever happened before: its percentage has
      moved since the last write, or the pin still carries the duty of that percentage. */
  lemma LoopSetsRightIff(d: Device, at: int, i: nat)
    requires Valid(d, at) && SchedulesAt(d, at) && i < |d.out.channels| && Free(d.out, d.out.channels[i].pin)
    ensures var c, cached := d.out.schedule.value[i], d.out.channels[i].currentValue;
            var minute := MinuteAt(RunLoop(d, at).clock, at);
            Exact(RunLoop(d, at).out, c, minute)
            <==> cached != ScheduledValue(c.links, minute)
                 || OutputAt(d.out, c.pin) == PercentDuty(cached, d.out.resolution)
  {
    var before := BeforeSchedule(d, at);
    BeforeIsValid(d, at);
    BeforeAt(d, at, i);
    ServiceKeepsClock(d.clock, at);
    TickSetsRightIff(before.out, MinuteAt(before.clock, at), i);
  }

  /** A manual duty without override followed by a scheduled loop: the channel is right exactly when its
      percentage moves, or the manual duty is the scheduled one. */
  lemma SetThenLoopIff(d: Device, pin: int, value: int, at: int, later: int, i: nat)
    requires Valid(d, at) && at <= later && SetOutcomeOf(d.out, pin, value) == SetOk
    requires i < |d.out.channels| && d.out.channels[i].pin == pin
    requires SchedulesAt(HandleSet(d, pin, value, false, at), later)
    ensures var written := HandleSet(d, pin, value, false, at);
            var c, minute := d.out.schedule.value[i], MinuteAt(RunLoop(written, later).clock, later);
            var target := ScheduledValue(c.links, minute);
            Exact(RunLoop(written, later).out, c, minute)
            <==> d.out.channels[i].currentValue != target
                 || Rescale(value, 8, d.out.resolution) == PercentDuty(target, d.out.resolution)
  {
    var written := HandleSet(d, pin, value, false, at);
    SetKeepsValid(d, pin, value, false, at);
    Later(written, at, later);
    LoopSetsRightIff(written, later, i);
  }

  /** A free channel whose cache lies: it carries `duty`, which is not that of the cached percentage. */
  predicate Stuck(d: Device, i: nat, cached: int, duty: int) {
    && i < |d.out.channels| && Free(d.out, d.out.channels[i].pin)
    && d.out.channels[i].currentValue == cached != -1
    && OutputAt(d.out, d.out.channels[i].pin) == duty != PercentDuty(cached, d.out.resolution)
  }

  /** The loop at `at`, if it runs the schedule, finds the percentage where it was. */
  predicate StandsStill(d: Device, at: int, i: nat)
    requires i < |d.out.channels|
  {
    SchedulesAt(d, at) && i < |d.out.schedule.value| ==>
      ScheduledValue(d.out.schedule.value[i].links, MinuteAt(ServiceCheckpoint(d.clock, at), at))
        == d.out.channels[i].currentValue
  }

  /** The events that do nothing for a stuck channel: everything but a command for its pin, an edit that
      changes the resolution or reattaches, a schedule that replaces it, a moved percentage, and a reboot. */
  predicate LeavesStuck(d: Device, e: Event, at: int, i: nat)
    requires i < |d.out.channels|
  {
    match e
    case SetCommand(pin, value, _) => pin != d.out.channels[i].pin || SetOutcomeOf(d.out, pin, value) != SetOk
    case EditCommand(name, frequency, bits, stores) =>
      !Editable(name, frequency, bits) || (bits == d.out.resolution && (frequency == d.frequency || !stores))
    case ScheduleCommand(schedule, stores) =>
      !AcceptableSchedule(schedule) || (!stores && d.out.channels[i].pin in Pins(schedule))
    case Loop => StandsStill(d, at, i)
    case Reboot(_, _) => false
    case _ => true
  }

  lemma StuckLoop(d: Device, at: int, i: nat, cached: int, duty: int)
    requires Valid(d, at) && Timely(d, at) && Stuck(d, i, cached, duty) && StandsStill(d, at, i)
    ensures Stuck(RunLoop(d, at), i, cached, duty) && RunLoop(d, at).out.channels[i].pin == d.out.channels[i].pin
  {
    var before := BeforeSchedule(d, at);
    BeforeIsValid(d, at);
    BeforeAt(d, at, i);
    ServiceKeepsClock(d.clock, at);
    if before.out.schedule.Some? && before.clock.initialized { TickAt(before.out, MinuteAt(before.clock, at), i); }
  }

  lemma StuckSchedule(d: Device, schedule: seq<FirmwareChannel>, stores: bool, at: int, i: nat, cached: int, duty: int)
    requires Stuck(d, i, cached, duty) && LeavesStuck(d, ScheduleCommand(schedule, stores), at, i)
    ensures Stuck(HandleSchedule(d, schedule, stores, at), i, cached, duty)
  {
    ReleaseOnly(d.out, d.out.channels, Pins(schedule), d.out.channels[i].pin);
  }

  lemma StuckSet(d: Device, pin: int, value: int, overwrite: bool, at: int, i: nat, cached: int, duty: int)
    requires Stuck(d, i, cached, duty) && LeavesStuck(d, SetCommand(pin, value, overwrite), at, i)
    ensures Stuck(HandleSet(d, pin, value, overwrite, at), i, cached, duty)
  {
  }

  lemma StuckStep(d: Device, e: Event, at: int, i: nat, cached: int, duty: int)
    requires Valid(d, at) && (e.Loop? ==> Timely(d, at)) && Stuck(d, i, cached, duty) && LeavesStuck(d, e, at, i)
    ensures Stuck(Step(d, e, at), i, cached, duty)
  {
    match e
    case SetCommand(pin, value, overwrite) => StuckSet(d, pin, value, overwrite, at, i, cached, duty);
    case ScheduleCommand(schedule, stores) => StuckSchedule(d, schedule, stores, at, i, cached, duty);
    case Loop => StuckLoop(d, at, i, cached, duty);
    case _ =>
  }

  predicate RunLeavesStuck(d: Device, now: int, run: seq<(Event, int)>, i: nat)
    requires ValidResolution(d.out.resolution) && IsRun(d, now, run)
    decreases |run|
  {
    run != [] ==>
      && i < |d.out.channels| && LeavesStuck(d, run[0].0, run[0].1, i)
      && RunLeavesStuck(Step(d, run[0].0, run[0].1), run[0].1, run[1..], i)
  }

  /** A stuck channel stays wrong through any run of such events, however many scheduled loops it holds. */
  lemma {:induction false} StuckStays(d: Device, now: int, run: seq<(Event, int)>, i: nat, cached: int, duty: int)
    requires Valid(d, now) && IsRun(d, now, run) && Stuck(d, i, cached, duty) && RunLeavesStuck(d, now, run, i)
    ensures Stuck(EndOf(d, now, run).0, i, cached, duty)
    decreases |run|
  {
    if run != [] {
      var (e, at) := run[0];
      Later(d, now, at);
      StepKeepsValid(d, e, at);
      StuckStep(d, e, at, i, cached, duty);
      StuckStays(Step(d, e, at), at, run[1..], i, cached, duty);
    }
  }

  /** A stored edit that reattaches resets the cache of every attached channel, so that the next scheduled
      loop sets it right... */
  lemma EditResets(d: Device, name: string, frequency: int, bits: int, i: nat)
    requires ValidResolution(d.out.resolution) && Editable(name, frequency, bits) && Reattaches(d, frequency, bits)
    requires i < |d.out.channels| && d.out.channels[i].pin in d.out.attached
    ensures HandleEdit(d, name, frequency, bits, true).out.channels[i].currentValue == -1
  {
  }

  /** ...but the same edit again, after one that broke off, finds nothing changed and resets nothing. */
  lemma RepeatedEditResetsNothing(d: Device, name: string, frequency: int, bits: int)
    requires ValidResolution(d.out.resolution) && Editable(name, frequency, bits)
    ensures var broken := HandleEdit(d, name, frequency, bits, false);
            && HandleEdit(broken, name, frequency, bits, true).out == broken.out
            && UpToDate(HandleEdit(broken, name, frequency, bits, true))
  {
  }

  /** An override that ends in a scheduled loop leaves its channel exactly as scheduled, whatever the cache
      said before. */
  lemma EndedOverrideIsExact(d: Device, at: int, i: nat)
    requires Valid(d, at) && SchedulesAt(d, at) && i < |d.out.channels| && d.out.channels[i].pin in d.out.attached
    requires Overridden(d.out, d.out.channels[i].pin) && !Overridden(RunLoop(d, at).out, d.out.channels[i].pin)
    ensures Exact(RunLoop(d, at).out, d.out.schedule.value[i], MinuteAt(RunLoop(d, at).clock, at))
  {
    var pin := d.out.channels[i].pin;
    var serviced := ServiceStorage(d, at);
    var ended, before := ServiceOverrides(serviced, at), BeforeSchedule(d, at);
    LoopKeepsOverrides(d, at, pin);
    BeforeIsValid(d, at);
    StorageKeepsValid(d, at);
    OverridesKeepValid(serviced, at);
    ServiceKeepsClock(d.clock, at);
    assert pin in ChannelPins(d.out.channels);
    assert i < |ended.out.channels| && ended.out.channels[i] == d.out.channels[i].(currentValue := -1);
    AttachAllKeeps(ended.out, ended.out.channels);
    AttachAllOnly(ended.out, ended.out.channels, pin);
    ScheduledValueIsPercent(before.out.schedule.value[i].links, MinuteAt(before.clock, at));
    TickAt(before.out, MinuteAt(before.clock, at), i);
  }

  // ----- Storage and reboot -----

  /** An edit that takes effect without being stored. */
  predicate Unstored(d: Device, e: Event) {
    && e.EditCommand? && !e.stores && Editable(e.name, e.frequency, e.bits)
    && (e.name != d.name || e.frequency != d.frequency || e.bits != d.out.resolution)
  }

  lemma LoopKeepsSettings(d: Device, at: int)
    ensures var r := RunLoop(d, at);
            r.name == d.name && r.frequency == d.frequency && r.out.resolution == d.out.resolution
              && r.kept == ServiceStorage(d, at).kept
  {
    var d3 := BeforeSchedule(d, at);
    if d3.out.schedule.Some? { DriveAllKeepsShape(d3.out, d3.out.schedule.value, MinuteAt(d3.clock, at)); }
  }

  lemma BootKeepsSettings(stored: Stored, failing: set<int>, at: int, timeOutcomes: seq<bool>,
      diagnosticOutcomes: seq<bool>)
    ensures UpToDate(Boot(stored, failing, at, timeOutcomes, diagnosticOutcomes))
  {
  }

  /** Storage falls behind the settings exactly when an edit takes effect without being stored. */
  lemma StepUpToDateIff(d: Device, e: Event, at: int)
    requires ValidResolution(d.out.resolution) && UpToDate(d)
    ensures UpToDate(Step(d, e, at)) <==> !Unstored(d, e)
  {
    match e
    case Loop => LoopKeepsSettings(d, at);
    case Reboot(timeOutcomes, diagnosticOutcomes) =>
      BootKeepsSettings(Image(d), d.out.failing, at, timeOutcomes, diagnosticOutcomes);
    case _ =>
  }

  lemma {:induction false} DistinctFit(pins: seq<int>, allowed: set<int>)
    requires forall i :: 0 <= i < |pins| ==> pins[i] in allowed
    requires forall i, j :: 0 <= i < j < |pins| ==> pins[i] != pins[j]
    ensures |pins| <= |allowed|
    decreases |pins|
  {
    if pins != [] {
      var n := |pins| - 1;
      DistinctFit(pins[..n], allowed - {pins[n]});
    }
  }

  /** There are sixteen pins to schedule, so a valid schedule is never refused for its length. */
  lemma ScheduleFits(schedule: seq<FirmwareChannel>)
    requires ValidSchedule(schedule)
    ensures |schedule| <= 16 && AcceptableSchedule(schedule)
  {
    var pins := seq(|schedule|, i requires 0 <= i < |schedule| => schedule[i].pin);
    DistinctFit(pins, ALLOWED_PWM_PINS);
  }

  /** A reboot restores the settings as stored, which are the present ones unless an edit was not stored;
      forgets every override, starts all pins at zero and attaches exactly the scheduled pins that do not
      fail; the clock resumes from the last checkpoint. */
  lemma RebootRestores(d: Device, now: int, at: int, pin: int)
    requires Valid(d, now) && now <= at
    ensures var r := Boot(Image(d), d.out.failing, at, [], []);
            && r.name == d.kept.name && r.frequency == d.kept.frequency && r.out.resolution == d.kept.resolution
            && (UpToDate(d) <==> r.name == d.name && r.frequency == d.frequency && r.out.resolution == d.out.resolution)
            && r.out.schedule == d.out.schedule
            && OutputAt(r.out, pin) == 0 && !Overridden(r.out, pin)
            && (pin in r.out.attached <==>
                  d.out.schedule.Some? && pin in Pins(d.out.schedule.value) && pin !in d.out.failing)
            && (d.clock.saved.Some? && Restorable(d.clock.saved.value) ==> EpochAt(r.clock, at) == d.clock.saved.value)
  {
    if d.out.schedule.Some? {
      var schedule := d.out.schedule.value;
      var blank := Boot(Image(d).(schedule := None), d.out.failing, at, [], []);
      BlankIsValid(Image(d).(schedule := None), d.out.failing, at, [], []);
      BootActivates(Image(d), d.out.failing, at, [], []);
      assert Release(blank.out, [], Pins(schedule)) == blank.out;
      ScheduleReplaces(blank.out, schedule, pin);
      AdoptedIsValid(blank.out, schedule, true);
      AttachAllOnly(Adopt(blank.out, schedule), Fresh(schedule), pin);
    }
  }
}
