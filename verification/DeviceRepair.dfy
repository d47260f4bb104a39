/** Exactly which events bring a duty that is out of range back, and how long it stays. */
module DeviceRepair {
  import opened Pwm
  import opened Firmware
  import opened DeviceOutputs
  import opened DeviceCache
  import opened DeviceTime
  import opened DeviceModel
  import opened DeviceSafety

  // ----- What a loop writes -----

  /** The loop at `at` ends the pin's override. */
  predicate EndsOverride(d: Device, at: int, pin: int) {
    Overridden(d.out, pin) && ChecksNow(d, at) && at - StartedAt(d.out, pin) >= OVERRIDE_DURATION
  }

  /** The loop at `at` writes the pin: its override ends and nothing or the schedule takes over at once, or the
      schedule is in charge of it and its percentage has moved. */
  predicate LoopWrites(d: Device, at: int, pin: int) {
    var i := FindChannel(d.out.channels, pin);
    if EndsOverride(d, at, pin) then i.None? || !d.clock.initialized || SchedulesAt(d, at)
    else
      && i.Some? && SchedulesAt(d, at) && !Overridden(d.out, pin) && i.value < |d.out.schedule.value|
      && d.out.channels[i.value].currentValue
           != ScheduledValue(d.out.schedule.value[i.value].links, MinuteAt(ServiceCheckpoint(d.clock, at), at))
  }

  /** Ending the overrides that are due, seen by one pin. */
  lemma ExpiriesAt(o: Outputs, now: nat, timed: bool, pin: int)
    ensures var r, due := CheckExpiries(o, now, timed), pin in DuePins(o, now);
            && OutputAt(r, pin) == (if due && (pin !in ChannelPins(o.channels) || !timed) then 0 else OutputAt(o, pin))
            && r.attached == o.attached && r.schedule == o.schedule && |r.channels| == |o.channels|
            && (forall i :: 0 <= i < |o.channels| ==>
                  r.channels[i].pin == o.channels[i].pin
                    && (o.channels[i].pin == pin && !due ==> r.channels[i] == o.channels[i]))
            && (Overridden(r, pin) <==> Overridden(o, pin) && !due)
  {
  }

  lemma DueIff(d: Device, at: int, pin: int)
    requires Valid(d, at) && Timely(d, at)
    ensures Elapsed(Millis(at, d.clock.boot), d.lastOverrideCheck) >= OVERRIDE_CHECK_INTERVAL <==> ChecksNow(d, at)
    ensures pin in DuePins(d.out, Millis(at, d.clock.boot))
      <==> Overridden(d.out, pin) && at - StartedAt(d.out, pin) >= OVERRIDE_DURATION
  {
    assert OverrideOk(d.out, d.clock.boot, d.checkedAt, pin, at);
    CheckIsTimely(d, at);
    if Overridden(d.out, pin) { AgeIsTrue(d, pin, at); }
  }

  /** The end of overrides in a loop, seen by one pin. */
  lemma OverridesAt(d: Device, at: int, pin: int)
    requires Valid(d, at) && Timely(d, at)
    ensures var o, r := d.out, ServiceOverrides(ServiceStorage(d, at), at).out;
            var off := EndsOverride(d, at, pin) && (pin !in ChannelPins(o.channels) || !d.clock.initialized);
            && OutputAt(r, pin) == (if off then 0 else OutputAt(o, pin))
            && r.attached == o.attached && r.schedule == o.schedule && |r.channels| == |o.channels|
            && (forall i :: 0 <= i < |o.channels| ==>
                  && r.channels[i].pin == o.channels[i].pin
                  && (o.channels[i].pin == pin && !EndsOverride(d, at, pin) ==> r.channels[i] == o.channels[i]))
            && (Overridden(r, pin) <==> Overridden(o, pin) && !EndsOverride(d, at, pin))
  {
    StorageOutputs(d, at);
    ServiceKeepsClock(d.clock, at);
    DueIff(d, at, pin);
    ExpiriesAt(d.out, Millis(at, d.clock.boot), d.clock.initialized, pin);
  }

  /** The stages before the schedule stage, seen by one pin. */
  lemma StagesAt(d: Device, at: int, pin: int)
    requires Valid(d, at) && Timely(d, at)
    ensures var ended, r := ServiceOverrides(ServiceStorage(d, at), at).out, BeforeSchedule(d, at).out;
            && OutputAt(r, pin) == OutputAt(ended, pin) && r.channels == ended.channels && r.states == ended.states
            && ended.attached <= r.attached
  {
    var ended := ServiceOverrides(ServiceStorage(d, at), at);
    StorageKeepsValid(d, at);
    OverridesKeepValid(ServiceStorage(d, at), at);
    AttachmentOutputs(ended, at);
    AttachAllOnly(ended.out, ended.out.channels, pin);
    forall p | p in ended.out.attached ensures p in AttachAll(ended.out, ended.out.channels).attached {
      AttachAllOnly(ended.out, ended.out.channels, p);
    }
  }

  lemma {:induction false} DriveAllElsewhere(o: Outputs, schedule: seq<FirmwareChannel>, minute: int, pin: int)
    requires forall i :: 0 <= i < |schedule| ==> schedule[i].pin != pin
    ensures OutputAt(DriveAll(o, schedule, minute), pin) == OutputAt(o, pin)
    decreases |schedule|
  {
    if schedule != [] { DriveAllElsewhere(o, schedule[..|schedule| - 1], minute, pin); }
  }

  /** A pin the schedule does not use. */
  lemma UnscheduledLoopAt(d: Device, at: int, pin: int)
    requires Valid(d, at) && Timely(d, at) && FindChannel(d.out.channels, pin).None?
    ensures OutputAt(RunLoop(d, at).out, pin) == if EndsOverride(d, at, pin) then 0 else OutputAt(d.out, pin)
  {
    var before := BeforeSchedule(d, at);
    OverridesAt(d, at, pin);
    StagesAt(d, at, pin);
    BeforeIsValid(d, at);
    if before.out.schedule.Some? {
      DriveAllElsewhere(before.out, before.out.schedule.value, MinuteAt(before.clock, at), pin);
    }
  }

  /** A loop that does not run the schedule. */
  lemma IdleLoopAt(d: Device, at: int, pin: int)
    requires Valid(d, at) && Timely(d, at) && !SchedulesAt(d, at)
    ensures OutputAt(RunLoop(d, at).out, pin) == OutputAt(ServiceOverrides(ServiceStorage(d, at), at).out, pin)
  {
    StagesAt(d, at, pin);
    BeforeIsValid(d, at);
    ServiceKeepsClock(d.clock, at);
  }

  /** A scheduled pin in a loop that runs the schedule and ends no override of it. */
  lemma ScheduledLoopAt(d: Device, at: int, i: nat)
    requires Valid(d, at) && SchedulesAt(d, at) && i < |d.out.channels| && d.out.channels[i].pin in d.out.attached
    requires !EndsOverride(d, at, d.out.channels[i].pin)
    ensures var pin, minute := d.out.channels[i].pin, MinuteAt(ServiceCheckpoint(d.clock, at), at);
            var target := ScheduledValue(d.out.schedule.value[i].links, minute);
            && 0 <= target <= 100
            && OutputAt(RunLoop(d, at).out, pin)
                 == if !Overridden(d.out, pin) && d.out.channels[i].currentValue != target
                    then PercentDuty(target, d.out.resolution) else OutputAt(d.out, pin)
  {
    var before := BeforeSchedule(d, at);
    OverridesAt(d, at, d.out.channels[i].pin);
    StagesAt(d, at, d.out.channels[i].pin);
    BeforeIsValid(d, at);
    ServiceKeepsClock(d.clock, at);
    ScheduledValueIsPercent(before.out.schedule.value[i].links, MinuteAt(before.clock, at));
    TickAt(before.out, MinuteAt(before.clock, at), i);
  }

  lemma OutOfRangeIsAttached(d: Device, at: int, pin: int)
    requires Valid(d, at) && !InRange(d.out, pin)
    ensures pin in d.out.attached
  {
    assert PinSound(d.out, pin);
    MaxDutyGrows(1, d.out.resolution);
  }

  /** A loop brings a duty back into range exactly when it writes the pin. */
  lemma LoopMendsIff(d: Device, at: int, pin: int)
    requires Valid(d, at) && Timely(d, at) && !InRange(d.out, pin)
    ensures InRange(RunLoop(d, at).out, pin) <==> LoopWrites(d, at, pin)
  {
    OutOfRangeIsAttached(d, at, pin);
    MaxDutyGrows(1, d.out.resolution);
    LoopKeepsSettings(d, at);
    match FindChannel(d.out.channels, pin)
    case None => UnscheduledLoopAt(d, at, pin);
    case Some(i) =>
      OverridesAt(d, at, pin);
      if !SchedulesAt(d, at) {
        IdleLoopAt(d, at, pin);
      } else if EndsOverride(d, at, pin) {
        LoopEndsOverrides(d, at, pin);
        EndedOverrideIsExact(d, at, i);
        EndedInRange(d, at, i);
      } else {
        ScheduledLoopAt(d, at, i);
        PercentDutyInRange(ScheduledValue(d.out.schedule.value[i].links, MinuteAt(ServiceCheckpoint(d.clock, at), at)),
                           d.out.resolution);
      }
  }

  lemma EndedInRange(d: Device, at: int, i: nat)
    requires Valid(d, at) && SchedulesAt(d, at) && i < |d.out.channels|
    requires Exact(RunLoop(d, at).out, d.out.schedule.value[i], MinuteAt(RunLoop(d, at).clock, at))
    ensures InRange(RunLoop(d, at).out, d.out.channels[i].pin)
  {
    BeforeIsValid(d, at);
    ServiceKeepsClock(d.clock, at);
    LoopKeepsSettings(d, at);
    var minute := MinuteAt(RunLoop(d, at).clock, at);
    ScheduledValueIsPercent(d.out.schedule.value[i].links, minute);
    PercentDutyInRange(ScheduledValue(d.out.schedule.value[i].links, minute), d.out.resolution);
  }

  // ----- Every event -----

  /** The duty of the pin after an edit that takes effect. */
  function EditedDuty(d: Device, e: Event, pin: int): int
    requires e.EditCommand? && ValidResolution(d.out.resolution) && ValidResolution(e.bits)
  {
    if e.stores && Reattaches(d, e.frequency, e.bits) then Rescale(OutputAt(d.out, pin), d.out.resolution, e.bits)
    else OutputAt(d.out, pin)
  }

  /** What brings a pin's duty back: a manual duty, an edit after which it fits, a schedule that drops the pin,
      a loop that writes it, and a reboot. */
  predicate Mends(d: Device, e: Event, at: int, pin: int)
    requires ValidResolution(d.out.resolution)
  {
    match e
    case SetCommand(p, value, _) => p == pin && SetOutcomeOf(d.out, p, value) == SetOk
    case EditCommand(name, frequency, bits, _) =>
      Editable(name, frequency, bits) && 0 <= EditedDuty(d, e, pin) <= MaxDuty(bits)
    case ScheduleCommand(schedule, _) =>
      AcceptableSchedule(schedule) && pin in ChannelPins(d.out.channels) && pin !in Pins(schedule)
    case Loop => LoopWrites(d, at, pin)
    case Reboot(_, _) => true
    case _ => false
  }

  lemma ScheduleMendsIff(d: Device, schedule: seq<FirmwareChannel>, stores: bool, at: int, pin: int)
    requires Valid(d, at) && !InRange(d.out, pin)
    ensures InRange(HandleSchedule(d, schedule, stores, at).out, pin)
      <==> AcceptableSchedule(schedule) && pin in ChannelPins(d.out.channels) && pin !in Pins(schedule)
  {
    MaxDutyGrows(1, d.out.resolution);
    ReleaseOnly(d.out, d.out.channels, Pins(schedule), pin);
    ScheduleReplaces(d.out, schedule, pin);
  }

  lemma StepMendsIff(d: Device, e: Event, at: int, pin: int)
    requires Valid(d, at) && !InRange(d.out, pin) && (e.Loop? ==> Timely(d, at))
    ensures InRange(Step(d, e, at).out, pin) <==> Mends(d, e, at, pin)
  {
    match e
    case SetCommand(p, value, overwrite) =>
      if SetOutcomeOf(d.out, p, value) == SetOk { RescaleKeepsRange(value, 8, d.out.resolution); }
    case EditCommand(name, frequency, bits, stores) =>
      OutOfRangeIsAttached(d, at, pin);
      assert PinSound(d.out, pin);
    case ScheduleCommand(schedule, stores) => ScheduleMendsIff(d, schedule, stores, at, pin);
    case Loop => LoopMendsIff(d, at, pin);
    case Reboot(timeOutcomes, diagnosticOutcomes) =>
      BootIsInRange(Image(d), d.out.failing, at, timeOutcomes, diagnosticOutcomes);
    case _ =>
  }

  // ----- Runs -----

  predicate OutThroughout(d: Device, now: int, run: seq<(Event, int)>, pin: int)
    requires ValidResolution(d.out.resolution) && IsRun(d, now, run)
    decreases |run|
  {
    !InRange(d.out, pin) && (run != [] ==> OutThroughout(Step(d, run[0].0, run[0].1), run[0].1, run[1..], pin))
  }

  predicate NoneMends(d: Device, now: int, run: seq<(Event, int)>, pin: int)
    requires ValidResolution(d.out.resolution) && IsRun(d, now, run)
    decreases |run|
  {
    run != [] ==>
      !Mends(d, run[0].0, run[0].1, pin) && NoneMends(Step(d, run[0].0, run[0].1), run[0].1, run[1..], pin)
  }

  /** Over every run, edits and reboots included: a duty out of range stays out of range throughout exactly
      when no event mends it. */
  lemma {:induction false} OutOfRangeUntilMended(d: Device, now: int, run: seq<(Event, int)>, pin: int)
    requires Valid(d, now) && IsRun(d, now, run) && !InRange(d.out, pin)
    ensures OutThroughout(d, now, run, pin) <==> NoneMends(d, now, run, pin)
    decreases |run|
  {
    if run != [] {
      var (e, at) := run[0];
      Later(d, now, at);
      StepKeepsValid(d, e, at);
      StepMendsIff(d, e, at, pin);
      if !Mends(d, e, at, pin) { OutOfRangeUntilMended(Step(d, e, at), at, run[1..], pin); }
    }
  }
}
