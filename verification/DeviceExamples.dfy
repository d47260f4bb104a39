/** Runs from boot in which a scheduled loop leaves the wrong duty, and one in which a duty leaves its range. */
module DeviceExamples {
  import opened Options
  import opened Pwm
  import opened Firmware
  import opened DeviceOutputs
  import opened DeviceCache
  import opened DeviceTime
  import opened DeviceModel
  import opened DeviceSafety

  /** Pin 4 at 50 percent all day. */
  const HALF := FirmwareChannel(4, DeviceOutputs.LIGHT, [Link(0, 50, 1439, 50)])

  const STORAGE := Stored("esp", 5000, 8, Some(EARLIEST_RESTORED), Some([HALF]), None)

  lemma HalfAllDay(minute: int)
    requires 0 <= minute <= 1439
    ensures ScheduledValue(HALF.links, minute) == 50
  {
    LinkValueInHull(HALF.links[0], minute);
  }

  lemma HalfDuties()
    ensures PercentDuty(50, 8) == 127 && PercentDuty(50, 10) == 511 && MaxDuty(1) == 1
    ensures Rescale(200, 8, 8) == 200
  {
    MaxDutyGrows(8, 8);
    assert Pow2(10) == 1024 by { assert Pow2(9) == 512; }
    ExactQuotient(200, 255);
  }

  lemma HalfIsUsable()
    ensures AcceptableSchedule([HALF]) && ValidConfiguration(5000, 8) && ValidConfiguration(5000, 10)
      && ValidConfiguration(5000, 1)
  {
    HalfDuties();
    MaxDutyGrows(8, 8);
    assert Pow2(10) == 1024 by { assert Pow2(9) == 512; }
  }

  predicate Started(d: Device, lastRetry: nat) {
    d.clock.initialized && d.clock.boot == 0 && d.frequency == 5000 && d.lastAttachRetry == lastRetry
  }

  const DARK := Outputs(8, {4}, map[4 := 0], map[4 := 0], map[], {}, Some([HALF]),
    [ActiveChannel(4, -1, DeviceOutputs.LIGHT)], map[])
  const LIT := Outputs(8, {4}, map[4 := 127], map[4 := 127], map[], {}, Some([HALF]),
    [ActiveChannel(4, 50, DeviceOutputs.LIGHT)], map[])

  /** Just booted: pin 4 attached at zero, nothing cached. */
  ghost predicate IsBooted(d: Device) {
    Valid(d, 0) && d.out == DARK && Started(d, 1) && d.lastScheduleUpdate == 1 && d.loopedAt == 0
  }

  /** After the first scheduled loop: pin 4 at half duty, and the cache says so. */
  ghost predicate IsRunning(d: Device) {
    Valid(d, 1000) && d.out == LIT && Started(d, 1) && d.lastScheduleUpdate == 1001 && d.loopedAt == 1000
  }

  lemma BootedIs(d: Device)
    requires d == Boot(STORAGE, {}, 0, [], [])
    ensures IsBooted(d)
  {
    HalfIsUsable();
    BootIsValid(STORAGE, {}, 0, [], []);
    BootActivates(STORAGE, {}, 0, [], []);
    var a := Adopt(Outputs(8, {}, map[], map[], map[], {}, None, [], map[]), [HALF]);
    assert Fresh([HALF]) == [ActiveChannel(4, -1, DeviceOutputs.LIGHT)];
    assert AttachAll(a, Fresh([HALF])[..0]) == a;
  }

  lemma NoOverrides(o: Outputs, now: nat, timed: bool)
    requires o.states == map[]
    ensures CheckExpiries(o, now, timed) == o
  {
    assert DuePins(o, now) == {};
    NothingEnded(o, timed);
  }

  lemma AllAttached(o: Outputs, channels: seq<ActiveChannel>)
    requires |channels| == 1 && channels[0].pin in o.attached
    ensures AttachAll(o, channels) == o
  {
    assert AttachAll(o, channels[..0]) == o;
  }

  lemma BeforeFirstLoop(d: Device)
    requires IsBooted(d)
    ensures BeforeSchedule(d, 1000).out == DARK && BeforeSchedule(d, 1000).lastScheduleUpdate == 1
  {
    BeforeIsValid(d, 1000);
    BeforeOutputs(d, 1000);
    NoOverrides(DARK, Millis(1000, 0), ServiceCheckpoint(d.clock, 1000).initialized);
    AllAttached(DARK, DARK.channels);
  }

  lemma TickLights(minute: int)
    requires 0 <= minute <= 1439
    ensures DriveAll(DARK, [HALF], minute) == LIT
  {
    HalfDuties();
    HalfAllDay(minute);
    assert [HALF][..0] == [];
    assert DriveAll(DARK, [HALF], minute) == Drive(DARK, HALF, minute);
  }

  lemma ScheduleStage(d: Device, at: int)
    requires d.out.schedule.Some? && d.clock.initialized
      && Elapsed(Millis(at, d.clock.boot), d.lastScheduleUpdate) >= SCHEDULE_INTERVAL
    ensures var r := ServiceSchedule(d, at);
            r == d.(lastScheduleUpdate := Millis(at, d.clock.boot),
                    out := DriveAll(d.out, d.out.schedule.value, MinuteAt(d.clock, at)))
  {
  }

  lemma StagesKeepRetry(d: Device, at: int)
    requires d.lastAttachRetry == 1 && 1000 <= at < 60000 && d.clock.boot == 0
    ensures BeforeSchedule(d, at).lastAttachRetry == 1 && BeforeSchedule(d, at).loopedAt == at
    ensures BeforeSchedule(d, at).frequency == d.frequency
  {
    StorageOutputs(d, at);
  }

  lemma FirstLoop(d: Device)
    requires IsBooted(d)
    ensures IsRunning(Step(d, Loop, 1000))
  {
    var before := BeforeSchedule(d, 1000);
    Later(d, 0, 1000);
    BeforeFirstLoop(d);
    BeforeIsValid(d, 1000);
    ServiceKeepsClock(d.clock, 1000);
    StagesKeepRetry(d, 1000);
    RunLoopKeepsValid(d, 1000);
    ScheduleStage(before, 1000);
    TickLights(MinuteAt(before.clock, 1000));
  }

  /** Such a device is one loop from boot. */
  lemma RunningIsReachable(d: Device)
    requires d == Boot(STORAGE, {}, 0, [], [])
    ensures Valid(d, 0) && Timely(d, 1000) && IsRunning(Step(d, Loop, 1000))
  {
    BootedIs(d);
    FirstLoop(d);
  }

  /** The loop at `at` leaves pin 4, which the schedule is in charge of, at another duty than scheduled. */
  predicate LoopMisses(d: Device, at: int) {
    var r := RunLoop(d, at);
    Free(r.out, 4) && !Exact(r.out, HALF, MinuteAt(r.clock, at))
  }

  lemma StuckMisses(d: Device, duty: int, minute: int)
    requires Stuck(d, 0, 50, duty) && d.out.channels[0].pin == 4 && 0 <= minute <= 1439
    ensures Free(d.out, 4) && !Exact(d.out, HALF, minute)
  {
    HalfAllDay(minute);
  }

  lemma StuckIsWrong(d: Device, duty: int)
    requires Valid(d, 2000) && SchedulesAt(d, 2000) && d.out.schedule == Some([HALF]) && Stuck(d, 0, 50, duty)
    ensures LoopMisses(d, 2000)
  {
    HalfAllDay(MinuteAt(ServiceCheckpoint(d.clock, 2000), 2000));
    assert d.out.channels[0].pin == [HALF][0].pin;
    StuckLoop(d, 2000, 0, 50, duty);
    StuckMisses(RunLoop(d, 2000), duty, MinuteAt(RunLoop(d, 2000).clock, 2000));
  }

  /** A manual duty of 200 without override survives the scheduled loop that should set 127. */
  lemma StrayDutyStays(d: Device)
    requires IsRunning(d)
    ensures var written := Step(d, SetCommand(4, 200, false), 1500);
            && Valid(written, 2000) && SchedulesAt(written, 2000) && Stuck(written, 0, 50, 200)
            && LoopMisses(written, 2000)
  {
    var written := Step(d, SetCommand(4, 200, false), 1500);
    Later(d, 1000, 1500);
    SetKeepsValid(d, 4, 200, false, 1500);
    HalfDuties();
    Later(written, 1500, 2000);
    StuckIsWrong(written, 200);
  }

  /** An edit to ten bits that breaks off at its storage write leaves 127 where 511 is due; all duties fit. */
  lemma BrokenEditStays(d: Device)
    requires IsRunning(d)
    ensures var edited := Step(d, EditCommand("esp", 5000, 10, false), 1500);
            && Valid(edited, 2000) && SchedulesAt(edited, 2000) && Fits(d, EditCommand("esp", 5000, 10, false))
            && Stuck(edited, 0, 50, 127)
            && LoopMisses(edited, 2000)
  {
    var edited := Step(d, EditCommand("esp", 5000, 10, false), 1500);
    Later(d, 1000, 1500);
    HalfIsUsable();
    EditKeepsValid(d, "esp", 5000, 10, false, 1500);
    HalfDuties();
    MaxDutyGrows(8, 10);
    Later(edited, 1500, 2000);
    StuckIsWrong(edited, 127);
  }

  /** The same to one bit leaves a duty of 127 where 1 is the most. */
  lemma BrokenEditOverflows(d: Device)
    requires IsRunning(d)
    ensures var edited := Step(d, EditCommand("esp", 5000, 1, false), 1500);
            Valid(edited, 1500) && OutputAt(edited.out, 4) == 127 > MaxDuty(edited.out.resolution)
              && !InRange(edited.out, 4)
  {
    Later(d, 1000, 1500);
    HalfIsUsable();
    EditKeepsValid(d, "esp", 5000, 1, false, 1500);
    HalfDuties();
  }

  /** As it is left by a schedule that broke off: pin 4 released, its channel kept. */
  const UNLIT := LIT.(attached := {}, output := map[4 := 0], last := map[4 := 0])

  lemma BrokenSchedule(d: Device)
    requires IsRunning(d)
    ensures var released := Step(d, ScheduleCommand([], false), 1500);
            released == d.(out := UNLIT) && Valid(released, 62000) && SchedulesAt(released, 62000)
  {
    var released := Step(d, ScheduleCommand([], false), 1500);
    Later(d, 1000, 1500);
    ScheduleCommandKeepsValid(d, [], false, 1500);
    assert LIT.channels[..0] == [];
    assert Release(LIT, LIT.channels[..0], {}) == LIT;
    assert LIT.output[4 := 0] == UNLIT.output && LIT.attached - {4} == {} && LIT.states - {4} == map[];
    assert Pins([]) == {} && Release(LIT, LIT.channels, Pins([])) == UNLIT;
    assert AcceptableSchedule([]);
    Later(released, 1500, 62000);
  }

  /** Once the pin is attached again the loop believes its cache and leaves it dark. */
  lemma BrokenScheduleStays(d: Device)
    requires IsRunning(d)
    ensures LoopMisses(Step(d, ScheduleCommand([], false), 1500), 62000)
  {
    BrokenSchedule(d);
    UnlitStaysDark(d.(out := UNLIT));
  }

  lemma UnlitStaysDark(d: Device)
    requires Valid(d, 62000) && SchedulesAt(d, 62000) && d.lastAttachRetry == 1 && d.clock.boot == 0 && d.out == UNLIT
    ensures LoopMisses(d, 62000)
  {
    var before := BeforeSchedule(d, 62000);
    BeforeIsValid(d, 62000);
    ServiceKeepsClock(d.clock, 62000);
    Reattaches(d);
    ScheduleStage(before, 62000);
    TickStaysDark(MinuteAt(before.clock, 62000));
  }

  lemma TickStaysDark(minute: int)
    requires 0 <= minute <= 1439
    ensures var r := DriveAll(UNLIT.(attached := {4}), [HALF], minute); Free(r, 4) && !Exact(r, HALF, minute)
  {
    HalfDuties();
    HalfAllDay(minute);
    TickAt(UNLIT.(attached := {4}), minute, 0);
  }

  lemma Reattaches(d: Device)
    requires d.lastAttachRetry == 1 && d.clock.boot == 0 && d.out == UNLIT
    ensures BeforeSchedule(d, 62000).out == UNLIT.(attached := {4})
  {
    var ended := ServiceOverrides(ServiceStorage(d, 62000), 62000);
    StorageOutputs(d, 62000);
    OverrideOutputs(ServiceStorage(d, 62000), 62000);
    NoOverrides(UNLIT, Millis(62000, 0), ServiceStorage(d, 62000).clock.initialized);
    assert ended.out == UNLIT;
    RetryIsDue(d);
    assert AttachAll(UNLIT, UNLIT.channels[..0]) == UNLIT;
    assert AttachAll(UNLIT, UNLIT.channels) == Attached(UNLIT, 4, 0);
  }

  lemma RetryIsDue(d: Device)
    requires d.lastAttachRetry == 1 && d.clock.boot == 0 && d.out.schedule.Some?
    ensures var ended := ServiceOverrides(ServiceStorage(d, 62000), 62000);
            ended.out.schedule.Some? ==>
              ServiceAttachments(ended, 62000).out == AttachAll(ended.out, ended.out.channels)
  {
    StorageOutputs(d, 62000);
  }
}
