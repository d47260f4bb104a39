/** The whole device as a value: commands, the run loop, reboot, and what every run keeps. */
module DeviceModel {
  import opened Options
  import opened Pwm
  import opened DeviceOutputs
  import opened DeviceTime

  const OVERRIDE_CHECK_INTERVAL := 200
  const SCHEDULE_INTERVAL := 1000
  const ATTACH_RETRY_INTERVAL := 60000
  const HALF_RANGE := 0x8000_0000
  const DEFAULT_NAME := "ESP32_Device"
  const DEFAULT_FREQUENCY := 5000
  const DEFAULT_RESOLUTION := 8

  /** What storage holds across a reboot. */
  datatype Stored = Stored(
    name: string,
    frequency: int,
    resolution: nat,
    time: Option<int>,
    schedule: Option<seq<FirmwareChannel>>,
    error: Option<LastError>)

  /** The settings as storage holds them; a failing write leaves them behind the present ones. */
  datatype Settings = Settings(name: string, frequency: int, resolution: nat, schedule: Option<seq<FirmwareChannel>>)

  /** `checkedAt` and `loopedAt` are history: the true times of the last override check and the last loop. */
  datatype Device = Device(
    name: string,
    frequency: int,
    kept: Settings,
    out: Outputs,
    clock: Timekeeper,
    diag: Diagnostics,
    lastScheduleUpdate: nat,
    lastAttachRetry: nat,
    lastOverrideCheck: nat,
    checkedAt: int,
    loopedAt: int)

  /** `stores` says whether the storage write of the command succeeds. */
  datatype Event =
    | SetCommand(pin: int, value: int, overwrite: bool)
    | EditCommand(name: string, frequency: int, bits: int, stores: bool)
    | ScheduleCommand(schedule: seq<FirmwareChannel>, stores: bool)
    | SyncCommand(epoch: int)
    | BadRequest(cause: Cause)
    | PinFails(pin: int, failing: bool)
    | Loop
    | Reboot(timeOutcomes: seq<bool>, diagnosticOutcomes: seq<bool>)

  predicate ValidFrequency(frequency: int) { 0 < frequency <= 40000 }

  predicate ValidConfiguration(frequency: int, bits: int) {
    ValidFrequency(frequency) && ValidResolution(bits) && frequency * Pow2(bits) <= 80000000
  }

  predicate ValidName(name: string) {
    1 <= |name| <= 31 && forall i :: 0 <= i < |name| ==> '!' <= name[i] <= '~'
  }

  // ----- Attach failures and their diagnostics -----

  /** The pins of `channels` that cannot be attached, in order. */
  function FailedPins(o: Outputs, channels: seq<ActiveChannel>): seq<int>
    decreases |channels|
  {
    if channels == [] then []
    else
      var n := |channels| - 1;
      var r, pin := AttachAll(o, channels[..n]), channels[n].pin;
      FailedPins(o, channels[..n]) + (if pin !in r.attached && pin in r.failing then [pin] else [])
  }

  /** Diagnostics resolved by the pins that can be attached now. */
  function ResolveAttached(d: Diagnostics, o: Outputs, channels: seq<ActiveChannel>, at: int): Diagnostics
    decreases |channels|
  {
    if channels == [] then d
    else
      var n := |channels| - 1;
      var r, pin := AttachAll(o, channels[..n]), channels[n].pin;
      var rest := ResolveAttached(d, o, channels[..n], at);
      if pin !in r.attached && pin !in r.failing then ResolveAttach(rest, pin, at) else rest
  }

  /** `reportScheduleAttachFailures`. */
  function ReportFailures(d: Diagnostics, failed: seq<int>, epoch: int, at: int): Diagnostics {
    if failed == [] then d else RecordError(d, AttachFailure(failed[0]), epoch, at)
  }

  /** Attaching the channels' pins, with the diagnostics that go with it. */
  function AttachChannels(d: Device, at: int): Device {
    d.(out := AttachAll(d.out, d.out.channels),
       diag := ReportFailures(ResolveAttached(d.diag, d.out, d.out.channels, at), FailedPins(d.out, d.out.channels),
                              EpochAt(d.clock, at), at))
  }

  // ----- Commands -----

  /** `handleSetCommand`. */
  function HandleSet(d: Device, pin: int, value: int, overwrite: bool, at: int): Device {
    match SetOutcomeOf(d.out, pin, value)
    case SetOk =>
      d.(out := SetPwm(d.out, pin, value, overwrite, Millis(at, d.clock.boot), at),
         diag := ResolveAttach(d.diag, pin, at))
    case AttachFailed => d.(diag := RecordError(d.diag, AttachFailure(pin), EpochAt(d.clock, at), at))
    case _ => d
  }

  /** `persistEeprom` where it succeeds. */
  function Persisted(d: Device): Device {
    d.(kept := d.kept.(name := d.name, frequency := d.frequency, resolution := d.out.resolution))
  }

  predicate Editable(name: string, frequency: int, bits: int) { ValidName(name) && ValidConfiguration(frequency, bits) }

  predicate Reattaches(d: Device, frequency: int, bits: int) { frequency != d.frequency || bits != d.out.resolution }

  /** `handleEditCommand`: duties are rescaled when frequency or resolution changes. A failing storage write
      breaks off with the new settings in force and the duties not yet rescaled. */
  function HandleEdit(d: Device, name: string, frequency: int, bits: int, stores: bool): Device
    requires ValidResolution(d.out.resolution)
  {
    if !Editable(name, frequency, bits) then d
    else
      var edited := d.(name := name, frequency := frequency, out := d.out.(resolution := bits));
      if !stores then edited
      else if !Reattaches(d, frequency, bits) then Persisted(edited)
      else Persisted(edited).(out := RescaledOver(edited.out, d.out.attached, d.out.resolution))
  }

  predicate AcceptableSchedule(schedule: seq<FirmwareChannel>) { |schedule| <= 64 && ValidSchedule(schedule) }

  function Released(d: Device, schedule: seq<FirmwareChannel>): Device {
    d.(out := Release(d.out, d.out.channels, Pins(schedule)))
  }

  /** The part of `processSchedule` after the storage write. */
  function Activated(d: Device, schedule: seq<FirmwareChannel>, at: int): Device {
    AttachChannels(d.(out := Adopt(d.out, schedule), kept := d.kept.(schedule := Some(schedule))), at).(
      lastAttachRetry := Millis(at, d.clock.boot))
  }

  /** `handleScheduleCommand`, and `processSchedule` on boot. A failing storage write breaks off with pins
      released and the former channels still in force. */
  function HandleSchedule(d: Device, schedule: seq<FirmwareChannel>, stores: bool, at: int): Device {
    if !AcceptableSchedule(schedule) then d
    else if !stores then Released(d, schedule)
    else Activated(Released(d, schedule), schedule, at)
  }

  /** The `sync_time` command; a checkpoint that is taken stores all settings. */
  function HandleSync(d: Device, epoch: int, at: int): Device {
    var synced := d.(clock := SyncTime(d.clock, epoch, at));
    if synced.clock.checkpoints > 0 then Persisted(synced) else synced
  }

  // ----- The run loop -----

  function ServiceStorage(d: Device, at: int): Device {
    var serviced := d.(clock := ServiceCheckpoint(d.clock, at), diag := ServiceDiagnostics(d.diag, at));
    if serviced.clock.checkpoints > d.clock.checkpoints then Persisted(serviced) else serviced
  }

  function ServiceOverrides(d: Device, at: int): Device {
    var now := Millis(at, d.clock.boot);
    if Elapsed(now, d.lastOverrideCheck) < OVERRIDE_CHECK_INTERVAL then d.(loopedAt := at)
    else
      d.(out := CheckExpiries(d.out, now, d.clock.initialized),
         lastOverrideCheck := now, checkedAt := at, loopedAt := at)
  }

  function ServiceAttachments(d: Device, at: int): Device {
    var now := Millis(at, d.clock.boot);
    if d.out.schedule.None? || Elapsed(now, d.lastAttachRetry) < ATTACH_RETRY_INTERVAL then d
    else AttachChannels(d.(lastAttachRetry := now), at)
  }

  function ServiceSchedule(d: Device, at: int): Device {
    var now := Millis(at, d.clock.boot);
    if d.out.schedule.None? || Elapsed(now, d.lastScheduleUpdate) < SCHEDULE_INTERVAL then d
    else
      d.(lastScheduleUpdate := now,
         out := if d.clock.initialized then DriveAll(d.out, d.out.schedule.value, MinuteAt(d.clock, at)) else d.out)
  }

  /** `runLoop`. */
  function RunLoop(d: Device, at: int): Device {
    ServiceSchedule(ServiceAttachments(ServiceOverrides(ServiceStorage(d, at), at), at), at)
  }

  // ----- Boot and storage -----

  /** What the device leaves in storage. */
  function Image(d: Device): Stored {
    Stored(d.kept.name, d.kept.frequency, d.kept.resolution, d.clock.saved, d.kept.schedule, d.diag.stored)
  }

  /** Storage holds the present settings. */
  predicate UpToDate(d: Device) {
    d.kept.name == d.name && d.kept.frequency == d.frequency && d.kept.resolution == d.out.resolution
  }

  predicate Printable(name: string) { forall i :: 0 <= i < |name| ==> ' ' <= name[i] <= '~' }

  lemma DefaultsAreValid()
    ensures ValidConfiguration(DEFAULT_FREQUENCY, DEFAULT_RESOLUTION)
  {
    MaxDutyGrows(8, 8);
  }

  /** Frequency and resolution restored each on its own, or both at their defaults where the two do not fit. */
  function BootConfiguration(frequency: int, bits: nat): (c: (int, nat))
    ensures ValidConfiguration(c.0, c.1) && (ValidConfiguration(frequency, bits) ==> c == (frequency, bits))
  {
    DefaultsAreValid();
    var f := if ValidFrequency(frequency) then frequency else DEFAULT_FREQUENCY;
    var r := if ValidResolution(bits) then bits else DEFAULT_RESOLUTION;
    if ValidConfiguration(f, r) then (f, r) else (DEFAULT_FREQUENCY, DEFAULT_RESOLUTION)
  }

  /** Boot from storage, up to the schedule; names are stored printable, so restoring drops nothing. */
  function Blank(stored: Stored, failing: set<int>, at: int, timeOutcomes: seq<bool>, diagnosticOutcomes: seq<bool>)
    : Device
  {
    var (frequency, resolution) := BootConfiguration(stored.frequency, stored.resolution);
    var now := Millis(at, at);
    var out := Outputs(resolution, {}, map[], map[], map[], failing, None, [], map[]);
    var name := if |stored.name| > 0 then stored.name else DEFAULT_NAME;
    Device(name, frequency, Settings(name, frequency, resolution, stored.schedule), out,
           BootClock(stored.time, at, timeOutcomes), BootDiagnostics(stored.error, at, diagnosticOutcomes),
           now, now, now, at, at)
  }

  function Boot(stored: Stored, failing: set<int>, at: int, timeOutcomes: seq<bool>, diagnosticOutcomes: seq<bool>)
    : (d: Device)
    ensures ValidResolution(d.out.resolution)
  {
    var d := Blank(stored, failing, at, timeOutcomes, diagnosticOutcomes);
    if stored.schedule.Some? then HandleSchedule(d, stored.schedule.value, true, at) else d
  }

  function Step(d: Device, e: Event, at: int): Device
    requires ValidResolution(d.out.resolution)
  {
    match e
    case SetCommand(pin, value, overwrite) => HandleSet(d, pin, value, overwrite, at)
    case EditCommand(name, frequency, bits, stores) => HandleEdit(d, name, frequency, bits, stores)
    case ScheduleCommand(schedule, stores) => HandleSchedule(d, schedule, stores, at)
    case SyncCommand(epoch) => HandleSync(d, epoch, at)
    case BadRequest(cause) => d.(diag := RecordError(d.diag, cause, EpochAt(d.clock, at), at))
    case PinFails(pin, failing) =>
      d.(out := d.out.(failing := if failing then d.out.failing + {pin} else d.out.failing - {pin}))
    case Loop => RunLoop(d, at)
    case Reboot(timeOutcomes, diagnosticOutcomes) => Boot(Image(d), d.out.failing, at, timeOutcomes, diagnosticOutcomes)
  }

  // ----- What every run keeps -----

  /** One override: its counter value stands for its true start, and the last check found it still running. */
  predicate OverrideOk(o: Outputs, boot: int, checkedAt: int, pin: int, now: int) {
    Overridden(o, pin) ==>
      && pin in o.since && boot <= o.since[pin] <= now
      && o.states[pin].startedAt == Millis(o.since[pin], boot)
      && checkedAt - o.since[pin] < OVERRIDE_DURATION
  }

  ghost predicate OverridesOk(o: Outputs, boot: int, checkedAt: int, now: int) {
    forall pin: int :: OverrideOk(o, boot, checkedAt, pin, now)
  }

  /** Override checks follow loops closely. */
  predicate ChecksOk(d: Device, now: int) {
    && d.lastOverrideCheck == Millis(d.checkedAt, d.clock.boot)
    && d.clock.boot <= d.checkedAt <= d.loopedAt <= now
    && d.loopedAt - d.checkedAt < OVERRIDE_CHECK_INTERVAL
  }

  /** What a reboot makes of a stored schedule. */
  function Usable(schedule: Option<seq<FirmwareChannel>>): Option<seq<FirmwareChannel>> {
    if schedule.Some? && AcceptableSchedule(schedule.value) then schedule else None
  }

  ghost predicate Valid(d: Device, now: int) {
    && d.name != "" && d.kept.name != ""
    && ValidConfiguration(d.kept.frequency, d.kept.resolution)
    && d.out.schedule == Usable(d.kept.schedule)
    && ValidOutputs(d.out, d.clock.initialized)
    && ValidClock(d.clock, now)
    && ValidDiagnostics(d.diag, now)
    && d.diag.boot == d.clock.boot
    && ValidConfiguration(d.frequency, d.out.resolution)
    && ChecksOk(d, now)
    && OverridesOk(d.out, d.clock.boot, d.checkedAt, now)
  }

  /** Loops come often enough for the counter to be unambiguous. */
  predicate Timely(d: Device, at: int) { at - d.loopedAt < HALF_RANGE }

  lemma {:induction false} ResolveAttachedKeeps(d: Diagnostics, o: Outputs, channels: seq<ActiveChannel>, at: int)
    requires ValidDiagnostics(d, at)
    ensures ValidDiagnostics(ResolveAttached(d, o, channels, at), at)
    ensures ResolveAttached(d, o, channels, at).boot == d.boot
    decreases |channels|
  {
    if channels != [] {
      var n := |channels| - 1;
      ResolveAttachedKeeps(d, o, channels[..n], at);
      ResolveKeepsDiagnostics(ResolveAttached(d, o, channels[..n], at), channels[n].pin, at);
    }
  }

  lemma LaterClock(t: Timekeeper, now: int, at: int)
    requires ValidClock(t, now) && now <= at
    ensures ValidClock(t, at)
  {
  }

  lemma LaterDiagnostics(d: Diagnostics, now: int, at: int)
    requires ValidDiagnostics(d, now) && now <= at
    ensures ValidDiagnostics(d, at)
  {
  }

  lemma LaterOverrides(o: Outputs, boot: int, checkedAt: int, now: int, at: int)
    requires OverridesOk(o, boot, checkedAt, now) && now <= at
    ensures OverridesOk(o, boot, checkedAt, at)
  {
    forall pin: int ensures OverrideOk(o, boot, checkedAt, pin, at) { assert OverrideOk(o, boot, checkedAt, pin, now); }
  }

  /** Time passing alone changes nothing. */
  lemma Later(d: Device, now: int, at: int)
    requires Valid(d, now) && now <= at
    ensures Valid(d, at)
  {
    LaterClock(d.clock, now, at);
    LaterDiagnostics(d.diag, now, at);
    LaterOverrides(d.out, d.clock.boot, d.checkedAt, now, at);
  }

  /** Overrides that go on as they were. */
  lemma SameOverrides(o: Outputs, r: Outputs, boot: int, checkedAt: int, now: int)
    requires OverridesOk(o, boot, checkedAt, now) && r.since == o.since
    requires forall p: int :: Overridden(r, p) ==> Overridden(o, p) && r.states[p].startedAt == o.states[p].startedAt
    ensures OverridesOk(r, boot, checkedAt, now)
  {
    forall p: int ensures OverrideOk(r, boot, checkedAt, p, now) { assert OverrideOk(o, boot, checkedAt, p, now); }
  }

  /** New outputs and nothing else. */
  lemma OutputsKeep(d: Device, r: Outputs, at: int)
    requires Valid(d, at) && ValidOutputs(r, d.clock.initialized) && OverridesOk(r, d.clock.boot, d.checkedAt, at)
    requires r.schedule == d.out.schedule && r.resolution == d.out.resolution
    ensures Valid(d.(out := r), at)
  {
  }

  lemma AttachChannelsKeeps(d: Device, at: int)
    requires Valid(d, at)
    ensures Valid(AttachChannels(d, at), at)
  {
    var r := AttachAll(d.out, d.out.channels);
    AttachAllKeeps(d.out, d.out.channels);
    AttachAllOnly(d.out, d.out.channels, 0);
    SameOverrides(d.out, r, d.clock.boot, d.checkedAt, at);
    OutputsKeep(d, r, at);
    ReportKeeps(d, at);
  }

  lemma ReportKeeps(d: Device, at: int)
    requires ValidDiagnostics(d.diag, at)
    ensures ValidDiagnostics(AttachChannels(d, at).diag, at) && AttachChannels(d, at).diag.boot == d.diag.boot
  {
    ResolveAttachedKeeps(d.diag, d.out, d.out.channels, at);
    var failed := FailedPins(d.out, d.out.channels);
    if failed != [] {
      RecordKeepsDiagnostics(ResolveAttached(d.diag, d.out, d.out.channels, at), AttachFailure(failed[0]),
        EpochAt(d.clock, at), at);
    }
  }

  lemma SetKeepsOverrides(o: Outputs, pin: int, value: int, overwrite: bool, boot: int, checkedAt: int, at: int)
    requires OverridesOk(o, boot, checkedAt, at) && boot <= checkedAt <= at
    ensures OverridesOk(SetPwm(o, pin, value, overwrite, Millis(at, boot), at), boot, checkedAt, at)
  {
    var r := SetPwm(o, pin, value, overwrite, Millis(at, boot), at);
    forall p: int ensures OverrideOk(r, boot, checkedAt, p, at) { assert OverrideOk(o, boot, checkedAt, p, at); }
  }

  lemma SetKeepsValid(d: Device, pin: int, value: int, overwrite: bool, at: int)
    requires Valid(d, at)
    ensures Valid(HandleSet(d, pin, value, overwrite, at), at)
  {
    match SetOutcomeOf(d.out, pin, value)
    case SetOk =>
      var now := Millis(at, d.clock.boot);
      SetKeeps(d.out, pin, value, overwrite, now, at);
      SetKeepsOverrides(d.out, pin, value, overwrite, d.clock.boot, d.checkedAt, at);
      OutputsKeep(d, SetPwm(d.out, pin, value, overwrite, now, at), at);
      ResolveKeepsDiagnostics(d.diag, pin, at);
    case AttachFailed =>
      RecordKeepsDiagnostics(d.diag, AttachFailure(pin), EpochAt(d.clock, at), at);
    case _ =>
  }

  lemma ResolutionKeeps(o: Outputs, bits: nat)
    requires SoundPins(o) && ValidResolution(bits)
    ensures SoundPins(o.(resolution := bits))
  {
    forall p: int ensures PinSound(o.(resolution := bits), p) { assert PinSound(o, p); }
  }

  lemma EditKeepsValid(d: Device, name: string, frequency: int, bits: int, stores: bool, at: int)
    requires Valid(d, at)
    ensures Valid(HandleEdit(d, name, frequency, bits, stores), at)
  {
    if Editable(name, frequency, bits) {
      var r := HandleEdit(d, name, frequency, bits, stores).out;
      ResolutionKeeps(d.out, bits);
      RescaleKeeps(d.out, bits);
      SameOverrides(d.out, r, d.clock.boot, d.checkedAt, at);
    }
  }

  lemma ReleasedKeeps(d: Device, schedule: seq<FirmwareChannel>, at: int)
    requires Valid(d, at)
    ensures Valid(Released(d, schedule), at)
  {
    var r := Release(d.out, d.out.channels, Pins(schedule));
    ReleaseKeeps(d.out, d.out.channels, Pins(schedule));
    forall p: int ensures Overridden(r, p)
      ==> Overridden(d.out, p) && r.states[p].startedAt == d.out.states[p].startedAt {
      ReleaseOnly(d.out, d.out.channels, Pins(schedule), p);
    }
    ReleaseOnly(d.out, d.out.channels, Pins(schedule), 0);
    SameOverrides(d.out, r, d.clock.boot, d.checkedAt, at);
    OutputsKeep(d, r, at);
  }

  lemma ActivatedKeeps(d: Device, schedule: seq<FirmwareChannel>, at: int)
    requires Valid(d, at) && AcceptableSchedule(schedule)
    ensures Valid(Activated(d, schedule, at), at)
  {
    var a := Adopt(d.out, schedule);
    AdoptedIsValid(d.out, schedule, d.clock.initialized);
    SameOverrides(d.out, a, d.clock.boot, d.checkedAt, at);
    AttachChannelsKeeps(d.(out := a, kept := d.kept.(schedule := Some(schedule))), at);
  }

  lemma ScheduleCommandKeepsValid(d: Device, schedule: seq<FirmwareChannel>, stores: bool, at: int)
    requires Valid(d, at)
    ensures Valid(HandleSchedule(d, schedule, stores, at), at)
  {
    if AcceptableSchedule(schedule) {
      ReleasedKeeps(d, schedule, at);
      if stores { ActivatedKeeps(Released(d, schedule), schedule, at); }
    }
  }

  lemma StoresKeep(d: Device, clock: Timekeeper, diag: Diagnostics, at: int)
    requires Valid(d, at) && ValidClock(clock, at) && ValidDiagnostics(diag, at)
    requires clock.boot == diag.boot == d.clock.boot && (clock.initialized == d.clock.initialized || clock.initialized)
    ensures Valid(d.(clock := clock, diag := diag), at) && Valid(Persisted(d.(clock := clock, diag := diag)), at)
  {
  }

  lemma SyncKeepsValid(d: Device, epoch: int, at: int)
    requires Valid(d, at)
    ensures Valid(HandleSync(d, epoch, at), at)
  {
    SyncKeepsClock(d.clock, epoch, at);
    StoresKeep(d, SyncTime(d.clock, epoch, at), d.diag, at);
  }

  // ----- The run loop, stage by stage -----

  lemma StorageKeepsValid(d: Device, at: int)
    requires Valid(d, at)
    ensures Valid(ServiceStorage(d, at), at)
  {
    ServiceKeepsClock(d.clock, at);
    ServiceKeepsDiagnostics(d.diag, at);
    StoresKeep(d, ServiceCheckpoint(d.clock, at), ServiceDiagnostics(d.diag, at), at);
  }

  /** Whether this loop looks at overrides at all, in true time. */
  predicate ChecksNow(d: Device, at: int) { at - d.checkedAt >= OVERRIDE_CHECK_INTERVAL }

  lemma CheckIsTimely(d: Device, at: int)
    requires ChecksOk(d, at) && Timely(d, at)
    ensures Elapsed(Millis(at, d.clock.boot), d.lastOverrideCheck) == at - d.checkedAt
  {
    ElapsedIsTrue(at, d.checkedAt, d.clock.boot);
  }

  /** Counter values decide an override's age as true time would. */
  lemma AgeIsTrue(d: Device, pin: int, at: int)
    requires ChecksOk(d, at) && Timely(d, at) && OverrideOk(d.out, d.clock.boot, d.checkedAt, pin, at)
      && Overridden(d.out, pin)
    ensures Elapsed(Millis(at, d.clock.boot), d.out.states[pin].startedAt) == at - d.out.since[pin]
  {
    ElapsedIsTrue(at, d.out.since[pin], d.clock.boot);
  }

  /** An override ends at the first check at which its true age is at least two minutes, never before. */
  lemma OverrideEndsOnTime(d: Device, pin: int, at: int)
    requires Valid(d, at) && Timely(d, at)
    ensures Overridden(ServiceOverrides(d, at).out, pin)
      <==> Overridden(d.out, pin) && (ChecksNow(d, at) ==> at - StartedAt(d.out, pin) < OVERRIDE_DURATION)
    ensures Overridden(ServiceOverrides(d, at).out, pin) ==>
      ServiceOverrides(d, at).out.states[pin].startedAt == d.out.states[pin].startedAt
  {
    assert OverrideOk(d.out, d.clock.boot, d.checkedAt, pin, at);
    CheckIsTimely(d, at);
    if Overridden(d.out, pin) { AgeIsTrue(d, pin, at); }
  }

  lemma OverridesKeepValid(d: Device, at: int)
    requires Valid(d, at) && Timely(d, at)
    ensures Valid(ServiceOverrides(d, at), at)
  {
    var r := ServiceOverrides(d, at);
    ExpiryKeepsValid(d.out, Millis(at, d.clock.boot), d.clock.initialized);
    CheckIsTimely(d, at);
    forall p: int ensures OverrideOk(r.out, d.clock.boot, r.checkedAt, p, at) {
      assert OverrideOk(d.out, d.clock.boot, d.checkedAt, p, at);
      OverrideEndsOnTime(d, p, at);
    }
  }

  lemma AttachmentsKeepValid(d: Device, at: int)
    requires Valid(d, at)
    ensures Valid(ServiceAttachments(d, at), at)
  {
    AttachChannelsKeeps(d.(lastAttachRetry := Millis(at, d.clock.boot)), at);
  }

  lemma ScheduleStageKeepsValid(d: Device, at: int)
    requires Valid(d, at)
    ensures Valid(ServiceSchedule(d, at), at)
  {
    if d.out.schedule.Some? && d.clock.initialized {
      var minute := MinuteAt(d.clock, at);
      var r := DriveAll(d.out, d.out.schedule.value, minute);
      DriveAllKeeps(d.out, d.out.schedule.value, minute);
      DriveAllKeepsShape(d.out, d.out.schedule.value, minute);
      SameOverrides(d.out, r, d.clock.boot, d.checkedAt, at);
      OutputsKeep(d, r, at);
    }
  }

  lemma RunLoopKeepsValid(d: Device, at: int)
    requires Valid(d, at) && Timely(d, at)
    ensures Valid(RunLoop(d, at), at)
  {
    StorageKeepsValid(d, at);
    OverridesKeepValid(ServiceStorage(d, at), at);
    AttachmentsKeepValid(ServiceOverrides(ServiceStorage(d, at), at), at);
    ScheduleStageKeepsValid(ServiceAttachments(ServiceOverrides(ServiceStorage(d, at), at), at), at);
  }

  lemma BlankIsValid(stored: Stored, failing: set<int>, at: int, timeOutcomes: seq<bool>, diagnosticOutcomes: seq<bool>)
    requires Usable(stored.schedule) == None
    ensures Valid(Boot(stored, failing, at, timeOutcomes, diagnosticOutcomes), at)
    ensures AllInRange(Boot(stored, failing, at, timeOutcomes, diagnosticOutcomes).out)
  {
    var d := Boot(stored, failing, at, timeOutcomes, diagnosticOutcomes);
    BootIsValidClock(stored.time, at, timeOutcomes);
    BootIsValidDiagnostics(stored.error, at, diagnosticOutcomes);
    MaxDutyGrows(1, d.out.resolution);
    DefaultsAreValid();
    assert SoundPins(d.out);
  }

  /** Booting with a usable schedule is booting without it and then activating it. */
  lemma BootActivates(stored: Stored, failing: set<int>, at: int, timeOutcomes: seq<bool>,
      diagnosticOutcomes: seq<bool>)
    requires Usable(stored.schedule).Some?
    ensures var blank := Boot(stored.(schedule := None), failing, at, timeOutcomes, diagnosticOutcomes);
            Boot(stored, failing, at, timeOutcomes, diagnosticOutcomes) == Activated(blank, stored.schedule.value, at)
  {
    var blank := Boot(stored.(schedule := None), failing, at, timeOutcomes, diagnosticOutcomes);
    var kept := blank.(kept := blank.kept.(schedule := stored.schedule));
    assert Release(kept.out, [], Pins(stored.schedule.value)) == kept.out;
    assert Boot(stored, failing, at, timeOutcomes, diagnosticOutcomes)
      == HandleSchedule(kept, stored.schedule.value, true, at);
  }

  lemma BootIsValid(stored: Stored, failing: set<int>, at: int, timeOutcomes: seq<bool>, diagnosticOutcomes: seq<bool>)
    ensures Valid(Boot(stored, failing, at, timeOutcomes, diagnosticOutcomes), at)
  {
    if Usable(stored.schedule) == None {
      BlankIsValid(stored, failing, at, timeOutcomes, diagnosticOutcomes);
    } else {
      BlankIsValid(stored.(schedule := None), failing, at, timeOutcomes, diagnosticOutcomes);
      BootActivates(stored, failing, at, timeOutcomes, diagnosticOutcomes);
      ActivatedKeeps(Boot(stored.(schedule := None), failing, at, timeOutcomes, diagnosticOutcomes),
        stored.schedule.value, at);
    }
  }

  lemma StepKeepsValid(d: Device, e: Event, at: int)
    requires Valid(d, at) && (e.Loop? ==> Timely(d, at))
    ensures Valid(Step(d, e, at), at)
  {
    match e
    case SetCommand(pin, value, overwrite) => SetKeepsValid(d, pin, value, overwrite, at);
    case EditCommand(name, frequency, bits, stores) => EditKeepsValid(d, name, frequency, bits, stores, at);
    case ScheduleCommand(schedule, stores) => ScheduleCommandKeepsValid(d, schedule, stores, at);
    case SyncCommand(epoch) => SyncKeepsValid(d, epoch, at);
    case BadRequest(cause) =>
      RecordKeepsDiagnostics(d.diag, cause, EpochAt(d.clock, at), at);
      StoresKeep(d, d.clock, RecordError(d.diag, cause, EpochAt(d.clock, at), at), at);
    case PinFails(pin, failing) => FailuresKeepValid(d, Step(d, e, at).out.failing, at);
    case Loop => RunLoopKeepsValid(d, at);
    case Reboot(timeOutcomes, diagnosticOutcomes) =>
      BootIsValid(Image(d), d.out.failing, at, timeOutcomes, diagnosticOutcomes);
  }

  lemma FailuresKeepValid(d: Device, failing: set<int>, at: int)
    requires Valid(d, at)
    ensures Valid(d.(out := d.out.(failing := failing)), at)
  {
    var r := d.out.(failing := failing);
    forall p: int ensures PinSound(r, p) { assert PinSound(d.out, p); }
    SameOverrides(d.out, r, d.clock.boot, d.checkedAt, at);
  }

  // ----- Runs -----

  predicate IsRun(d: Device, now: int, run: seq<(Event, int)>)
    requires ValidResolution(d.out.resolution)
    decreases |run|
  {
    run == []
    || (&& now <= run[0].1
        && (run[0].0.Loop? ==> Timely(d, run[0].1))
        && ValidResolution(Step(d, run[0].0, run[0].1).out.resolution)
        && IsRun(Step(d, run[0].0, run[0].1), run[0].1, run[1..]))
  }

  function EndOf(d: Device, now: int, run: seq<(Event, int)>): (Device, int)
    requires ValidResolution(d.out.resolution) && IsRun(d, now, run)
    decreases |run|
  {
    if run == [] then (d, now) else EndOf(Step(d, run[0].0, run[0].1), run[0].1, run[1..])
  }

  /** Through any run of commands, loops, failing storage, failing pins and reboots, across rollovers. */
  lemma {:induction false} EveryRunIsValid(d: Device, now: int, run: seq<(Event, int)>)
    requires Valid(d, now) && IsRun(d, now, run)
    ensures Valid(EndOf(d, now, run).0, EndOf(d, now, run).1)
    decreases |run|
  {
    if run != [] {
      var (e, at) := run[0];
      Later(d, now, at);
      StepKeepsValid(d, e, at);
      EveryRunIsValid(Step(d, e, at), at, run[1..]);
    }
  }
}
