/** The device actor as a mutable object, each method proved against the device model. */
module FakeEsp {
  import opened Options
  import opened Pwm
  import opened Firmware
  import opened DeviceOutputs
  import opened DeviceTime
  import opened DeviceModel
  import opened DeviceClock
  import opened Sets

  /** The pins and channels of the actor. */
  class PinBoard {
    var resolution: nat
    var attachedPins: set<int>
    var outputValues: map<int, int>
    var lastPinValues: map<int, int>
    var pinStates: map<int, PinState>
    var pinAttachmentFailures: set<int>
    var currentSchedule: Option<seq<FirmwareChannel>>
    var activeChannels: seq<ActiveChannel>

    /** History for the proofs only. */
    ghost var since: map<int, int>

    ghost function State(): Outputs
      reads this
    {
      Outputs(resolution, attachedPins, outputValues, lastPinValues, pinStates, pinAttachmentFailures, currentSchedule,
              activeChannels, since)
    }

    constructor (bits: nat, failing: set<int>)
      ensures State() == Outputs(bits, {}, map[], map[], map[], failing, None, [], map[])
    {
      resolution, attachedPins, outputValues, lastPinValues := bits, {}, map[], map[];
      pinStates, pinAttachmentFailures, currentSchedule, activeChannels := map[], failing, None, [];
      since := map[];
    }

    /** `attachPin`. */
    method AttachPin(pin: int, value: int) returns (ok: bool)
      modifies this`attachedPins, this`outputValues, this`lastPinValues
      ensures ok == (pin !in pinAttachmentFailures)
      ensures State() == if ok then Attached(old(State()), pin, value) else old(State())
    {
      if pin in pinAttachmentFailures { return false; }
      attachedPins := attachedPins + {pin};
      outputValues := outputValues[pin := value];
      if pin !in lastPinValues { lastPinValues := lastPinValues[pin := 0]; }
      return true;
    }

    method WritePin(pin: int, duty: int)
      modifies this`outputValues, this`lastPinValues, this`pinStates
      ensures State() == Written(old(State()), pin, duty)
    {
      outputValues := outputValues[pin := duty];
      lastPinValues := lastPinValues[pin := duty];
      if pin in pinStates { pinStates := pinStates[pin := pinStates[pin].(lastValue := duty)]; }
    }

    method ForgetCached(pin: int)
      modifies this`activeChannels
      ensures State() == Uncached(old(State()), pin)
    {
      var i := FindChannel(activeChannels, pin);
      if i.Some? {
        activeChannels := activeChannels[i.value := activeChannels[i.value].(currentValue := -1)];
      }
    }

    /** The pin part of `handleSetCommand`. */
    method SetDuty(pin: int, value: int, overwrite: bool, now: nat, at: int) returns (outcome: SetOutcome)
      modifies this
      ensures outcome == SetOutcomeOf(old(State()), pin, value)
      ensures State() == SetPwm(old(State()), pin, value, overwrite, now, at)
    {
      if pin !in ALLOWED_PWM_PINS { return InvalidPin; }
      if value < 0 || value > 255 { return InvalidValue; }
      var duty := Rescale(value, 8, resolution);
      if pin !in attachedPins {
        var ok := AttachPin(pin, duty);
        if !ok { return AttachFailed; }
      }
      outputValues := outputValues[pin := duty];
      lastPinValues := lastPinValues[pin := duty];
      pinStates := pinStates[pin := PinState(duty, overwrite, if overwrite then now else 0)];
      if overwrite { since := since[pin := at]; }
      return SetOk;
    }

    method RescaleOne(pin: int, from: nat)
      requires from >= 1
      modifies this
      ensures State() == RescalePin(old(State()), pin, from)
    {
      var last := if pin in lastPinValues then lastPinValues[pin] else 0;
      WritePin(pin, Rescale(last, from, resolution));
      ForgetCached(pin);
    }

    /** One turn of the loop over attached pins, `todo` being left to do. */
    method RescaleNext(ghost o: Outputs, ghost done: set<int>, pin: int, from: nat)
      requires from >= 1 && pin !in done && DistinctChannels(o.channels)
      requires State() == RescaledOver(o, done, from)
      modifies this
      ensures State() == RescaledOver(o, done + {pin}, from)
    {
      RescaleOneMore(o, done, pin, from);
      RescaleOne(pin, from);
    }

    method RescaleEach(ghost o: Outputs, pins: set<int>, from: nat)
      requires from >= 1 && DistinctChannels(o.channels)
      requires State() == RescaledOver(o, {}, from)
      modifies this
      ensures State() == RescaledOver(o, pins, from)
    {
      var todo := pins;
      ghost var done: set<int> := {};
      while todo != {}
        invariant todo <= pins && done == pins - todo
        invariant State() == RescaledOver(o, done, from)
        decreases todo
      {
        var pin := AnyOf(todo);
        RescaleNext(o, done, pin, from);
        todo, done := todo - {pin}, done + {pin};
      }
      assert done == pins;
    }

    /** The pin part of `handleEditCommand`, once the new resolution is in place. */
    method RescalePins(from: nat)
      requires from >= 1 && DistinctChannels(activeChannels)
      modifies this
      ensures State() == RescaledOver(old(State()), old(attachedPins), from)
    {
      NothingRescaled(State(), from);
      RescaleEach(State(), attachedPins, from);
    }

    method EndOne(pin: int, timed: bool)
      requires pin in pinStates
      modifies this
      ensures State() == EndOverride(old(State()), pin, timed)
    {
      pinStates := pinStates[pin := pinStates[pin].(isOverwritten := false)];
      if FindChannel(activeChannels, pin).None? || !timed {
        WritePin(pin, 0);
      } else {
        ForgetCached(pin);
      }
    }

    method EndNext(ghost o: Outputs, ghost done: set<int>, pin: int, timed: bool)
      requires pin in o.states && pin !in done && DistinctChannels(o.channels)
      requires State() == EndedOver(o, done, timed)
      modifies this
      ensures State() == EndedOver(o, done + {pin}, timed)
    {
      EndOneMore(o, done, pin, timed);
      EndOne(pin, timed);
    }

    method EndEach(ghost o: Outputs, pins: set<int>, now: nat, timed: bool)
      requires DistinctChannels(o.channels) && pins == o.states.Keys
      requires State() == EndedOver(o, {}, timed)
      modifies this
      ensures State() == EndedOver(o, DuePins(o, now), timed)
    {
      var todo := pins;
      ghost var done: set<int> := {};
      while todo != {}
        invariant todo <= pins && done == DuePins(o, now) - todo
        invariant State() == EndedOver(o, done, timed)
        decreases todo
      {
        var pin := AnyOf(todo);
        assert pinStates[pin] == o.states[pin];
        if pinStates[pin].isOverwritten && Elapsed(now, pinStates[pin].startedAt) >= OVERRIDE_DURATION {
          EndNext(o, done, pin, timed);
          done := done + {pin};
        }
        todo := todo - {pin};
      }
      assert done == DuePins(o, now);
    }

    /** `checkOverwriteExpiries`. */
    method EndDueOverrides(now: nat, timed: bool)
      requires DistinctChannels(activeChannels)
      modifies this
      ensures State() == CheckExpiries(old(State()), now, timed)
    {
      NothingEnded(State(), timed);
      EndEach(State(), pinStates.Keys, now, timed);
    }

    method ReleaseOne(pin: int)
      modifies this`outputValues, this`lastPinValues, this`attachedPins, this`pinStates
      ensures outputValues == old(outputValues)[pin := 0] && lastPinValues == old(lastPinValues)[pin := 0]
      ensures attachedPins == old(attachedPins) - {pin} && pinStates == old(pinStates) - {pin}
    {
      outputValues := outputValues[pin := 0];
      lastPinValues := lastPinValues[pin := 0];
      attachedPins := attachedPins - {pin};
      pinStates := pinStates - {pin};
    }

    /** The first loop of `processSchedule`: former channels' pins that are not used again. */
    method ReleasePins(next: set<int>)
      modifies this`outputValues, this`lastPinValues, this`attachedPins, this`pinStates
      ensures State() == Release(old(State()), activeChannels, next)
    {
      ghost var o := State();
      var former := activeChannels;
      for i := 0 to |former|
        invariant State() == Release(o, former[..i], next)
      {
        assert former[..i + 1][..i] == former[..i];
        if former[i].pin !in next { ReleaseOne(former[i].pin); }
      }
      assert former[..|former|] == former;
    }

    method AdoptSchedule(schedule: seq<FirmwareChannel>)
      modifies this`currentSchedule, this`activeChannels
      ensures State() == Adopt(old(State()), schedule)
    {
      currentSchedule := Some(schedule);
      activeChannels := Fresh(schedule);
    }

    method DriveOne(c: FirmwareChannel, minute: int)
      modifies this`outputValues, this`lastPinValues, this`pinStates, this`activeChannels
      ensures State() == Drive(old(State()), c, minute)
    {
      var i := FindChannel(activeChannels, c.pin);
      if i.None? || c.pin !in attachedPins { return; }
      if c.pin in pinStates && pinStates[c.pin].isOverwritten { return; }
      var target := ScheduledValue(c.links, minute);
      if activeChannels[i.value].currentValue != target {
        WritePin(c.pin, PercentDuty(target, resolution));
        activeChannels := activeChannels[i.value := activeChannels[i.value].(currentValue := target)];
      }
    }

    /** `processScheduledOutputs` once time is known. */
    method DriveSchedule(schedule: seq<FirmwareChannel>, minute: int)
      modifies this`outputValues, this`lastPinValues, this`pinStates, this`activeChannels
      ensures State() == DriveAll(old(State()), schedule, minute)
    {
      ghost var o := State();
      for i := 0 to |schedule|
        invariant State() == DriveAll(o, schedule[..i], minute)
      {
        assert schedule[..i + 1][..i] == schedule[..i];
        DriveOne(schedule[i], minute);
      }
      assert schedule[..|schedule|] == schedule;
    }
  }

  /** `FakeEspActor`, up to its connection and its identifier. */
  class FakeEspActor {
    const pins: PinBoard
    const clock: CheckpointedClock
    const diagnostics: DiagnosticStore
    var deviceName: string
    var frequency: int
    var lastScheduleUpdate: nat
    var lastScheduleAttachRetry: nat
    var lastOverwriteCheck: nat

    /** What storage holds besides the diagnostics. */
    var storedName: string
    var storedFrequency: int
    var storedResolution: nat
    var storedTime: Option<int>
    var storedSchedule: Option<seq<FirmwareChannel>>

    /** True times of the last override check and the last loop, for the proofs only. */
    ghost var checkedAt: int
    ghost var loopedAt: int

    ghost function State(): Device
      reads this, pins, clock, diagnostics
    {
      Device(deviceName, frequency, Settings(storedName, storedFrequency, storedResolution, storedSchedule),
             pins.State(), clock.State(), diagnostics.State(), lastScheduleUpdate,
             lastScheduleAttachRetry, lastOverwriteCheck, checkedAt, loopedAt)
    }

    ghost function Storage(): Stored
      reads this, diagnostics
    {
      Stored(storedName, storedFrequency, storedResolution, storedTime, storedSchedule, diagnostics.stored)
    }

    /** Storage holds the image a reboot starts from. */
    ghost predicate Consistent()
      reads this, pins, clock, diagnostics
    {
      Storage() == Image(State())
    }

    method PersistEeprom()
      modifies this`storedName, this`storedFrequency, this`storedResolution, this`storedTime
      ensures storedName == deviceName && storedFrequency == frequency && storedResolution == pins.resolution
      ensures storedTime == clock.persistedTime
    {
      storedName, storedFrequency, storedResolution, storedTime :=
        deviceName, frequency, pins.resolution, clock.persistedTime;
    }

    /** `handleSetCommand`. */
    method SetCommand(pin: int, value: int, overwrite: bool, at: int) returns (outcome: SetOutcome)
      requires Consistent() && Valid(State(), at)
      modifies pins, diagnostics
      ensures outcome == SetOutcomeOf(old(pins.State()), pin, value)
      ensures State() == HandleSet(old(State()), pin, value, overwrite, at) && Consistent() && Valid(State(), at)
    {
      SetKeepsValid(State(), pin, value, overwrite, at);
      outcome := pins.SetDuty(pin, value, overwrite, Millis(at, clock.boot), at);
      if outcome == AttachFailed {
        var epoch := clock.CurrentEpochSeconds(at);
        diagnostics.RecordLastError(AttachFailure(pin), epoch, at);
      } else if outcome == SetOk {
        diagnostics.ResolveLastErrorForPin(pin, at);
      }
    }

    /** `handleEditCommand`; `stores` says whether its storage write succeeds. */
    method EditCommand(name: string, newFrequency: int, bits: int, stores: bool, at: int)
      requires Consistent() && Valid(State(), at)
      modifies this, pins
      ensures State() == HandleEdit(old(State()), name, newFrequency, bits, stores) && Consistent()
        && Valid(State(), at)
    {
      EditKeepsValid(State(), name, newFrequency, bits, stores, at);
      ApplyEdit(name, newFrequency, bits, stores);
    }

    method ApplyEdit(name: string, newFrequency: int, bits: int, stores: bool)
      requires Consistent() && ValidResolution(pins.resolution) && DistinctChannels(pins.activeChannels)
      modifies this, pins
      ensures State() == HandleEdit(old(State()), name, newFrequency, bits, stores) && Consistent()
    {
      if !ValidName(name) || !ValidConfiguration(newFrequency, bits) { return; }
      var reattach := newFrequency != frequency || bits != pins.resolution;
      var from := pins.resolution;
      deviceName, frequency := name, newFrequency;
      pins.resolution := bits;
      if !stores { return; }
      PersistEeprom();
      if reattach { pins.RescalePins(from); }
    }

    /** Attaching the channels' pins: `retryMissingSchedulePins`, and the second half of `processSchedule`. */
    method AttachMissing(at: int)
      modifies pins, diagnostics
      ensures State() == AttachChannels(old(State()), at)
      ensures pins.currentSchedule == old(pins.currentSchedule) && pins.resolution == old(pins.resolution)
    {
      ghost var o, d := pins.State(), diagnostics.State();
      var channels := pins.activeChannels;
      var failed: seq<int> := [];
      for i := 0 to |channels|
        invariant pins.currentSchedule == o.schedule && pins.resolution == o.resolution
        invariant pins.State() == AttachAll(o, channels[..i])
        invariant diagnostics.State() == ResolveAttached(d, o, channels[..i], at)
        invariant failed == FailedPins(o, channels[..i])
      {
        assert channels[..i + 1][..i] == channels[..i];
        var pin := channels[i].pin;
        if pin !in pins.attachedPins {
          var ok := pins.AttachPin(pin, 0);
          if ok {
            diagnostics.ResolveLastErrorForPin(pin, at);
          } else {
            failed := failed + [pin];
          }
        }
      }
      assert channels[..|channels|] == channels;
      if |failed| > 0 {
        var epoch := clock.CurrentEpochSeconds(at);
        diagnostics.RecordLastError(AttachFailure(failed[0]), epoch, at);
      }
    }

    /** `handleScheduleCommand`; `stores` says whether its storage write succeeds. */
    method ScheduleCommand(schedule: seq<FirmwareChannel>, stores: bool, at: int)
      requires Consistent() && Valid(State(), at)
      modifies this, pins, diagnostics
      ensures State() == HandleSchedule(old(State()), schedule, stores, at) && Consistent() && Valid(State(), at)
    {
      ScheduleCommandKeepsValid(State(), schedule, stores, at);
      ProcessSchedule(schedule, stores, at);
    }

    /** `processSchedule`, also used on boot. */
    method ProcessSchedule(schedule: seq<FirmwareChannel>, stores: bool, at: int)
      requires Consistent()
      modifies this, pins, diagnostics
      ensures State() == HandleSchedule(old(State()), schedule, stores, at) && Consistent()
    {
      if |schedule| > 64 || !ValidSchedule(schedule) { return; }
      pins.ReleasePins(Pins(schedule));
      if !stores { return; }
      storedSchedule := Some(schedule);
      pins.AdoptSchedule(schedule);
      AttachMissing(at);
      lastScheduleAttachRetry := Millis(at, clock.boot);
    }

    /** The `sync_time` command. */
    method SyncCommand(epoch: int, at: int)
      requires Consistent() && Valid(State(), at)
      modifies this, clock
      ensures State() == HandleSync(old(State()), epoch, at) && Consistent() && Valid(State(), at)
    {
      SyncKeepsValid(State(), epoch, at);
      ApplySync(epoch, at);
    }

    method ApplySync(epoch: int, at: int)
      requires Consistent()
      modifies this`storedName, this`storedFrequency, this`storedResolution, this`storedTime, clock
      ensures State() == HandleSync(old(State()), epoch, at) && Consistent()
    {
      var saved := clock.Synchronize(epoch, at);
      if saved { PersistEeprom(); }
    }

    method StorageStage(at: int)
      requires Consistent()
      modifies this`storedName, this`storedFrequency, this`storedResolution, this`storedTime, clock, diagnostics
      ensures State() == ServiceStorage(old(State()), at) && Consistent()
    {
      var saved := clock.ServiceTimeCheckpoint(at);
      if saved { PersistEeprom(); }
      diagnostics.ServiceDiagnosticPersistence(at);
    }

    method OverrideStage(at: int)
      requires Consistent() && DistinctChannels(pins.activeChannels)
      modifies this`lastOverwriteCheck, this`checkedAt, this`loopedAt, pins
      ensures State() == ServiceOverrides(old(State()), at) && Consistent()
    {
      var now := Millis(at, clock.boot);
      loopedAt := at;
      if Elapsed(now, lastOverwriteCheck) >= OVERRIDE_CHECK_INTERVAL {
        pins.EndDueOverrides(now, clock.initialized);
        lastOverwriteCheck := now;
        checkedAt := at;
      }
    }

    method AttachmentStage(at: int)
      requires Consistent()
      modifies this`lastScheduleAttachRetry, pins, diagnostics
      ensures State() == ServiceAttachments(old(State()), at) && Consistent()
    {
      var now := Millis(at, clock.boot);
      if pins.currentSchedule.Some? && Elapsed(now, lastScheduleAttachRetry) >= ATTACH_RETRY_INTERVAL {
        lastScheduleAttachRetry := now;
        AttachMissing(at);
      }
    }

    method ScheduleStage(at: int)
      requires Consistent()
      modifies this`lastScheduleUpdate, pins
      ensures State() == ServiceSchedule(old(State()), at) && Consistent()
    {
      var now := Millis(at, clock.boot);
      if pins.currentSchedule.Some? && Elapsed(now, lastScheduleUpdate) >= SCHEDULE_INTERVAL {
        lastScheduleUpdate := now;
        if clock.initialized {
          var minute := clock.CurrentMinuteOfDay(at);
          pins.DriveSchedule(pins.currentSchedule.value, minute);
        }
      }
    }

    /** `runLoop`. */
    method Loop(at: int)
      requires Consistent() && Valid(State(), at) && Timely(State(), at)
      modifies this, pins, clock, diagnostics
      ensures State() == RunLoop(old(State()), at) && Consistent() && Valid(State(), at)
    {
      RunLoopKeepsValid(State(), at);
      StorageStage(at);
      OverrideStage(at);
      AttachmentStage(at);
      ScheduleStage(at);
    }

    /** Boot from storage, up to the schedule. */
    constructor Start(stored: Stored, failing: set<int>, at: int, timeScript: seq<bool>, diagnosticScript: seq<bool>)
      ensures State() == Blank(stored, failing, at, timeScript, diagnosticScript) && Consistent()
      ensures fresh(pins) && fresh(clock) && fresh(diagnostics)
    {
      var (bootFrequency, bootResolution) := BootConfiguration(stored.frequency, stored.resolution);
      deviceName := if |stored.name| > 0 then stored.name else DEFAULT_NAME;
      frequency := bootFrequency;
      pins := new PinBoard(bootResolution, failing);
      clock := new CheckpointedClock(stored.time, at, timeScript);
      diagnostics := new DiagnosticStore(stored.error, at, diagnosticScript);
      lastScheduleUpdate, lastScheduleAttachRetry, lastOverwriteCheck := Millis(at, at), Millis(at, at), Millis(at, at);
      checkedAt, loopedAt := at, at;
      storedSchedule := stored.schedule;
      new;
      PersistEeprom();
    }
  }

  /** `bootFromPersistence`. */
  method BootDevice(stored: Stored, failing: set<int>, at: int, timeScript: seq<bool>, diagnosticScript: seq<bool>)
    returns (actor: FakeEspActor)
    ensures fresh(actor) && fresh(actor.pins) && fresh(actor.clock) && fresh(actor.diagnostics)
    ensures actor.State() == Boot(stored, failing, at, timeScript, diagnosticScript)
    ensures actor.Consistent() && Valid(actor.State(), at)
  {
    actor := new FakeEspActor.Start(stored, failing, at, timeScript, diagnosticScript);
    if stored.schedule.Some? { actor.ProcessSchedule(stored.schedule.value, true, at); }
    BootIsValid(stored, failing, at, timeScript, diagnosticScript);
  }
}
