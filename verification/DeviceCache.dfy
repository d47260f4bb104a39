/** When the schedule's write-suppression cache tells the truth, and what a tick makes of it. */
module DeviceCache {
  import opened Options
  import opened Pwm
  import opened Firmware
  import opened DeviceOutputs

  /** A cached percentage is what its attached pin is driven with, unless an override stands in between. */
  predicate Honest(o: Outputs, i: nat)
    requires i < |o.channels|
  {
    var c := o.channels[i];
    c.currentValue == -1
    || (c.pin in o.attached
        && (Overridden(o, c.pin) || OutputAt(o, c.pin) == PercentDuty(c.currentValue, o.resolution)))
  }

  predicate AllHonest(o: Outputs) { forall i :: 0 <= i < |o.channels| ==> Honest(o, i) }

  /** The pin of a schedule channel carries exactly the scheduled duty. */
  predicate Exact(o: Outputs, c: FirmwareChannel, minute: int) {
    OutputAt(o, c.pin) == PercentDuty(ScheduledValue(c.links, minute), o.resolution)
  }

  /** The schedule is in charge of the pin. */
  predicate Free(o: Outputs, pin: int) { pin in o.attached && !Overridden(o, pin) }

  predicate AsScheduled(o: Outputs, c: FirmwareChannel, minute: int) { Free(o, c.pin) ==> Exact(o, c, minute) }

  // ----- The tick, channel by channel -----

  /** The tick writes to channel `i`: it is free, and its percentage has changed. */
  predicate WritesTo(o: Outputs, c: FirmwareChannel, i: nat, minute: int)
    requires i < |o.channels|
  {
    Free(o, c.pin) && o.channels[i].currentValue != ScheduledValue(c.links, minute)
  }

  /** What a tick does to channel `i`. */
  predicate TickedAt(o: Outputs, r: Outputs, c: FirmwareChannel, i: nat, minute: int)
    requires i < |o.channels| && i < |r.channels|
  {
    var target := ScheduledValue(c.links, minute);
    if WritesTo(o, c, i, minute)
    then OutputAt(r, c.pin) == PercentDuty(target, o.resolution)
      && r.channels[i] == o.channels[i].(currentValue := target)
    else OutputAt(r, c.pin) == OutputAt(o, c.pin) && r.channels[i] == o.channels[i]
  }

  lemma DriveOthers(o: Outputs, c: FirmwareChannel, minute: int, i: nat, k: nat)
    requires DistinctChannels(o.channels) && i < |o.channels| && k < |o.channels| && k != i
      && o.channels[i].pin == c.pin
    ensures var r := Drive(o, c, minute);
            && SameShape(o, r) && r.channels[k] == o.channels[k]
            && OutputAt(r, o.channels[k].pin) == OutputAt(o, o.channels[k].pin)
            && (Free(r, o.channels[k].pin) <==> Free(o, o.channels[k].pin))
  {
    FoundWhere(o.channels, i);
    DriveKeepsShape(o, c, minute);
  }

  lemma DriveItself(o: Outputs, c: FirmwareChannel, minute: int, i: nat)
    requires DistinctChannels(o.channels) && i < |o.channels| && o.channels[i].pin == c.pin
    ensures SameShape(o, Drive(o, c, minute)) && TickedAt(o, Drive(o, c, minute), c, i, minute)
  {
    FoundWhere(o.channels, i);
    DriveKeepsShape(o, c, minute);
  }

  predicate SamePins(o: Outputs, schedule: seq<FirmwareChannel>) {
    |schedule| <= |o.channels| && forall i :: 0 <= i < |schedule| ==> o.channels[i].pin == schedule[i].pin
  }

  lemma {:induction false} DriveAllAt(o: Outputs, schedule: seq<FirmwareChannel>, minute: int, i: nat)
    requires DistinctChannels(o.channels) && SamePins(o, schedule) && i < |o.channels|
    ensures SameShape(o, DriveAll(o, schedule, minute))
    ensures var r := DriveAll(o, schedule, minute);
            if i < |schedule| then TickedAt(o, r, schedule[i], i, minute)
            else r.channels[i] == o.channels[i] && OutputAt(r, o.channels[i].pin) == OutputAt(o, o.channels[i].pin)
    decreases |schedule|
  {
    if schedule != [] {
      var n := |schedule| - 1;
      var r := DriveAll(o, schedule[..n], minute);
      DriveAllAt(o, schedule[..n], minute, i);
      DriveAllKeepsShape(o, schedule[..n], minute);
      DriveItself(r, schedule[n], minute, n);
      if i != n { DriveOthers(r, schedule[n], minute, n, i); }
    }
  }

  lemma TickAt(o: Outputs, minute: int, i: nat)
    requires ChannelsOk(o, true) && o.schedule.Some? && i < |o.channels|
    ensures var r := DriveAll(o, o.schedule.value, minute);
            && SameShape(o, r) && TickedAt(o, r, o.schedule.value[i], i, minute)
            && (Free(r, o.channels[i].pin) <==> Free(o, o.channels[i].pin))
  {
    DriveAllAt(o, o.schedule.value, minute, i);
    DriveAllKeepsShape(o, o.schedule.value, minute);
  }

  /** Exactly when a tick leaves a free channel right: its percentage has changed since the last write, or the
      pin still carries that percentage's duty. */
  lemma TickSetsRightIff(o: Outputs, minute: int, i: nat)
    requires ChannelsOk(o, true) && o.schedule.Some? && i < |o.channels| && Free(o, o.channels[i].pin)
    ensures var c, cached := o.schedule.value[i], o.channels[i].currentValue;
            Exact(DriveAll(o, o.schedule.value, minute), c, minute)
            <==> cached != ScheduledValue(c.links, minute) || OutputAt(o, c.pin) == PercentDuty(cached, o.resolution)
  {
    TickAt(o, minute, i);
  }

  /** Where the cache is honest, a tick leaves every free channel exactly right, and the cache honest. */
  lemma TickIsExact(o: Outputs, minute: int)
    requires ChannelsOk(o, true) && AllHonest(o) && o.schedule.Some?
    ensures var r := DriveAll(o, o.schedule.value, minute);
            && AllHonest(r) && |r.channels| == |o.schedule.value|
            && forall i :: 0 <= i < |o.schedule.value| ==> AsScheduled(r, o.schedule.value[i], minute)
  {
    var r := DriveAll(o, o.schedule.value, minute);
    DriveAllKeepsShape(o, o.schedule.value, minute);
    forall i | 0 <= i < |o.channels| ensures Honest(r, i) && AsScheduled(r, o.schedule.value[i], minute) {
      TickAt(o, minute, i);
      ScheduledValueIsPercent(o.schedule.value[i].links, minute);
      assert Honest(o, i);
    }
  }

  // ----- What keeps the cache honest -----

  predicate SetIsHarmless(o: Outputs, pin: int, value: int, overwrite: bool) {
    || SetOutcomeOf(o, pin, value) != SetOk || overwrite
    || match FindChannel(o.channels, pin)
       case None => true
       case Some(i) =>
         || o.channels[i].currentValue == -1
         || Rescale(value, 8, o.resolution) == PercentDuty(o.channels[i].currentValue, o.resolution)
  }

  /** A manual duty keeps the cache honest exactly when it is an override, or its pin has no cached percentage,
      or it is the very duty of that percentage. */
  lemma SetIsHarmlessIff(o: Outputs, pin: int, value: int, overwrite: bool, now: nat, at: int)
    requires DistinctChannels(o.channels) && AllHonest(o)
    ensures AllHonest(SetPwm(o, pin, value, overwrite, now, at)) <==> SetIsHarmless(o, pin, value, overwrite)
  {
    var r, found := SetPwm(o, pin, value, overwrite, now, at), FindChannel(o.channels, pin);
    if found.Some? { assert Honest(o, found.value); }
    forall i | 0 <= i < |o.channels|
      ensures Honest(r, i) <==> found != Some(i) || SetIsHarmless(o, pin, value, overwrite)
    {
      FoundWhere(o.channels, i);
      assert Honest(o, i);
    }
    if found.Some? && AllHonest(r) { assert Honest(r, found.value); }
  }

  predicate ResolutionIsHarmless(o: Outputs, bits: nat) {
    forall i :: 0 <= i < |o.channels| ==>
      var c := o.channels[i];
      c.currentValue == -1 || Overridden(o, c.pin)
        || PercentDuty(c.currentValue, o.resolution) == PercentDuty(c.currentValue, bits)
  }

  /** An edit whose storage write fails has changed the resolution and nothing else: the cache stays honest
      exactly when every cached percentage has the same duty at both resolutions. */
  lemma FailedEditKeepsCacheIff(o: Outputs, bits: nat)
    requires AllHonest(o)
    ensures AllHonest(o.(resolution := bits)) <==> ResolutionIsHarmless(o, bits)
  {
    var r := o.(resolution := bits);
    forall i | 0 <= i < |o.channels|
      ensures var c := o.channels[i];
              Honest(r, i) <==> c.currentValue == -1 || Overridden(o, c.pin)
                                || PercentDuty(c.currentValue, o.resolution) == PercentDuty(c.currentValue, bits)
    {
      assert Honest(o, i);
    }
  }

  /** The same failure keeps all duties in range exactly when they fit the new resolution. */
  lemma FailedEditKeepsDutyIff(o: Outputs, bits: nat)
    requires SoundPins(o) && AllInRange(o) && ValidResolution(bits)
    ensures AllInRange(o.(resolution := bits))
      <==> forall pin :: pin in o.attached ==> OutputAt(o, pin) <= MaxDuty(bits)
  {
    var r := o.(resolution := bits);
    MaxDutyGrows(1, bits);
    if forall pin :: pin in o.attached ==> OutputAt(o, pin) <= MaxDuty(bits) {
      forall p: int ensures InRange(r, p) { assert PinSound(o, p) && InRange(o, p); }
    } else {
      var p :| p in o.attached && OutputAt(o, p) > MaxDuty(bits);
      assert !InRange(r, p);
    }
  }

  predicate ReleaseIsHarmless(o: Outputs, next: set<int>) {
    forall i :: 0 <= i < |o.channels| ==> o.channels[i].pin in next || o.channels[i].currentValue == -1
  }

  /** A schedule whose storage write fails has released pins and kept the old channels: the cache stays honest
      exactly when no released channel had written anything. */
  lemma FailedScheduleKeepsCacheIff(o: Outputs, next: set<int>)
    requires DistinctChannels(o.channels) && AllHonest(o)
    ensures AllHonest(Release(o, o.channels, next)) <==> ReleaseIsHarmless(o, next)
  {
    var r := Release(o, o.channels, next);
    ReleaseOnly(o, o.channels, next, 0);
    forall i | 0 <= i < |o.channels|
      ensures Honest(r, i) <==> o.channels[i].pin in next || o.channels[i].currentValue == -1
    {
      assert Honest(o, i);
      assert o.channels[i].pin in ChannelPins(o.channels);
      ReleaseOnly(o, o.channels, next, o.channels[i].pin);
    }
  }

  lemma RescaleIsHarmless(o: Outputs, bits: nat)
    requires AllHonest(o) && ValidResolution(o.resolution)
    ensures AllHonest(RescaledOver(o.(resolution := bits), o.attached, o.resolution))
  {
    var r := RescaledOver(o.(resolution := bits), o.attached, o.resolution);
    forall i | 0 <= i < |r.channels| ensures Honest(r, i) { assert Honest(o, i); }
  }

  lemma AttachIsHarmless(o: Outputs, channels: seq<ActiveChannel>)
    requires SoundPins(o) && AllHonest(o)
    ensures AllHonest(AttachAll(o, channels))
  {
    var r := AttachAll(o, channels);
    AttachAllKeeps(o, channels);
    AttachAllOnly(o, channels, 0);
    forall i | 0 <= i < |r.channels| ensures Honest(r, i) {
      AttachAllOnly(o, channels, r.channels[i].pin);
      assert Honest(o, i);
    }
  }

  lemma ExpiryIsHarmless(o: Outputs, now: nat, timed: bool)
    requires ChannelsOk(o, timed) && AllHonest(o)
    ensures AllHonest(CheckExpiries(o, now, timed))
  {
    var r := CheckExpiries(o, now, timed);
    forall i | 0 <= i < |r.channels| ensures Honest(r, i) {
      assert Honest(o, i);
      assert o.channels[i].pin in ChannelPins(o.channels);
    }
  }
}
