/** The pins of a device: duties, manual overrides, the schedule's write-suppression cache. */
module DeviceOutputs {
  import opened Options
  import opened Pwm
  import opened Firmware
  import opened DeviceTime

  datatype PinState = PinState(lastValue: int, isOverwritten: bool, startedAt: nat)

  /** A channel under schedule control; `currentValue` is the percentage last written, or -1. */
  datatype ActiveChannel = ActiveChannel(pin: int, currentValue: int, kind: int)

  datatype FirmwareChannel = FirmwareChannel(pin: int, kind: int, links: seq<Link>)

  /** The output side of the device. The last field is history: the true time each override began. */
  datatype Outputs = Outputs(
    resolution: nat,
    attached: set<int>,
    output: map<int, int>,
    last: map<int, int>,
    states: map<int, PinState>,
    failing: set<int>,
    schedule: Option<seq<FirmwareChannel>>,
    channels: seq<ActiveChannel>,
    since: map<int, int>)

  const ALLOWED_PWM_PINS: set<int> := {4, 12, 13, 14, 16, 17, 18, 19, 21, 22, 23, 25, 26, 27, 32, 33}
  const LIGHT := 108
  const PUMP := 112
  const OVERRIDE_DURATION := 120000

  function OutputAt(o: Outputs, pin: int): int { if pin in o.output then o.output[pin] else 0 }
  function LastAt(o: Outputs, pin: int): int { if pin in o.last then o.last[pin] else 0 }
  function StartedAt(o: Outputs, pin: int): int { if pin in o.since then o.since[pin] else 0 }
  predicate Overridden(o: Outputs, pin: int) { pin in o.states && o.states[pin].isOverwritten }

  // ----- Operations -----

  /** `attachPin` where it succeeds. */
  function Attached(o: Outputs, pin: int, value: int): Outputs {
    o.(attached := o.attached + {pin},
       output := o.output[pin := value],
       last := if pin in o.last then o.last else o.last[pin := 0])
  }

  /** Writing a duty to a pin, its last value and its stored state. */
  function Written(o: Outputs, pin: int, duty: int): Outputs {
    o.(output := o.output[pin := duty],
       last := o.last[pin := duty],
       states := if pin in o.states then o.states[pin := o.states[pin].(lastValue := duty)] else o.states)
  }

  datatype SetOutcome = SetOk | InvalidPin | InvalidValue | AttachFailed

  function SetOutcomeOf(o: Outputs, pin: int, value: int): SetOutcome {
    if pin !in ALLOWED_PWM_PINS then InvalidPin
    else if value < 0 || value > 255 then InvalidValue
    else if pin !in o.attached && pin in o.failing then AttachFailed
    else SetOk
  }

  /** `handleSetCommand` at firmware time `now`, true time `at`. */
  function SetPwm(o: Outputs, pin: int, value: int, overwrite: bool, now: nat, at: int): Outputs {
    if SetOutcomeOf(o, pin, value) != SetOk then o
    else
      var duty := Rescale(value, 8, o.resolution);
      var ready := if pin in o.attached then o else Attached(o, pin, duty);
      ready.(output := ready.output[pin := duty],
             last := ready.last[pin := duty],
             states := ready.states[pin := PinState(duty, overwrite, if overwrite then now else 0)],
             since := if overwrite then o.since[pin := at] else o.since)
  }

  function FindChannel(channels: seq<ActiveChannel>, pin: int): (i: Option<nat>)
    ensures i.Some? ==> i.value < |channels| && channels[i.value].pin == pin
    ensures i.None? ==> forall k :: 0 <= k < |channels| ==> channels[k].pin != pin
  {
    if channels == [] then None
    else if channels[0].pin == pin then Some(0)
    else
      match FindChannel(channels[1..], pin)
      case Some(i) => Some(i + 1)
      case None => None
  }

  /** Forgetting what was last written to a pin. */
  function Uncached(o: Outputs, pin: int): Outputs {
    match FindChannel(o.channels, pin)
    case Some(i) => o.(channels := o.channels[i := o.channels[i].(currentValue := -1)])
    case None => o
  }

  /** One pin's part of a change of resolution. */
  function RescalePin(o: Outputs, pin: int, from: nat): Outputs
    requires from >= 1
  {
    Uncached(Written(o, pin, Rescale(LastAt(o, pin), from, o.resolution)), pin)
  }

  function ResetChannels(channels: seq<ActiveChannel>, pins: set<int>): (r: seq<ActiveChannel>)
    ensures |r| == |channels|
    ensures forall i :: 0 <= i < |r| ==>
      r[i] == if channels[i].pin in pins then channels[i].(currentValue := -1) else channels[i]
  {
    seq(|channels|, i requires 0 <= i < |channels| =>
      if channels[i].pin in pins then channels[i].(currentValue := -1) else channels[i])
  }

  function ChannelPins(channels: seq<ActiveChannel>): set<int> { set i | 0 <= i < |channels| :: channels[i].pin }

  function Duties(last: map<int, int>, pins: set<int>, from: nat, to: nat): (d: map<int, int>)
    requires from >= 1
    ensures d.Keys == pins
  {
    map p | p in pins :: Rescale(if p in last then last[p] else 0, from, to)
  }

  /** Stored states brought up to date with new duties. */
  function Restated(states: map<int, PinState>, duties: map<int, int>): (r: map<int, PinState>)
    ensures r.Keys == states.Keys
  {
    map p | p in states :: if p in duties then states[p].(lastValue := duties[p]) else states[p]
  }

  /** Rescaling the given pins, in whatever order they come. */
  function RescaledOver(o: Outputs, pins: set<int>, from: nat): Outputs
    requires from >= 1
  {
    var duties := Duties(o.last, pins, from, o.resolution);
    o.(output := o.output + duties,
       last := o.last + duties,
       states := Restated(o.states, duties),
       channels := ResetChannels(o.channels, pins))
  }

  /** Pins of the former schedule that the next one does not use are switched off and detached. */
  function Release(o: Outputs, former: seq<ActiveChannel>, next: set<int>): (r: Outputs)
    ensures r.resolution == o.resolution
    decreases |former|
  {
    if former == [] then o
    else
      var r := Release(o, former[..|former| - 1], next);
      var pin := former[|former| - 1].pin;
      if pin in next then r
      else r.(output := r.output[pin := 0], last := r.last[pin := 0], attached := r.attached - {pin},
              states := r.states - {pin})
  }

  function Fresh(schedule: seq<FirmwareChannel>): (r: seq<ActiveChannel>)
    ensures |r| == |schedule|
    ensures forall i :: 0 <= i < |r| ==> r[i] == ActiveChannel(schedule[i].pin, -1, schedule[i].kind)
  {
    seq(|schedule|, i requires 0 <= i < |schedule| => ActiveChannel(schedule[i].pin, -1, schedule[i].kind))
  }

  function Pins(schedule: seq<FirmwareChannel>): set<int> { set i | 0 <= i < |schedule| :: schedule[i].pin }

  function Adopt(o: Outputs, schedule: seq<FirmwareChannel>): Outputs {
    o.(schedule := Some(schedule), channels := Fresh(schedule))
  }

  /** Attaching whichever of the channels' pins are not attached yet and do not fail. */
  function AttachAll(o: Outputs, channels: seq<ActiveChannel>): (r: Outputs)
    ensures r.resolution == o.resolution
    decreases |channels|
  {
    if channels == [] then o
    else
      var r := AttachAll(o, channels[..|channels| - 1]);
      var pin := channels[|channels| - 1].pin;
      if pin in r.attached || pin in r.failing then r else Attached(r, pin, 0)
  }

  /** `processSchedule` with a valid document. */
  function ProcessSchedule(o: Outputs, schedule: seq<FirmwareChannel>): Outputs {
    AttachAll(Adopt(Release(o, o.channels, Pins(schedule)), schedule), Fresh(schedule))
  }

  /** One channel's part of a scheduled tick: written only when the percentage has changed. */
  function Drive(o: Outputs, c: FirmwareChannel, minute: int): Outputs {
    var i := FindChannel(o.channels, c.pin);
    var target := ScheduledValue(c.links, minute);
    if i.None? || c.pin !in o.attached || Overridden(o, c.pin) || o.channels[i.value].currentValue == target then o
    else
      var w := Written(o, c.pin, PercentDuty(target, o.resolution));
      w.(channels := w.channels[i.value := w.channels[i.value].(currentValue := target)])
  }

  /** `processScheduledOutputs` once time is known. */
  function DriveAll(o: Outputs, schedule: seq<FirmwareChannel>, minute: int): Outputs
    decreases |schedule|
  {
    if schedule == [] then o
    else Drive(DriveAll(o, schedule[..|schedule| - 1], minute), schedule[|schedule| - 1], minute)
  }

  /** One override's end: back to the schedule, or off where no schedule can take over. */
  function EndOverride(o: Outputs, pin: int, timed: bool): Outputs
    requires pin in o.states
  {
    var freed := o.(states := o.states[pin := o.states[pin].(isOverwritten := false)]);
    if FindChannel(o.channels, pin).None? || !timed then Written(freed, pin, 0)
    else Uncached(freed, pin)
  }

  function Zeros(pins: set<int>, channels: seq<ActiveChannel>, timed: bool): (z: map<int, int>)
    ensures z.Keys <= pins
  {
    map p | p in pins && (p !in ChannelPins(channels) || !timed) :: 0
  }

  function Ended(states: map<int, PinState>, pins: set<int>): (r: map<int, PinState>)
    ensures r.Keys == states.Keys
  {
    map p | p in states :: if p in pins then states[p].(isOverwritten := false) else states[p]
  }

  /** Ending the overrides of the given pins, in whatever order they come. */
  function EndedOver(o: Outputs, pins: set<int>, timed: bool): Outputs {
    var zeros := Zeros(pins, o.channels, timed);
    var kept := if timed then pins else {};
    o.(output := o.output + zeros,
       last := o.last + zeros,
       states := Restated(Ended(o.states, pins), zeros),
       channels := ResetChannels(o.channels, kept))
  }

  // ----- What every state keeps -----

  predicate ValidSchedule(schedule: seq<FirmwareChannel>) {
    && (forall i :: 0 <= i < |schedule| ==>
          && schedule[i].pin in ALLOWED_PWM_PINS && (schedule[i].kind == LIGHT || schedule[i].kind == PUMP)
          && forall k :: 0 <= k < |schedule[i].links| ==> ValidLink(schedule[i].links[k]))
    && (forall i, j :: 0 <= i < j < |schedule| ==> schedule[i].pin != schedule[j].pin)
  }

  predicate DistinctChannels(channels: seq<ActiveChannel>) {
    forall i, j :: 0 <= i < j < |channels| ==> channels[i].pin != channels[j].pin
  }

  /** The duty of one pin: equal to its last value, zero when detached, and as its state says. */
  predicate PinSound(o: Outputs, pin: int) {
    && OutputAt(o, pin) == LastAt(o, pin)
    && (pin !in o.attached ==> OutputAt(o, pin) == 0 && pin !in o.states)
    && (pin in o.states ==> o.states[pin].lastValue == OutputAt(o, pin))
  }

  predicate InRange(o: Outputs, pin: int) { 0 <= OutputAt(o, pin) <= MaxDuty(o.resolution) }

  ghost predicate SoundPins(o: Outputs) { ValidResolution(o.resolution) && forall pin: int :: PinSound(o, pin) }

  ghost predicate AllInRange(o: Outputs) { forall pin: int :: InRange(o, pin) }

  predicate ChannelsOk(o: Outputs, timed: bool) {
    && DistinctChannels(o.channels)
    && (forall i :: 0 <= i < |o.channels| ==>
          o.channels[i].currentValue == -1 || (timed && 0 <= o.channels[i].currentValue <= 100))
    && (o.schedule.None? ==> o.channels == [])
    && (o.schedule.Some? ==>
          && ValidSchedule(o.schedule.value) && |o.schedule.value| == |o.channels|
          && forall i :: 0 <= i < |o.channels| ==> o.schedule.value[i].pin == o.channels[i].pin)
  }

  ghost predicate ValidOutputs(o: Outputs, timed: bool) { SoundPins(o) && ChannelsOk(o, timed) }

  /** Every duty that has changed is in range. */
  ghost predicate Moves(o: Outputs, r: Outputs) {
    r.resolution == o.resolution && forall pin: int :: OutputAt(r, pin) == OutputAt(o, pin) || InRange(r, pin)
  }

  lemma MovesKeepRange(o: Outputs, r: Outputs)
    requires Moves(o, r) && AllInRange(o)
    ensures AllInRange(r)
  {
    forall p: int ensures InRange(r, p) { assert InRange(o, p); }
  }

  lemma WrittenKeeps(o: Outputs, pin: int, duty: int)
    requires SoundPins(o) && 0 <= duty <= MaxDuty(o.resolution) && pin in o.attached
    ensures SoundPins(Written(o, pin, duty)) && Moves(o, Written(o, pin, duty))
  {
    var w := Written(o, pin, duty);
    forall p: int ensures PinSound(w, p) && (OutputAt(w, p) == OutputAt(o, p) || InRange(w, p)) {
      assert PinSound(o, p);
    }
  }

  lemma AttachedKeeps(o: Outputs, pin: int)
    requires SoundPins(o) && pin !in o.attached
    ensures SoundPins(Attached(o, pin, 0)) && forall p: int :: OutputAt(Attached(o, pin, 0), p) == OutputAt(o, p)
  {
    var r := Attached(o, pin, 0);
    forall p: int ensures PinSound(r, p) && OutputAt(r, p) == OutputAt(o, p) { assert PinSound(o, p); }
  }

  /** A manual duty leaves every pin sound, and is itself in range. */
  lemma SetKeeps(o: Outputs, pin: int, value: int, overwrite: bool, now: nat, at: int)
    requires SoundPins(o)
    ensures SoundPins(SetPwm(o, pin, value, overwrite, now, at)) && Moves(o, SetPwm(o, pin, value, overwrite, now, at))
  {
    var r := SetPwm(o, pin, value, overwrite, now, at);
    if SetOutcomeOf(o, pin, value) == SetOk {
      MaxDutyGrows(8, 8);
      RescaleKeepsRange(value, 8, o.resolution);
      forall p: int ensures PinSound(r, p) && (OutputAt(r, p) == OutputAt(o, p) || InRange(r, p)) {
        assert PinSound(o, p);
      }
    }
  }

  // ----- Loops over pins, one pin at a time -----

  lemma {:induction false} FoundWhere(channels: seq<ActiveChannel>, i: nat)
    requires DistinctChannels(channels) && i < |channels|
    ensures FindChannel(channels, channels[i].pin) == Some(i)
  {
    if i > 0 {
      assert channels[0].pin != channels[i].pin;
      FoundWhere(channels[1..], i - 1);
    }
  }

  /** Resetting one more channel. */
  lemma ResetOne(channels: seq<ActiveChannel>, pins: set<int>, pin: int)
    requires DistinctChannels(channels)
    ensures var reset, i := ResetChannels(channels, pins), FindChannel(ResetChannels(channels, pins), pin);
            ResetChannels(channels, pins + {pin})
              == if i.Some? then reset[i.value := reset[i.value].(currentValue := -1)] else reset
    ensures FindChannel(ResetChannels(channels, pins), pin).Some? <==> pin in ChannelPins(channels)
  {
    var reset, more := ResetChannels(channels, pins), ResetChannels(channels, pins + {pin});
    var i := FindChannel(reset, pin);
    forall k | 0 <= k < |channels|
      ensures more[k] == if i == Some(k) then reset[k].(currentValue := -1) else reset[k]
    {
      if channels[k].pin == pin { FoundWhere(reset, k); }
    }
  }

  lemma DutiesOneMore(last: map<int, int>, base: map<int, int>, done: set<int>, pin: int, from: nat, to: nat)
    requires from >= 1 && pin !in done
    ensures base + Duties(last, done + {pin}, from, to)
      == (base + Duties(last, done, from, to))[pin := Rescale(if pin in last then last[pin] else 0, from, to)]
  {
  }

  lemma RestatedOneMore(states: map<int, PinState>, duties: map<int, int>, pin: int, duty: int)
    ensures Restated(states, duties[pin := duty])
      == if pin in states then Restated(states, duties)[pin := Restated(states, duties)[pin].(lastValue := duty)]
         else Restated(states, duties)
  {
  }

  lemma RescaleOneMore(o: Outputs, done: set<int>, pin: int, from: nat)
    requires from >= 1 && pin !in done && DistinctChannels(o.channels)
    ensures RescalePin(RescaledOver(o, done, from), pin, from) == RescaledOver(o, done + {pin}, from)
  {
    var duty := Rescale(LastAt(o, pin), from, o.resolution);
    ResetOne(o.channels, done, pin);
    DutiesOneMore(o.last, o.output, done, pin, from, o.resolution);
    DutiesOneMore(o.last, o.last, done, pin, from, o.resolution);
    DutiesOneMore(o.last, map[], done, pin, from, o.resolution);
    var duties := Duties(o.last, done, from, o.resolution);
    assert map[] + duties == duties && Duties(o.last, done + {pin}, from, o.resolution) == duties[pin := duty] by {
      assert map[] + Duties(o.last, done + {pin}, from, o.resolution)
        == Duties(o.last, done + {pin}, from, o.resolution);
    }
    RestatedOneMore(o.states, duties, pin, duty);
  }

  lemma EndOneMore(o: Outputs, done: set<int>, pin: int, timed: bool)
    requires pin in o.states && pin !in done && DistinctChannels(o.channels)
    ensures pin in EndedOver(o, done, timed).states
    ensures EndOverride(EndedOver(o, done, timed), pin, timed) == EndedOver(o, done + {pin}, timed)
  {
    var kept := if timed then done else {};
    var zeros, more := Zeros(done, o.channels, timed), Zeros(done + {pin}, o.channels, timed);
    ResetOne(o.channels, kept, pin);
    EndedStates(o.states, done, pin, zeros);
    if pin in ChannelPins(o.channels) && timed {
      assert more == zeros;
    } else {
      assert more == zeros[pin := 0];
      assert o.output + more == (o.output + zeros)[pin := 0] && o.last + more == (o.last + zeros)[pin := 0];
      RestatedOneMore(Ended(o.states, done + {pin}), zeros, pin, 0);
    }
  }

  lemma EndedStates(states: map<int, PinState>, done: set<int>, pin: int, zeros: map<int, int>)
    requires pin in states && pin !in done && zeros.Keys <= done
    ensures var before := Restated(Ended(states, done), zeros);
            before[pin := before[pin].(isOverwritten := false)] == Restated(Ended(states, done + {pin}), zeros)
  {
  }

  lemma NothingRescaled(o: Outputs, from: nat)
    requires from >= 1
    ensures RescaledOver(o, {}, from) == o
  {
    assert ResetChannels(o.channels, {}) == o.channels;
    assert Duties(o.last, {}, from, o.resolution) == map[];
    assert RescaledOver(o, {}, from).states == o.states;
  }

  lemma NothingEnded(o: Outputs, timed: bool)
    ensures EndedOver(o, {}, timed) == o
  {
    assert ResetChannels(o.channels, {}) == o.channels;
    assert Zeros({}, o.channels, timed) == map[];
    assert EndedOver(o, {}, timed).states == o.states;
  }

  /** A change of resolution keeps every pin sound and every duty that was in range in range. */
  lemma RescaleKeeps(o: Outputs, bits: nat)
    requires SoundPins(o) && ValidResolution(bits)
    ensures var r := RescaledOver(o.(resolution := bits), o.attached, o.resolution);
            SoundPins(r) && (AllInRange(o) ==> AllInRange(r))
  {
    var r := RescaledOver(o.(resolution := bits), o.attached, o.resolution);
    forall p: int ensures PinSound(r, p) && (InRange(o, p) ==> InRange(r, p)) {
      assert PinSound(o, p);
      RescaledPin(o, bits, p);
    }
    if AllInRange(o) {
      forall p: int ensures InRange(r, p) { assert InRange(o, p); }
    }
  }

  lemma RescaledPin(o: Outputs, bits: nat, pin: int)
    requires PinSound(o, pin) && ValidResolution(o.resolution) && ValidResolution(bits)
    ensures InRange(o, pin) ==> InRange(RescaledOver(o.(resolution := bits), o.attached, o.resolution), pin)
  {
    MaxDutyGrows(1, bits);
    if InRange(o, pin) { RescaleKeepsRange(OutputAt(o, pin), o.resolution, bits); }
  }

  /** Ending overrides leaves every pin sound, and the duties it changes are zero. */
  lemma EndKeeps(o: Outputs, pins: set<int>, timed: bool)
    requires SoundPins(o) && pins <= o.states.Keys
    ensures SoundPins(EndedOver(o, pins, timed)) && Moves(o, EndedOver(o, pins, timed))
  {
    var r := EndedOver(o, pins, timed);
    MaxDutyGrows(1, o.resolution);
    forall p: int ensures PinSound(r, p) && (OutputAt(r, p) == OutputAt(o, p) || InRange(r, p)) {
      assert PinSound(o, p);
    }
  }

  // ----- Replacing the schedule -----

  lemma {:induction false} ReleaseKeeps(o: Outputs, former: seq<ActiveChannel>, next: set<int>)
    requires SoundPins(o)
    ensures SoundPins(Release(o, former, next)) && Moves(o, Release(o, former, next))
    decreases |former|
  {
    if former != [] {
      var r, s := Release(o, former[..|former| - 1], next), Release(o, former, next);
      ReleaseKeeps(o, former[..|former| - 1], next);
      MaxDutyGrows(1, r.resolution);
      forall p: int ensures PinSound(s, p) && (OutputAt(s, p) == OutputAt(o, p) || InRange(s, p)) {
        assert PinSound(r, p) && (OutputAt(r, p) == OutputAt(o, p) || InRange(r, p));
      }
    }
  }

  /** Releasing switches off and detaches exactly the former channels' pins that are not used again. */
  lemma {:induction false} ReleaseOnly(o: Outputs, former: seq<ActiveChannel>, next: set<int>, pin: int)
    ensures var r, gone := Release(o, former, next), pin in ChannelPins(former) && pin !in next;
            && r.(output := o.output, last := o.last, attached := o.attached, states := o.states) == o
            && (gone ==> pin !in r.attached && OutputAt(r, pin) == 0 && pin !in r.states)
            && (!gone ==> (pin in r.attached <==> pin in o.attached) && OutputAt(r, pin) == OutputAt(o, pin)
                          && (pin in r.states <==> pin in o.states)
                          && (pin in o.states ==> r.states[pin] == o.states[pin]))
    decreases |former|
  {
    if former != [] {
      var n := |former| - 1;
      ReleaseOnly(o, former[..n], next, pin);
      assert ChannelPins(former) == ChannelPins(former[..n]) + {former[n].pin} by {
        assert forall k :: 0 <= k < n ==> former[..n][k] == former[k];
      }
    }
  }

  /** Attaching adds exactly the channels' pins that do not fail, at duty zero, and moves nothing else. */
  lemma {:induction false} AttachAllOnly(o: Outputs, channels: seq<ActiveChannel>, pin: int)
    requires SoundPins(o)
    ensures var r := AttachAll(o, channels);
            && SoundPins(r) && r.(output := o.output, last := o.last, attached := o.attached) == o
            && (pin in r.attached <==> pin in o.attached || (pin in ChannelPins(channels) && pin !in o.failing))
            && OutputAt(r, pin) == OutputAt(o, pin)
    decreases |channels|
  {
    if channels != [] {
      var n := |channels| - 1;
      var r := AttachAll(o, channels[..n]);
      AttachAllOnly(o, channels[..n], pin);
      assert ChannelPins(channels) == ChannelPins(channels[..n]) + {channels[n].pin} by {
        assert forall k :: 0 <= k < n ==> channels[..n][k] == channels[k];
      }
      if channels[n].pin !in r.attached && channels[n].pin !in r.failing { AttachedKeeps(r, channels[n].pin); }
    }
  }

  lemma AttachAllKeeps(o: Outputs, channels: seq<ActiveChannel>)
    requires SoundPins(o)
    ensures var r := AttachAll(o, channels);
            && SoundPins(r) && Moves(o, r)
            && r.states == o.states && r.channels == o.channels && r.schedule == o.schedule && r.since == o.since
  {
    var r := AttachAll(o, channels);
    AttachAllOnly(o, channels, 0);
    forall p: int ensures OutputAt(r, p) == OutputAt(o, p) { AttachAllOnly(o, channels, p); }
  }

  lemma AdoptedIsValid(o: Outputs, schedule: seq<FirmwareChannel>, timed: bool)
    requires SoundPins(o) && ValidSchedule(schedule)
    ensures ValidOutputs(Adopt(o, schedule), timed)
  {
    forall p: int ensures PinSound(Adopt(o, schedule), p) { assert PinSound(o, p); }
  }

  /** What replacing a schedule does to each pin. */
  lemma ScheduleReplaces(o: Outputs, schedule: seq<FirmwareChannel>, pin: int)
    requires SoundPins(o)
    ensures var r := ProcessSchedule(o, schedule);
            var dropped, used := pin in ChannelPins(o.channels) && pin !in Pins(schedule), pin in Pins(schedule);
            && r.schedule == Some(schedule) && r.channels == Fresh(schedule)
            && (pin in r.attached <==> (pin in o.attached && !dropped) || (used && pin !in o.failing))
            && OutputAt(r, pin) == (if dropped then 0 else OutputAt(o, pin))
            && (pin in r.states <==> pin in o.states && !dropped)
  {
    var r := Release(o, o.channels, Pins(schedule));
    ReleaseOnly(o, o.channels, Pins(schedule), pin);
    ReleaseKeeps(o, o.channels, Pins(schedule));
    var a := Adopt(r, schedule);
    forall p: int ensures PinSound(a, p) { assert PinSound(r, p); }
    AttachAllOnly(a, Fresh(schedule), pin);
    assert ChannelPins(Fresh(schedule)) == Pins(schedule) by {
      assert forall k :: 0 <= k < |schedule| ==> Fresh(schedule)[k].pin == schedule[k].pin;
    }
  }

  // ----- The scheduled tick -----

  predicate ValidLinks(c: FirmwareChannel) { forall k :: 0 <= k < |c.links| ==> ValidLink(c.links[k]) }

  lemma DriveKeeps(o: Outputs, c: FirmwareChannel, minute: int)
    requires ValidOutputs(o, true) && ValidLinks(c)
    ensures ValidOutputs(Drive(o, c, minute), true) && Moves(o, Drive(o, c, minute))
  {
    var target := ScheduledValue(c.links, minute);
    ScheduledValueIsPercent(c.links, minute);
    PercentDutyInRange(target, o.resolution);
    var r := Drive(o, c, minute);
    if r != o {
      var w := Written(o, c.pin, PercentDuty(target, o.resolution));
      WrittenKeeps(o, c.pin, PercentDuty(target, o.resolution));
      forall p: int ensures PinSound(r, p) && (OutputAt(r, p) == OutputAt(o, p) || InRange(r, p)) {
        assert PinSound(w, p) && (OutputAt(w, p) == OutputAt(o, p) || InRange(w, p));
      }
    }
  }

  /** What a scheduled write leaves alone. */
  predicate SameShape(o: Outputs, r: Outputs) {
    && r.schedule == o.schedule && r.attached == o.attached && r.failing == o.failing
    && r.since == o.since && r.resolution == o.resolution && r.states.Keys == o.states.Keys
    && |r.channels| == |o.channels| && forall i :: 0 <= i < |r.channels| ==> r.channels[i].pin == o.channels[i].pin
  }

  lemma DriveKeepsShape(o: Outputs, c: FirmwareChannel, minute: int)
    ensures SameShape(o, Drive(o, c, minute))
    ensures forall p: int :: p in o.states ==>
      Drive(o, c, minute).states[p].isOverwritten == o.states[p].isOverwritten
      && Drive(o, c, minute).states[p].startedAt == o.states[p].startedAt
  {
  }

  lemma {:induction false} DriveAllKeepsShape(o: Outputs, schedule: seq<FirmwareChannel>, minute: int)
    ensures SameShape(o, DriveAll(o, schedule, minute))
    ensures forall p: int :: p in o.states ==>
      DriveAll(o, schedule, minute).states[p].isOverwritten == o.states[p].isOverwritten
      && DriveAll(o, schedule, minute).states[p].startedAt == o.states[p].startedAt
    decreases |schedule|
  {
    if schedule != [] {
      DriveAllKeepsShape(o, schedule[..|schedule| - 1], minute);
      DriveKeepsShape(DriveAll(o, schedule[..|schedule| - 1], minute), schedule[|schedule| - 1], minute);
    }
  }

  lemma {:induction false} DriveAllKeeps(o: Outputs, schedule: seq<FirmwareChannel>, minute: int)
    requires ValidOutputs(o, true) && forall i :: 0 <= i < |schedule| ==> ValidLinks(schedule[i])
    ensures ValidOutputs(DriveAll(o, schedule, minute), true) && Moves(o, DriveAll(o, schedule, minute))
    decreases |schedule|
  {
    if schedule != [] {
      var n := |schedule| - 1;
      var r := DriveAll(o, schedule[..n], minute);
      DriveAllKeeps(o, schedule[..n], minute);
      DriveKeeps(r, schedule[n], minute);
      MovesOn(o, r, Drive(r, schedule[n], minute));
    }
  }

  lemma MovesOn(o: Outputs, r: Outputs, s: Outputs)
    requires Moves(o, r) && Moves(r, s)
    ensures Moves(o, s)
  {
    forall p: int ensures OutputAt(s, p) == OutputAt(o, p) || InRange(s, p) {
      assert OutputAt(r, p) == OutputAt(o, p) || InRange(r, p);
      assert OutputAt(s, p) == OutputAt(r, p) || InRange(s, p);
    }
  }

  // ----- Expiring overrides -----

  /** The pins whose override is due to end at counter value `now`. */
  function DuePins(o: Outputs, now: nat): set<int> {
    set p | p in o.states && o.states[p].isOverwritten && Elapsed(now, o.states[p].startedAt) >= OVERRIDE_DURATION
  }

  /** `checkOverwriteExpiries`. */
  function CheckExpiries(o: Outputs, now: nat, timed: bool): Outputs { EndedOver(o, DuePins(o, now), timed) }

  lemma ExpiryKeepsValid(o: Outputs, now: nat, timed: bool)
    requires ValidOutputs(o, timed)
    ensures ValidOutputs(CheckExpiries(o, now, timed), timed) && Moves(o, CheckExpiries(o, now, timed))
  {
    EndKeeps(o, DuePins(o, now), timed);
  }
}
