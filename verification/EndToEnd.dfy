/** From the schedule editor to the duty a running device drives, and how tight the bounds are. */
module EndToEnd {
  import opened Options
  import opened Pwm
  import opened Rounding
  import opened Schedule
  import opened Firmware
  import opened DraftPoints
  import opened Canonical
  import opened CanonicalValues
  import opened Pipeline
  import opened DeviceOutputs
  import opened DeviceCache
  import opened DeviceTime
  import opened DeviceModel
  import opened DeviceSafety

  // ----- The running device -----

  /** What the editor shows for the minute, scaled. */
  function Shown(draft: Draft, throttle: real, gain: real, minute: int): real {
    Times(Reading(draft, minute as real), Factor(throttle, gain))
  }

  /** How far the canonical form may move it. */
  function Drift(o: seq<Point>, minute: int): real
    requires Cycle(o)
  {
    if First(o).minute <= minute as real <= Last(o).minute && !Clash(o) then 0.0 else Abs(WrapSlope(o))
  }

  /** The duty, as a share of the maximum, is the percentage rounded down. */
  lemma DutyOfPercent(percent: int, bits: nat, low: real, high: real)
    requires 0 <= percent <= 100 && low < percent as real <= high
    ensures var duty, maximum := PercentDuty(percent, bits), MaxDuty(bits) as real;
            100.0 * duty as real <= Times(high, maximum) && Times(low, maximum) < 100.0 * duty as real + 100.0
  {
    var duty, maximum := PercentDuty(percent, bits), MaxDuty(bits);
    MaxDutyGrows(0, bits);
    assert 100 * duty <= percent * maximum < 100 * duty + 100;
    ProductNonnegative(high - percent as real, maximum as real);
    ProductNonnegative(percent as real - low, maximum as real);
    assert (percent * maximum) as real == percent as real * maximum as real;
  }

  /** A duty within the band around `shown`, as a share of the maximum. */
  predicate InBand(shown: real, drift: real, bits: nat, duty: int) {
    && 0 <= duty <= MaxDuty(bits)
    && 100.0 * duty as real <= Times(shown + drift + 0.5 + SLACK, MaxDuty(bits) as real)
    && Times(shown - drift - 1.5 - SLACK, MaxDuty(bits) as real) < 100.0 * duty as real + 100.0
  }

  lemma PercentInBand(percent: int, bits: nat, shown: real, drift: real)
    requires 0 <= percent <= 100
    requires shown - drift - 1.5 - SLACK < percent as real <= shown + drift + 0.5 + SLACK
    ensures InBand(shown, drift, bits, PercentDuty(percent, bits))
  {
    PercentDutyInRange(percent, bits);
    DutyOfPercent(percent, bits, shown - drift - 1.5 - SLACK, shown + drift + 0.5 + SLACK);
  }

  lemma DevicePercentIsPercent(draft: Draft, throttle: real, gain: real, minute: int)
    requires ValidPoints(draft.points) && Canonicalises(draft) && ValidPercent(throttle) && 0.0 <= gain <= 1.0
    ensures 0 <= DevicePercent(draft, throttle, gain, minute) <= 100
  {
    CanonicalGraphIsPeriodic(draft);
    CompileKeepsShape(CanonicalGraph(draft), throttle, gain);
    ScheduledValueIsPercent(CompileGraph(CanonicalGraph(draft), throttle, gain), minute);
  }

  /** `duty` at resolution `bits` is what the editor shows for the minute, up to the drift of the canonical
      form, rounding and truncation. */
  predicate DutyTracks(draft: Draft, throttle: real, gain: real, minute: int, bits: nat, duty: int) {
    var o := Curve(Normalize(draft.points));
    Cycle(o) && InBand(Shown(draft, throttle, gain, minute), Drift(o, minute), bits, duty)
  }

  lemma ScheduledDutyTracks(draft: Draft, throttle: real, gain: real, minute: int, bits: nat)
    requires ValidPoints(draft.points) && Canonicalises(draft) && ValidPercent(throttle) && 0.0 <= gain <= 1.0
    requires 0 <= minute <= 1439
    ensures var links := CompileGraph(CanonicalGraph(draft), throttle, gain);
            DutyTracks(draft, throttle, gain, minute, bits, PercentDuty(ScheduledValue(links, minute), bits))
  {
    DeviceTracksDraft(draft, throttle, gain, minute);
    DevicePercentIsPercent(draft, throttle, gain, minute);
    PercentInBand(DevicePercent(draft, throttle, gain, minute), bits, Shown(draft, throttle, gain, minute),
                  Drift(Curve(Normalize(draft.points)), minute));
  }

  /** From boot: with manual duties as overrides and storage that works, every scheduled loop of every run
      leaves each attached, free channel whose links a draft was compiled to at a duty that tracks the draft. */
  lemma {:induction false} RunningDeviceTracksDraft(
    stored: Stored, failing: set<int>, boot: int, run: seq<(Event, int)>, at: int, i: nat,
    draft: Draft, throttle: real, gain: real)
    requires IsRun(Boot(stored, failing, boot, [], []), boot, run)
    requires forall k :: 0 <= k < |run| ==> Ordinary(run[k].0)
    requires EndOf(Boot(stored, failing, boot, [], []), boot, run).1 <= at
    requires SchedulesAt(EndOf(Boot(stored, failing, boot, [], []), boot, run).0, at)
    requires ValidPoints(draft.points) && Canonicalises(draft) && ValidPercent(throttle) && 0.0 <= gain <= 1.0
    requires var end := EndOf(Boot(stored, failing, boot, [], []), boot, run).0;
             && i < |end.out.schedule.value| && Free(RunLoop(end, at).out, end.out.schedule.value[i].pin)
             && end.out.schedule.value[i].links == CompileGraph(CanonicalGraph(draft), throttle, gain)
    ensures var end := EndOf(Boot(stored, failing, boot, [], []), boot, run).0;
            DutyTracks(draft, throttle, gain, MinuteAt(RunLoop(end, at).clock, at), RunLoop(end, at).out.resolution,
                       OutputAt(RunLoop(end, at).out, end.out.schedule.value[i].pin))
  {
    var end := EndOf(Boot(stored, failing, boot, [], []), boot, run).0;
    var after := RunLoop(end, at);
    OrdinaryRunsAreExact(stored, failing, boot, run, at, i);
    assert Exact(after.out, end.out.schedule.value[i], MinuteAt(after.clock, at));
    ScheduledDutyTracks(draft, throttle, gain, MinuteAt(after.clock, at), after.out.resolution);
  }

  // ----- Both bounds against the host are reached -----

  /** One step up, at every minute: a constant 1.5 percent compiles to 2. */
  lemma HostStepUp(minute: int)
    requires 0 <= minute <= 1439
    ensures var g := [Segment(Point(0.0, 1.5), Point(1439.0, 1.5))];
            && Periodic(g) && HasValue(g, minute as real, 1.5)
            && ToHostPwm(1.5, 100.0, 1.0) == Some(4)
            && PercentDuty(ScheduledValue(CompileGraph(g, 100.0, 1.0), minute), 8) == 5
  {
    var g := [Segment(Point(0.0, 1.5), Point(1439.0, 1.5))];
    assert Covers(g[0], minute as real) && Interpolate(g[0], minute as real) == 1.5;
    var links := CompileGraph(g, 100.0, 1.0);
    assert links[0] == Link(0, 2, 1439, 2);
    LinkValueInHull(links[0], minute);
    MaxDutyGrows(8, 8);
  }

  lemma TruncIs(s: int, d: int, q: real, exact: real, n: nat)
    requires 0 <= s <= 100 && 0 <= d <= 100 && 0.000001 <= q <= 1.0
    requires exact == s as real + Times((d - s) as real, q)
    requires n as real <= exact - SLACK && exact + SLACK < n as real + 1.0
    ensures Trunc(FloatValue(s, d, q)) == n
  {
    FloatValueClose(s, d, q);
  }

  lemma TruncatedBelowTen(l: Link, minute: int)
    requires l == Link(0, 0, 100, 10) && minute == 99
    ensures LinkValue(l, minute) == 9
  {
    var q := Progress(l, minute);
    assert q == 0.99;
    assert Times(10.0, q) == 9.9;
    TruncIs(l.sourcePercentage, l.targetPercentage, q, 9.9, 9);
  }

  /** Rising from 0.5 to 10.5 percent in a hundred minutes, and falling for the rest of the day. */
  function Rise(): Graph {
    [Segment(Point(0.0, 0.5), Point(100.0, 10.5)), Segment(Point(100.0, 10.5), Point(1439.0, 0.5))]
  }

  lemma RiseOnHost()
    ensures Periodic(Rise()) && HasValue(Rise(), 99.0, 10.4) && ToHostPwm(10.4, 100.0, 1.0) == Some(27)
  {
    assert Covers(Rise()[0], 99.0) && Interpolate(Rise()[0], 99.0) == 10.4;
  }

  lemma RiseCompiled()
    ensures var links := CompileGraph(Rise(), 100.0, 1.0); |links| == 2 && links[0] == Link(0, 0, 100, 10)
  {
  }

  /** Five steps down: the endpoints compile to 0 and 10, and the value just before the top is truncated. */
  lemma HostStepsDown(minute: int)
    requires minute == 99
    ensures Periodic(Rise()) && HasValue(Rise(), minute as real, 10.4)
    ensures ToHostPwm(10.4, 100.0, 1.0) == Some(27)
    ensures PercentDuty(ScheduledValue(CompileGraph(Rise(), 100.0, 1.0), minute), 8) == 22
  {
    var links := CompileGraph(Rise(), 100.0, 1.0);
    RiseOnHost();
    RiseCompiled();
    TruncatedBelowTen(links[0], minute);
    assert ScheduledValue(links, minute) == 9;
    MaxDutyGrows(8, 8);
  }
}
