/** Compiling a graph into the firmware's integer links, and the firmware's own evaluation in binary32. */
module Firmware {
  import opened Pwm
  import opened Rounding
  import opened Schedule

  datatype Link = Link(sourceTime: int, sourcePercentage: int, targetTime: int, targetPercentage: int)

  datatype Kind = Light | Pump

  datatype ChannelInput = ChannelInput(pin: int, kind: Kind, graph: Graph, throttlePercent: real, outputGain: real)

  datatype CompiledChannel = CompiledChannel(pin: int, kind: Kind, links: seq<Link>)

  datatype CompileError = PinOutOfRange | DuplicatePin(pin: int) | BadThrottle | BadGain

  datatype Compilation = Compiled(channels: seq<CompiledChannel>) | Refused(error: CompileError)

  // ----- Compilation -----

  function Factor(throttlePercent: real, outputGain: real): real { (throttlePercent / 100.0) * outputGain }

  function CompilePercent(percent: real, throttlePercent: real, outputGain: real): int {
    RoundHalfEven(percent * (throttlePercent / 100.0) * outputGain)
  }

  /** `compileSegment`; the minutes of a validated graph are integers. */
  function CompileSegment(s: Segment, throttlePercent: real, outputGain: real): Link {
    Link(s.source.minute.Floor, CompilePercent(s.source.percent, throttlePercent, outputGain),
         s.target.minute.Floor, CompilePercent(s.target.percent, throttlePercent, outputGain))
  }

  function CompileGraph(g: Graph, throttlePercent: real, outputGain: real): (links: seq<Link>)
    ensures |links| == |g|
    ensures forall i :: 0 <= i < |g| ==> links[i] == CompileSegment(g[i], throttlePercent, outputGain)
  {
    seq(|g|, i requires 0 <= i < |g| => CompileSegment(g[i], throttlePercent, outputGain))
  }

  predicate Acceptable(c: ChannelInput) {
    0 <= c.pin <= 63 && ValidPercent(c.throttlePercent) && 0.0 <= c.outputGain <= 1.0
  }

  predicate DistinctPins(channels: seq<ChannelInput>) {
    forall i, j :: 0 <= i < j < |channels| ==> channels[i].pin != channels[j].pin
  }

  /** `compileFirmwareSchedule`. */
  method CompileFirmwareSchedule(channels: seq<ChannelInput>) returns (r: Compilation)
    ensures r.Compiled? <==> DistinctPins(channels) && forall i :: 0 <= i < |channels| ==> Acceptable(channels[i])
    ensures r.Compiled? ==>
      && |r.channels| == |channels|
      && forall i :: 0 <= i < |channels| ==>
           var c := channels[i];
           r.channels[i] == CompiledChannel(c.pin, c.kind, CompileGraph(c.graph, c.throttlePercent, c.outputGain))
  {
    var pins: set<int> := {};
    var compiled := [];
    for i := 0 to |channels|
      invariant forall k :: 0 <= k < i ==> Acceptable(channels[k]) && channels[k].pin in pins
      invariant forall p :: p in pins ==> exists k :: 0 <= k < i && channels[k].pin == p
      invariant forall j, k :: 0 <= j < k < i ==> channels[j].pin != channels[k].pin
      invariant |compiled| == i
      invariant forall k :: 0 <= k < i ==>
        var c := channels[k];
        compiled[k] == CompiledChannel(c.pin, c.kind, CompileGraph(c.graph, c.throttlePercent, c.outputGain))
    {
      var c := channels[i];
      if c.pin < 0 || c.pin > 63 { return Refused(PinOutOfRange); }
      if c.pin in pins { return Refused(DuplicatePin(c.pin)); }
      pins := pins + {c.pin};
      if c.throttlePercent < 0.0 || c.throttlePercent > 100.0 { return Refused(BadThrottle); }
      if c.outputGain < 0.0 || c.outputGain > 1.0 { return Refused(BadGain); }
      compiled := compiled + [CompiledChannel(c.pin, c.kind, CompileGraph(c.graph, c.throttlePercent, c.outputGain))];
    }
    return Compiled(compiled);
  }

  // ----- The firmware's evaluation -----

  function Trunc(x: real): int { if x < 0.0 then -((-x).Floor) else x.Floor }

  predicate Applies(l: Link, minute: int) { l.sourceTime <= minute <= l.targetTime }

  function Progress(l: Link, minute: int): real
    requires l.sourceTime != l.targetTime
  {
    (minute - l.sourceTime) as real / (l.targetTime - l.sourceTime) as real
  }

  /** Interpolation with the sketch's three float roundings: of the progress, of the delta, of the sum. */
  function FloatValue(s: int, d: int, q: real): real { Fround(s as real + Delta(d - s, q)) }

  function Delta(change: int, q: real): real { Fround(Times(change as real, Fround(q))) }

  function LinkValue(l: Link, minute: int): int {
    if l.targetTime == l.sourceTime then l.sourcePercentage
    else Trunc(FloatValue(l.sourcePercentage, l.targetPercentage, Progress(l, minute)))
  }

  /** The first applying link decides; no link means 0. */
  function ScheduledValue(links: seq<Link>, minute: int): int
    decreases |links|
  {
    if links == [] then 0
    else if Applies(links[0], minute) then LinkValue(links[0], minute)
    else ScheduledValue(links[1..], minute)
  }

  /** `firmwareScheduledValue`. */
  method FirmwareScheduledValue(links: seq<Link>, minute: int) returns (value: int)
    ensures value == ScheduledValue(links, minute)
  {
    var i := 0;
    while i < |links|
      invariant 0 <= i <= |links|
      invariant ScheduledValue(links, minute) == ScheduledValue(links[i..], minute)
    {
      var link := links[i];
      if minute >= link.sourceTime && minute <= link.targetTime {
        return LinkValue(link, minute);
      }
      assert links[i..][1..] == links[i + 1..];
      i := i + 1;
    }
    return 0;
  }

  predicate ValidLink(l: Link) {
    && 0 <= l.sourceTime <= 1439 && 0 <= l.targetTime <= 1439
    && 0 <= l.sourcePercentage <= 100 && 0 <= l.targetPercentage <= 100
  }

  function Low(l: Link): int {
    if l.sourcePercentage < l.targetPercentage then l.sourcePercentage else l.targetPercentage
  }
  function High(l: Link): int {
    if l.sourcePercentage < l.targetPercentage then l.targetPercentage else l.sourcePercentage
  }

  // ----- Values stay in the hull of the link -----

  lemma ProductBetween(a: real, p: real)
    requires 0.0 <= p <= 1.0
    ensures a >= 0.0 ==> 0.0 <= Times(a, p) <= a
    ensures a <= 0.0 ==> a <= Times(a, p) <= 0.0
  {
    if a >= 0.0 {
      ProductNonnegative(a, p);
      ProductNonnegative(a, 1.0 - p);
    } else {
      ProductNonnegative(-a, p);
      ProductNonnegative(-a, 1.0 - p);
    }
  }

  lemma RoundedWithin(a: int, w: real)
    requires -100 <= a <= 100
    requires (a >= 0 ==> 0.0 <= w <= a as real) && (a <= 0 ==> a as real <= w <= 0.0)
    ensures a >= 0 ==> 0.0 <= Fround(w) <= a as real
    ensures a <= 0 ==> a as real <= Fround(w) <= 0.0
  {
    if a == 0 { FroundBetween(0, w, 0); } else if a > 0 { FroundBetween(0, w, a); } else { FroundBetween(a, w, 0); }
  }

  lemma DeltaBetween(a: int, q: real)
    requires -100 <= a <= 100 && 0.0 <= q <= 1.0
    ensures a >= 0 ==> 0.0 <= Delta(a, q) <= a as real
    ensures a <= 0 ==> a as real <= Delta(a, q) <= 0.0
  {
    FroundBetween(0, q, 1);
    ProductBetween(a as real, Fround(q));
    RoundedWithin(a, Times(a as real, Fround(q)));
  }

  lemma SumBetween(s: int, d: int, delta: real)
    requires 0 <= s <= 100 && 0 <= d <= 100
    requires d >= s ==> 0.0 <= delta <= (d - s) as real
    requires d <= s ==> (d - s) as real <= delta <= 0.0
    ensures s <= d ==> s as real <= Fround(s as real + delta) <= d as real
    ensures d <= s ==> d as real <= Fround(s as real + delta) <= s as real
  {
    if s <= d { FroundBetween(s, s as real + delta, d); } else { FroundBetween(d, s as real + delta, s); }
  }

  lemma FloatValueBetween(s: int, d: int, q: real)
    requires 0 <= s <= 100 && 0 <= d <= 100 && 0.0 <= q <= 1.0
    ensures s <= d ==> s as real <= FloatValue(s, d, q) <= d as real
    ensures d <= s ==> d as real <= FloatValue(s, d, q) <= s as real
  {
    DeltaBetween(d - s, q);
    SumBetween(s, d, Delta(d - s, q));
  }

  lemma LinkProgress(l: Link, minute: int)
    requires Applies(l, minute) && l.sourceTime != l.targetTime
    ensures 0.0 <= Progress(l, minute) <= 1.0
  {
    ProgressBetween(0.0, (l.targetTime - l.sourceTime) as real, (minute - l.sourceTime) as real);
  }

  lemma LinkValueInHull(l: Link, minute: int)
    requires ValidLink(l) && Applies(l, minute)
    ensures Low(l) <= LinkValue(l, minute) <= High(l)
  {
    if l.sourceTime != l.targetTime {
      LinkProgress(l, minute);
      FloatValueBetween(l.sourcePercentage, l.targetPercentage, Progress(l, minute));
    }
  }

  lemma {:induction false} ScheduledValueIsPercent(links: seq<Link>, minute: int)
    requires forall i :: 0 <= i < |links| ==> ValidLink(links[i])
    ensures 0 <= ScheduledValue(links, minute) <= 100
    decreases |links|
  {
    if links != [] {
      if Applies(links[0], minute) {
        LinkValueInHull(links[0], minute);
      } else {
        ScheduledValueIsPercent(links[1..], minute);
      }
    }
  }

  // ----- Float error -----

  /** Three float roundings of numbers up to 100: about 0.000018. */
  const SLACK := 300.0 / 16777216.0

  lemma TimesBounded(a: real, r: real)
    requires -100.0 <= a <= 100.0 && -1.0 <= r <= 1.0
    ensures -100.0 <= Times(a, r) <= 100.0
  {
    if r >= 0.0 { ProductBetween(a, r); } else { ProductBetween(a, -r); }
  }

  lemma TimesClose(a: real, p: real, q: real)
    requires -100.0 <= a <= 100.0 && 16777216.0 * Abs(p - q) <= 1.0
    ensures 16777216.0 * Abs(Times(a, p) - Times(a, q)) <= 100.0
  {
    var r := 16777216.0 * (p - q);
    TimesBounded(a, r);
    assert 16777216.0 * (Times(a, p) - Times(a, q)) == Times(a, r);
  }

  lemma ProgressClose(q: real)
    requires 0.0 <= q <= 1.0 && (q == 0.0 || q >= 0.000001)
    ensures 16777216.0 * Abs(Fround(q) - q) <= 1.0
  {
    if q == 0.0 { FroundExact(0); } else { FroundClose(q); }
  }

  lemma DeltaClose(a: int, q: real)
    requires -100 <= a <= 100 && 0.0 <= q <= 1.0 && (q == 0.0 || q >= 0.000001)
    ensures 16777216.0 * Abs(Delta(a, q) - Times(a as real, q)) <= 200.0
  {
    ProgressClose(q);
    TimesClose(a as real, Fround(q), q);
    FroundBetween(0, q, 1);
    ProductBetween(a as real, Fround(q));
    FroundAbsolute(Times(a as real, Fround(q)));
  }

  lemma FloatValueClose(s: int, d: int, q: real)
    requires 0 <= s <= 100 && 0 <= d <= 100 && 0.0 <= q <= 1.0 && (q == 0.0 || q >= 0.000001)
    ensures Abs(FloatValue(s, d, q) - (s as real + Times((d - s) as real, q))) <= SLACK
  {
    DeltaClose(d - s, q);
    DeltaBetween(d - s, q);
    FroundAbsolute(s as real + Delta(d - s, q));
  }

  // ----- The compiled schedule against the exact curve -----

  lemma CompilePercentClose(percent: real, throttle: real, gain: real)
    ensures Abs(CompilePercent(percent, throttle, gain) as real - Times(percent, Factor(throttle, gain))) <= 0.5
  {
    RoundHalfEvenIsNearest(percent * (throttle / 100.0) * gain);
  }

  lemma FactorBounds(throttle: real, gain: real)
    requires ValidPercent(throttle) && 0.0 <= gain <= 1.0
    ensures 0.0 <= Factor(throttle, gain) <= 1.0
  {
    ProductNonnegative(throttle / 100.0, gain);
    ProductNonnegative(throttle / 100.0, 1.0 - gain);
  }

  lemma CompilePercentValid(percent: real, throttle: real, gain: real)
    requires ValidPercent(percent) && ValidPercent(throttle) && 0.0 <= gain <= 1.0
    ensures 0.0 <= Times(percent, Factor(throttle, gain)) <= 100.0
    ensures 0 <= CompilePercent(percent, throttle, gain) <= 100
  {
    FactorBounds(throttle, gain);
    ProductBetween(percent, Factor(throttle, gain));
    CompilePercentClose(percent, throttle, gain);
  }

  predicate Covered(links: seq<Link>, minute: int) { exists i :: 0 <= i < |links| && Applies(links[i], minute) }

  /** Compilation keeps coverage, joints and the wrap, and yields links the firmware accepts. */
  lemma CompileKeepsShape(g: Graph, throttle: real, gain: real)
    requires Periodic(g) && ValidPercent(throttle) && 0.0 <= gain <= 1.0
    ensures var links := CompileGraph(g, throttle, gain);
            && (forall i :: 0 <= i < |links| ==> ValidLink(links[i]) && links[i].sourceTime < links[i].targetTime)
            && (forall i :: 0 < i < |links| ==> links[i].sourceTime == links[i - 1].targetTime
                                                && links[i].sourcePercentage == links[i - 1].targetPercentage)
            && links[0].sourceTime == 0 && links[|links| - 1].targetTime == 1439
            && links[0].sourcePercentage == links[|links| - 1].targetPercentage
            && (forall minute :: 0 <= minute <= 1439 ==> Covered(links, minute))
  {
    var links := CompileGraph(g, throttle, gain);
    forall i | 0 <= i < |links| ensures ValidLink(links[i]) && links[i].sourceTime < links[i].targetTime {
      CompilePercentValid(g[i].source.percent, throttle, gain);
      CompilePercentValid(g[i].target.percent, throttle, gain);
    }
    forall minute | 0 <= minute <= 1439 ensures Covered(links, minute) {
      var i := SomeSegmentCovers(g, minute as real, |g| - 1);
      assert Applies(links[i], minute);
    }
  }

  lemma {:induction false} FirstApplying(links: seq<Link>, minute: int, i: nat) returns (k: nat)
    requires i < |links| && Applies(links[i], minute)
    ensures k <= i && Applies(links[k], minute) && ScheduledValue(links, minute) == LinkValue(links[k], minute)
    decreases i
  {
    if Applies(links[0], minute) {
      k := 0;
    } else {
      k := FirstApplying(links[1..], minute, i - 1);
      k := k + 1;
    }
  }

  /** Rounding the endpoints moves the interpolated value by at most one half. */
  lemma MixClose(a: real, b: real, a': real, b': real, q: real)
    requires 0.0 <= q <= 1.0 && Abs(a - a') <= 0.5 && Abs(b - b') <= 0.5
    ensures Abs(Mix(a, b, q) - Mix(a', b', q)) <= 0.5
  {
    MixBetween(a - a', b - b', q);
    assert Mix(a - a', b - b', q) == Mix(a, b, q) - Mix(a', b', q);
  }

  lemma MixTimes(a: real, b: real, q: real, f: real)
    ensures Times(Mix(a, b, q), f) == Mix(Times(a, f), Times(b, f), q)
  {
  }

  lemma SegmentClose(s: Segment, throttle: real, gain: real, minute: int)
    requires ValidMinute(s.source.minute) && ValidMinute(s.target.minute) && s.source.minute < s.target.minute
    requires ValidPercent(s.source.percent) && ValidPercent(s.target.percent)
    requires ValidPercent(throttle) && 0.0 <= gain <= 1.0 && Covers(s, minute as real)
    ensures var l := CompileSegment(s, throttle, gain);
            var q := Progress(l, minute);
            && 0.0 <= q <= 1.0 && (q == 0.0 || q >= 0.000001)
            && Interpolate(s, minute as real) == Mix(s.source.percent, s.target.percent, q)
  {
    var l := CompileSegment(s, throttle, gain);
    LinkProgress(l, minute);
    StepOfProgress(minute - l.sourceTime, l.targetTime - l.sourceTime);
  }

  lemma StepOfProgress(n: int, d: int)
    requires 0 <= n <= d <= 1439 && d > 0
    ensures n as real / d as real == 0.0 || n as real / d as real >= 0.000001
  {
    if n > 0 {
      var q := n as real / d as real;
      assert q * d as real == n as real;
      if q < 0.000001 { ProductNonnegative(0.000001 - q, d as real); }
    }
  }

  lemma LinkTracksSegment(s: Segment, throttle: real, gain: real, minute: int)
    requires ValidMinute(s.source.minute) && ValidMinute(s.target.minute) && s.source.minute < s.target.minute
    requires ValidPercent(s.source.percent) && ValidPercent(s.target.percent)
    requires ValidPercent(throttle) && 0.0 <= gain <= 1.0 && Covers(s, minute as real)
    ensures var exact := Times(Interpolate(s, minute as real), Factor(throttle, gain));
            var value := LinkValue(CompileSegment(s, throttle, gain), minute) as real;
            exact - 1.5 - SLACK < value <= exact + 0.5 + SLACK
  {
    var l, f := CompileSegment(s, throttle, gain), Factor(throttle, gain);
    var q := Progress(l, minute);
    var from, to := l.sourcePercentage, l.targetPercentage;
    SegmentClose(s, throttle, gain, minute);
    CompilePercentValid(s.source.percent, throttle, gain);
    CompilePercentValid(s.target.percent, throttle, gain);
    CompilePercentClose(s.source.percent, throttle, gain);
    CompilePercentClose(s.target.percent, throttle, gain);
    MixClose(from as real, to as real, Times(s.source.percent, f), Times(s.target.percent, f), q);
    MixTimes(s.source.percent, s.target.percent, q, f);
    FloatValueClose(from, to, q);
    FloatValueBetween(from, to, q);
    MixIsTimes(from, to, q);
  }

  lemma MixIsTimes(s: int, d: int, q: real)
    ensures Mix(s as real, d as real, q) == s as real + Times((d - s) as real, q)
  {
    assert (d - s) as real == d as real - s as real;
  }

  /** The firmware's percentage lies at most 0.5 above and less than 1.5 below the exact product of
      schedule, throttle and gain, up to the float slack. */
  lemma FirmwareTracksSchedule(g: Graph, throttle: real, gain: real, minute: int, percent: real)
    requires Periodic(g) && ValidPercent(throttle) && 0.0 <= gain <= 1.0
    requires 0 <= minute <= 1439 && HasValue(g, minute as real, percent)
    ensures var exact := Times(percent, Factor(throttle, gain));
            var value := ScheduledValue(CompileGraph(g, throttle, gain), minute) as real;
            exact - 1.5 - SLACK < value <= exact + 0.5 + SLACK
  {
    var links := CompileGraph(g, throttle, gain);
    CompileKeepsShape(g, throttle, gain);
    assert Covered(links, minute);
    var i :| 0 <= i < |links| && Applies(links[i], minute);
    var k := FirstApplying(links, minute, i);
    assert Covers(g[k], minute as real);
    assert HasValue(g, minute as real, Interpolate(g[k], minute as real));
    CurveIsAFunction(g, minute as real, percent, Interpolate(g[k], minute as real));
    LinkTracksSegment(g[k], throttle, gain, minute);
  }

  // ----- PWM -----

  lemma HostPwmClose(percent: real, throttle: real, gain: real)
    requires ValidPercent(percent) && ValidPercent(throttle) && 0.0 <= gain <= 1.0
    ensures var host := ToHostPwm(percent, throttle, gain);
            && host.Some? && 0 <= host.value <= 255
            && Abs(host.value as real - 2.55 * Times(percent, Factor(throttle, gain))) <= 0.5
  {
    CompilePercentValid(percent, throttle, gain);
    var exact := Times(percent, Factor(throttle, gain));
    assert (percent / 100.0) * 255.0 * Factor(throttle, gain) == 2.55 * exact;
    RoundHalfEvenIsNearest(2.55 * exact);
  }

  /** Device and host never differ by more than one step up or five steps down. */
  lemma DeviceTracksHost(g: Graph, throttle: real, gain: real, minute: int, percent: real)
    requires Periodic(g) && ValidPercent(throttle) && 0.0 <= gain <= 1.0
    requires 0 <= minute <= 1439 && HasValue(g, minute as real, percent) && ValidPercent(percent)
    ensures var host := ToHostPwm(percent, throttle, gain);
            && host.Some?
            && -5 <= PercentDuty(ScheduledValue(CompileGraph(g, throttle, gain), minute), 8) - host.value <= 1
  {
    FirmwareTracksSchedule(g, throttle, gain, minute, percent);
    HostPwmClose(percent, throttle, gain);
    var value := ScheduledValue(CompileGraph(g, throttle, gain), minute);
    MaxDutyGrows(8, 8);
    var device, host := PercentDuty(value, 8), ToHostPwm(percent, throttle, gain).value;
    assert 100 * device <= 255 * value < 100 * device + 100;
    assert 100.0 * device as real <= 255.0 * value as real < 100.0 * device as real + 100.0;
  }

  // ----- A case where the float roundings matter -----

  lemma Shifted20(x: real)
    ensures Scaled(x, 20) == 1048576.0 * x && Scaled(x, 21) == 2097152.0 * x
    ensures Scaled(x, 24) == 16777216.0 * x && Scaled(x, 25) == 33554432.0 * x
  {
    assert Scaled(x, 5) == 32.0 * x;
    ScaledBack(x, 5, 5);
    ScaledBack(x, 10, 10);
    var y := Scaled(x, 10);
    assert Scaled(y, 5) == 32.0 * y;
    ScaledBack(y, 5, 5);
    ScaledStep(x, 20);
    ScaledStep(x, 21);
    ScaledStep(x, 22);
    ScaledStep(x, 23);
    ScaledStep(x, 24);
  }

  /** Falling from 25 to 0 in five minutes, exact arithmetic gives 10 at minute 3; the device gives 9. */
  lemma FloatTruncation()
    ensures LinkValue(Link(0, 25, 5, 0), 3) == 9 && PercentDuty(9, 8) == 22
    ensures 25.0 + Times(-25.0, Progress(Link(0, 25, 5, 0), 3)) == 10.0
  {
    var q := Progress(Link(0, 25, 5, 0), 3);
    assert q == 0.6;
    Shifted20(q);
    FroundIs(q, 24, 10066330);
    Shifted20(Fround(q));
    var product := Times(-25.0, Fround(q));
    Shifted20(product);
    Shifted20(Abs(product));
    FroundIs(product, 20, -15728641);
    var sum := 25.0 + Delta(-25, q);
    Shifted20(Delta(-25, q));
    Shifted20(sum);
    FroundIs(sum, 20, 10485759);
    Shifted20(Fround(sum));
    MaxDutyGrows(8, 8);
  }
}
