/** The semantic schedule graph: validation, evaluation and conversion to host PWM, over real
    arithmetic. */
module Schedule {
  import opened Options
  import opened Rounding

  datatype Point = Point(minute: real, percent: real)

  datatype Segment = Segment(source: Point, target: Point)

  type Graph = seq<Segment>

  datatype Endpoint = Source | Target
  datatype Defect = NotInteger | OutOfRange

  datatype Issue =
    | EmptySchedule
    | InvalidMinute(index: nat, endpoint: Endpoint, value: real, reason: Defect)
    | InvalidPercent(index: nat, endpoint: Endpoint, value: real)
    | ZeroDuration(index: nat, minute: real)
    | ReversedSegment(index: nat, sourceMinute: real, targetMinute: real)
    | GapBefore(index: nat, previousEnd: real, nextStart: real)
    | OverlapBefore(index: nat, previousEnd: real, nextStart: real)
    | Discontinuity(index: nat, minute: real, previousPercent: real, nextPercent: real)
    | StartNotMidnight(minute: real)
    | EndNotFinalMinute(minute: real)
    | WrapDiscontinuity(startPercent: real, endPercent: real)

  datatype Validation = Valid(graph: Graph) | Invalid(issues: seq<Issue>)

  const LAST_MINUTE := 1439.0

  predicate IsInteger(x: real) { x == x.Floor as real }

  predicate ValidMinute(minute: real) { IsInteger(minute) && 0.0 <= minute <= LAST_MINUTE }

  predicate ValidPercent(percent: real) { 0.0 <= percent <= 100.0 }

  function End(g: Graph, index: nat, endpoint: Endpoint): Point
    requires index < |g|
  {
    if endpoint == Source then g[index].source else g[index].target
  }

  // ----- Validation -----

  /** What a valid graph is: a contiguous, continuous, periodic curve over the whole day. */
  ghost predicate Periodic(g: Graph) {
    && g != []
    && (forall i :: 0 <= i < |g| ==>
          && ValidMinute(g[i].source.minute) && ValidMinute(g[i].target.minute)
          && ValidPercent(g[i].source.percent) && ValidPercent(g[i].target.percent)
          && g[i].source.minute < g[i].target.minute)
    && (forall i :: 0 < i < |g| ==> g[i].source == g[i - 1].target)
    && g[0].source.minute == 0.0
    && g[|g| - 1].target.minute == LAST_MINUTE
    && g[0].source.percent == g[|g| - 1].target.percent
  }

  /** Which issues of one segment on its own are to be reported. */
  predicate ReportedAlone(g: Graph, x: Issue) {
    match x
    case InvalidMinute(i, endpoint, value, reason) =>
      && i < |g| && value == End(g, i, endpoint).minute
      && !ValidMinute(value) && (reason == NotInteger <==> !IsInteger(value))
    case InvalidPercent(i, endpoint, value) =>
      i < |g| && value == End(g, i, endpoint).percent && !ValidPercent(value)
    case ZeroDuration(i, minute) =>
      i < |g| && g[i].source.minute == minute == g[i].target.minute && ValidMinute(minute)
    case ReversedSegment(i, source, target) =>
      && i < |g| && source == g[i].source.minute && target == g[i].target.minute
      && ValidMinute(source) && ValidMinute(target) && source > target
    case _ => false
  }

  /** Which issues between a segment and its predecessor are to be reported. */
  predicate ReportedBetween(g: Graph, x: Issue) {
    match x
    case GapBefore(i, end, start) =>
      && 0 < i < |g| && end == g[i - 1].target.minute && start == g[i].source.minute
      && ValidMinute(end) && ValidMinute(start) && end < start
    case OverlapBefore(i, end, start) =>
      && 0 < i < |g| && end == g[i - 1].target.minute && start == g[i].source.minute
      && ValidMinute(end) && ValidMinute(start) && end > start
    case Discontinuity(i, minute, previous, next) =>
      && 0 < i < |g| && minute == g[i - 1].target.minute == g[i].source.minute && ValidMinute(minute)
      && previous == g[i - 1].target.percent && next == g[i].source.percent
      && ValidPercent(previous) && ValidPercent(next) && previous != next
    case _ => false
  }

  predicate ReportedAtEnds(g: Graph, x: Issue) {
    match x
    case EmptySchedule => g == []
    case StartNotMidnight(minute) =>
      g != [] && minute == g[0].source.minute && ValidMinute(minute) && minute != 0.0
    case EndNotFinalMinute(minute) =>
      g != [] && minute == g[|g| - 1].target.minute && ValidMinute(minute) && minute != LAST_MINUTE
    case WrapDiscontinuity(start, end) =>
      && g != [] && start == g[0].source.percent && end == g[|g| - 1].target.percent
      && ValidPercent(start) && ValidPercent(end) && start != end
    case _ => false
  }

  predicate Reported(g: Graph, x: Issue) { ReportedAlone(g, x) || ReportedBetween(g, x) || ReportedAtEnds(g, x) }

  /** Nothing is reported exactly when the graph is periodic. */
  lemma SoundIffPeriodic(g: Graph)
    ensures Periodic(g) <==> forall x :: !Reported(g, x)
  {
    if forall x :: !Reported(g, x) {
      assert !Reported(g, EmptySchedule);
      forall i | 0 <= i < |g|
        ensures ValidMinute(g[i].source.minute) && ValidMinute(g[i].target.minute)
        ensures ValidPercent(g[i].source.percent) && ValidPercent(g[i].target.percent)
        ensures g[i].source.minute < g[i].target.minute
      {
        var s, t := g[i].source, g[i].target;
        assert !Reported(g, InvalidMinute(i, Source, s.minute, if IsInteger(s.minute) then OutOfRange else NotInteger));
        assert !Reported(g, InvalidMinute(i, Target, t.minute, if IsInteger(t.minute) then OutOfRange else NotInteger));
        assert !Reported(g, InvalidPercent(i, Source, s.percent));
        assert !Reported(g, InvalidPercent(i, Target, t.percent));
        assert !Reported(g, ZeroDuration(i, s.minute));
        assert !Reported(g, ReversedSegment(i, s.minute, t.minute));
      }
      forall i | 0 < i < |g| ensures g[i].source == g[i - 1].target {
        var p, n := g[i - 1].target, g[i].source;
        assert !Reported(g, GapBefore(i, p.minute, n.minute));
        assert !Reported(g, OverlapBefore(i, p.minute, n.minute));
        assert !Reported(g, Discontinuity(i, p.minute, p.percent, n.percent));
      }
      assert !Reported(g, StartNotMidnight(g[0].source.minute));
      assert !Reported(g, EndNotFinalMinute(g[|g| - 1].target.minute));
      assert !Reported(g, WrapDiscontinuity(g[0].source.percent, g[|g| - 1].target.percent));
    }
  }

  method ValidatePoint(p: Point, index: nat, endpoint: Endpoint) returns (issues: seq<Issue>)
    ensures forall x :: x in issues <==>
              || (!ValidMinute(p.minute)
                  && x == InvalidMinute(index, endpoint, p.minute,
                       if IsInteger(p.minute) then OutOfRange else NotInteger))
              || (!ValidPercent(p.percent) && x == InvalidPercent(index, endpoint, p.percent))
  {
    issues := [];
    if p.minute != p.minute.Floor as real {
      issues := issues + [InvalidMinute(index, endpoint, p.minute, NotInteger)];
    } else if p.minute < 0.0 || p.minute > LAST_MINUTE {
      issues := issues + [InvalidMinute(index, endpoint, p.minute, OutOfRange)];
    }
    if p.percent < 0.0 || p.percent > 100.0 {
      issues := issues + [InvalidPercent(index, endpoint, p.percent)];
    }
  }

  function IndexOf(x: Issue): int {
    match x
    case EmptySchedule => -1
    case StartNotMidnight(_) => -1
    case EndNotFinalMinute(_) => -1
    case WrapDiscontinuity(_, _) => -1
    case _ => x.index
  }

  method ValidateSegments(g: Graph) returns (issues: seq<Issue>)
    ensures forall x :: x in issues <==> ReportedAlone(g, x)
  {
    issues := [];
    for i := 0 to |g|
      invariant forall x :: x in issues <==> ReportedAlone(g, x) && IndexOf(x) < i
    {
      var source := ValidatePoint(g[i].source, i, Source);
      var target := ValidatePoint(g[i].target, i, Target);
      var order := [];
      var from, to := g[i].source.minute, g[i].target.minute;
      if ValidMinute(from) && ValidMinute(to) {
        if from == to {
          order := [ZeroDuration(i, from)];
        } else if from > to {
          order := [ReversedSegment(i, from, to)];
        }
      }
      assert forall x ::
        x in order <==> ReportedAlone(g, x) && IndexOf(x) == i && (x.ZeroDuration? || x.ReversedSegment?);
      assert forall x :: x in source + target <==>
        ReportedAlone(g, x) && IndexOf(x) == i && (x.InvalidMinute? || x.InvalidPercent?);
      issues := issues + (source + target + order);
    }
  }

  method ValidateJoints(g: Graph) returns (issues: seq<Issue>)
    ensures forall x :: x in issues <==> ReportedBetween(g, x)
  {
    issues := [];
    if g == [] { return; }
    for i := 1 to |g|
      invariant forall x :: x in issues <==> ReportedBetween(g, x) && IndexOf(x) < i
    {
      var found := [];
      var end, start := g[i - 1].target.minute, g[i].source.minute;
      if ValidMinute(end) && ValidMinute(start) {
        if end < start {
          found := [GapBefore(i, end, start)];
        } else if end > start {
          found := [OverlapBefore(i, end, start)];
        } else if ValidPercent(g[i - 1].target.percent) && ValidPercent(g[i].source.percent)
                  && g[i - 1].target.percent != g[i].source.percent {
          found := [Discontinuity(i, end, g[i - 1].target.percent, g[i].source.percent)];
        }
      }
      assert forall x :: x in found <==> ReportedBetween(g, x) && IndexOf(x) == i;
      issues := issues + found;
    }
  }

  /** `validateScheduleGraph`. */
  method ValidateScheduleGraph(g: Graph) returns (r: Validation)
    ensures r.Valid? <==> Periodic(g)
    ensures r.Valid? ==> r.graph == g
    ensures r.Invalid? ==> forall x :: x in r.issues <==> Reported(g, x)
  {
    SoundIffPeriodic(g);
    if |g| == 0 {
      return Invalid([EmptySchedule]);
    }
    var alone := ValidateSegments(g);
    var ends := [];
    var first, last := g[0], g[|g| - 1];
    if ValidMinute(first.source.minute) && first.source.minute != 0.0 {
      ends := ends + [StartNotMidnight(first.source.minute)];
    }
    if ValidMinute(last.target.minute) && last.target.minute != LAST_MINUTE {
      ends := ends + [EndNotFinalMinute(last.target.minute)];
    }
    var joints := ValidateJoints(g);
    var wrap := [];
    if ValidPercent(first.source.percent) && ValidPercent(last.target.percent)
       && first.source.percent != last.target.percent {
      wrap := [WrapDiscontinuity(first.source.percent, last.target.percent)];
    }
    assert forall x :: x in ends + wrap <==> ReportedAtEnds(g, x);
    var issues := alone + ends + joints + wrap;
    assert forall x :: x in issues <==> x in alone || x in ends + wrap || x in joints;
    assert forall x :: x in issues <==> Reported(g, x);
    if |issues| > 0 {
      assert Reported(g, issues[0]);
      return Invalid(issues);
    }
    return Valid(g);
  }

  // ----- Evaluation -----

  predicate Covers(s: Segment, minute: real) { s.source.minute <= minute <= s.target.minute }

  function Mix(a: real, b: real, progress: real): real { a + progress * (b - a) }

  /** `interpolateSegment`. */
  function Interpolate(s: Segment, minute: real): real
    requires s.source.minute < s.target.minute
  {
    Mix(s.source.percent, s.target.percent, (minute - s.source.minute) / (s.target.minute - s.source.minute))
  }

  /** A product kept folded, so that proofs reason about it only through lemmas. */
  function Times(x: real, y: real): real { x * y }

  function Lesser(a: real, b: real): real { if a < b then a else b }
  function Greater(a: real, b: real): real { if a < b then b else a }

  lemma ProductNonnegative(x: real, y: real)
    requires x >= 0.0 && y >= 0.0
    ensures x * y >= 0.0
  {
  }

  lemma MixBetween(a: real, b: real, p: real)
    requires 0.0 <= p <= 1.0
    ensures Lesser(a, b) <= Mix(a, b, p) <= Greater(a, b)
  {
    if a <= b {
      ProductNonnegative(p, b - a);
      ProductNonnegative(1.0 - p, b - a);
    } else {
      ProductNonnegative(p, a - b);
      ProductNonnegative(1.0 - p, a - b);
    }
  }

  lemma ProductPositive(x: real, y: real)
    requires x > 0.0 && y > 0.0
    ensures x * y > 0.0
  {
  }

  lemma CancelFactor(x: real, y: real, d: real)
    requires d > 0.0 && x * d <= y * d
    ensures x <= y
  {
    if x > y { ProductPositive(x - y, d); }
  }

  lemma QuotientBetween(p: real, n: real, d: real)
    requires d > 0.0 && p * d == n && 0.0 <= n <= d
    ensures 0.0 <= p <= 1.0 && (n == d ==> p == 1.0)
  {
    CancelFactor(0.0, p, d);
    CancelFactor(p, 1.0, d);
    if n == d { CancelFactor(1.0, p, d); }
  }

  lemma ProgressBetween(from: real, to: real, minute: real)
    requires from < to && from <= minute <= to
    ensures 0.0 <= (minute - from) / (to - from) <= 1.0
    ensures minute == to ==> (minute - from) / (to - from) == 1.0
  {
    var n, d := minute - from, to - from;
    assert (n / d) * d == n;
    QuotientBetween(n / d, n, d);
  }

  lemma InterpolateBetween(s: Segment, minute: real)
    requires s.source.minute < s.target.minute && Covers(s, minute)
    ensures Lesser(s.source.percent, s.target.percent) <= Interpolate(s, minute)
      <= Greater(s.source.percent, s.target.percent)
    ensures minute == s.source.minute ==> Interpolate(s, minute) == s.source.percent
    ensures minute == s.target.minute ==> Interpolate(s, minute) == s.target.percent
  {
    ProgressBetween(s.source.minute, s.target.minute, minute);
    MixBetween(s.source.percent, s.target.percent, (minute - s.source.minute) / (s.target.minute - s.source.minute));
  }

  /** Later segments start where earlier ones have ended. */
  lemma {:induction false} MinutesAdvance(g: Graph, i: nat, j: nat)
    requires Periodic(g) && i < j < |g|
    ensures g[i].target.minute <= g[j].source.minute
    ensures j > i + 1 ==> g[i].target.minute < g[j].source.minute
    decreases j
  {
    if j > i + 1 { MinutesAdvance(g, i, j - 1); }
  }

  lemma {:induction false} SomeSegmentCovers(g: Graph, minute: real, j: nat) returns (i: nat)
    requires Periodic(g) && j < |g| && 0.0 <= minute <= g[j].target.minute
    ensures i <= j && Covers(g[i], minute)
    decreases j
  {
    if minute >= g[j].source.minute {
      i := j;
    } else {
      i := SomeSegmentCovers(g, minute, j - 1);
    }
  }

  /** Which of two covering segments is used makes no difference. */
  lemma CoveringSegmentsAgree(g: Graph, i: nat, j: nat, minute: real)
    requires Periodic(g) && i < |g| && j < |g| && Covers(g[i], minute) && Covers(g[j], minute)
    ensures Interpolate(g[i], minute) == Interpolate(g[j], minute)
  {
    if i != j {
      var a, b := if i < j then i else j, if i < j then j else i;
      MinutesAdvance(g, a, b);
      InterpolateBetween(g[a], minute);
      InterpolateBetween(g[b], minute);
    }
  }

  /** The curve a graph stands for: the value of any covering segment. */
  ghost predicate HasValue(g: Graph, minute: real, percent: real) {
    exists i :: 0 <= i < |g| && g[i].source.minute < g[i].target.minute && Covers(g[i], minute)
                && percent == Interpolate(g[i], minute)
  }

  lemma CurveIsAFunction(g: Graph, minute: real, p: real, q: real)
    requires Periodic(g) && HasValue(g, minute, p) && HasValue(g, minute, q)
    ensures p == q
  {
    var i :| 0 <= i < |g| && g[i].source.minute < g[i].target.minute && Covers(g[i], minute)
      && p == Interpolate(g[i], minute);
    var j :| 0 <= j < |g| && g[j].source.minute < g[j].target.minute && Covers(g[j], minute)
      && q == Interpolate(g[j], minute);
    CoveringSegmentsAgree(g, i, j, minute);
  }

  /** `evaluateSchedulePercent`; `None` where the source throws. */
  method EvaluateSchedulePercent(g: Graph, minute: real) returns (percent: Option<real>)
    requires Periodic(g)
    ensures percent.Some? <==> ValidMinute(minute)
    ensures percent.Some? ==> HasValue(g, minute, percent.value) && ValidPercent(percent.value)
  {
    if !ValidMinute(minute) { return None; }
    ghost var covering := SomeSegmentCovers(g, minute, |g| - 1);
    percent := None;
    var i := 0;
    while i < |g|
      invariant 0 <= i <= covering
    {
      if g[i].source.minute <= minute && g[i].target.minute >= minute {
        InterpolateBetween(g[i], minute);
        return Some(Interpolate(g[i], minute));
      }
      i := i + 1;
    }
  }

  /** The graph through a list of points. */
  function Joined(points: seq<Point>): (g: Graph)
    ensures |g| == if |points| <= 1 then 0 else |points| - 1
    ensures forall i :: 0 <= i < |g| ==> g[i] == Segment(points[i], points[i + 1])
  {
    if |points| <= 1 then []
    else seq(|points| - 1, i requires 0 <= i < |points| - 1 => Segment(points[i], points[i + 1]))
  }

  /** `scheduleGraphFromPoints`. */
  method ScheduleGraphFromPoints(points: seq<Point>) returns (g: Graph)
    ensures g == Joined(points)
  {
    g := [];
    var i := 0;
    while i < |points| - 1
      invariant 0 <= i && (i <= |points| - 1 || i == 0)
      invariant |g| == i && forall k :: 0 <= k < i ==> g[k] == Segment(points[k], points[k + 1])
    {
      g := g + [Segment(points[i], points[i + 1])];
      i := i + 1;
    }
  }

  // ----- Host PWM -----

  function Clamp(value: int, low: int, high: int): int {
    if value < low then low else if value > high then high else value
  }

  /** `toHostPwm`; `None` where the source throws. */
  function ToHostPwm(percent: real, throttlePercent: real, gain: real): Option<int> {
    if !ValidPercent(percent) || !ValidPercent(throttlePercent) || gain < 0.0 then None
    else Some(Clamp(RoundHalfEven((percent / 100.0) * 255.0 * ((throttlePercent / 100.0) * gain)), 0, 255))
  }
}
