/** The graph through the canonical points against the cyclic reading of the draft. */
module CanonicalValues {
  import opened Options
  import opened Rounding
  import opened Schedule
  import opened DraftPoints
  import opened Canonical

  function First(o: seq<Point>): Point requires |o| > 0 { o[0] }
  function Last(o: seq<Point>): Point requires |o| > 0 { o[|o| - 1] }

  /** Minutes from the last point over midnight to the first. */
  function WrapDuration(o: seq<Point>): real
    requires |o| > 0
  {
    First(o).minute + DAY - Last(o).minute
  }

  /** Percent per minute on the wrap arc. */
  function WrapSlope(o: seq<Point>): real
    requires Cycle(o)
    ensures Times(WrapSlope(o), WrapDuration(o)) == First(o).percent - Last(o).percent
  {
    (First(o).percent - Last(o).percent) / WrapDuration(o)
  }

  // ----- The cyclic value, piece by piece -----

  lemma WrappedInDay(minute: real)
    requires 0.0 <= minute <= DAY
    ensures Wrapped(minute) == minute
  {
    if minute < DAY {
      var q := minute / DAY;
      assert q * DAY == minute;
      if q < 0.0 { ProductNonnegative(-q, DAY); }
      assert q.Floor == 0;
    }
  }

  lemma {:induction false} ExactFromFinds(o: seq<Point>, i: nat, k: nat)
    requires Cycle(o) && k <= i < |o|
    ensures ExactFrom(o, o[i].minute, k) == Some(o[i].percent)
    decreases i - k
  {
    if k < i {
      assert o[k].minute < o[i].minute;
      ExactFromFinds(o, i, k + 1);
    }
  }

  lemma {:induction false} ExactFromFails(o: seq<Point>, minute: real, k: nat)
    requires forall i :: 0 <= i < |o| ==> o[i].minute != minute
    ensures ExactFrom(o, minute, k) == None
    decreases |o| - k
  {
    if k < |o| { ExactFromFails(o, minute, k + 1); }
  }

  lemma {:induction false} BetweenFromFinds(o: seq<Point>, minute: real, i: nat, k: nat)
    requires Cycle(o) && 1 <= k <= i < |o| && o[i - 1].minute < minute < o[i].minute
    ensures BetweenFrom(o, minute, k)
      == Some(Between(o[i - 1].minute, o[i - 1].percent, o[i].minute, o[i].percent, minute))
    decreases i - k
  {
    if k < i {
      assert o[k].minute <= o[i - 1].minute by { assert k < i - 1 ==> o[k].minute < o[i - 1].minute; }
      BetweenFromFinds(o, minute, i, k + 1);
    }
  }

  lemma {:induction false} BetweenFromFails(o: seq<Point>, minute: real, k: nat)
    requires Cycle(o) && k >= 1 && (minute < First(o).minute || minute > Last(o).minute)
    ensures BetweenFrom(o, minute, k) == None
    decreases |o| - k
  {
    if k < |o| {
      assert k < |o| - 1 ==> o[k].minute < Last(o).minute;
      assert k > 1 ==> First(o).minute < o[k - 1].minute;
      BetweenFromFails(o, minute, k + 1);
    }
  }

  /** Between neighbouring points the cyclic value is their interpolation, endpoints included. */
  lemma ValueBetween(o: seq<Point>, i: nat, minute: real)
    requires Cycle(o) && 0 < i < |o| && o[i - 1].minute <= minute <= o[i].minute
    ensures CyclicValue(o, minute) == Interpolate(Segment(o[i - 1], o[i]), minute)
  {
    WrappedInDay(minute);
    InterpolateBetween(Segment(o[i - 1], o[i]), minute);
    if minute == o[i - 1].minute {
      ExactFromFinds(o, i - 1, 0);
    } else if minute == o[i].minute {
      ExactFromFinds(o, i, 0);
    } else {
      forall k | 0 <= k < |o| ensures o[k].minute != minute {
        assert k < i - 1 ==> o[k].minute < o[i - 1].minute;
        assert k > i ==> o[i].minute < o[k].minute;
      }
      ExactFromFails(o, minute, 0);
      BetweenFromFinds(o, minute, i, 1);
    }
  }

  lemma WrapProgress(o: seq<Point>, elapsed: real)
    requires Cycle(o) && 0.0 <= elapsed <= WrapDuration(o)
    ensures Between(Last(o).minute, Last(o).percent, First(o).minute + DAY, First(o).percent, Last(o).minute + elapsed)
      == Last(o).percent + Times(WrapSlope(o), elapsed)
  {
    var p := elapsed / WrapDuration(o);
    assert elapsed == p * WrapDuration(o);
    TimesTwice(WrapSlope(o), WrapDuration(o), p);
  }

  lemma TimesTwice(x: real, y: real, z: real)
    ensures Times(Times(x, y), z) == Times(x, y * z) && Times(x, y) == Times(y, x)
  {
  }

  /** Outside the points the cyclic value runs along the wrap arc at constant slope. */
  lemma ValueOnWrap(o: seq<Point>, minute: real)
    requires Cycle(o) && 0.0 <= minute <= DAY
    requires minute <= First(o).minute || minute >= Last(o).minute
    ensures CyclicValue(o, minute) == Last(o).percent
      + Times(WrapSlope(o),
        if minute <= First(o).minute then minute + DAY - Last(o).minute else minute - Last(o).minute)
  {
    assert First(o).minute < Last(o).minute;
    WrappedInDay(minute);
    WrapProgress(o, if minute <= First(o).minute then minute + DAY - Last(o).minute else minute - Last(o).minute);
    if minute == First(o).minute {
      ExactFromFinds(o, 0, 0);
    } else if minute == Last(o).minute {
      ExactFromFinds(o, |o| - 1, 0);
    } else {
      forall k | 0 <= k < |o| ensures o[k].minute != minute {
        assert k > 0 ==> First(o).minute < o[k].minute;
        assert k < |o| - 1 ==> o[k].minute < Last(o).minute;
      }
      ExactFromFails(o, minute, 0);
      BetweenFromFails(o, minute, 1);
    }
  }

  lemma FloorShift(x: real)
    ensures (x + 1.0).Floor == x.Floor + 1
  {
  }

  /** The reading is periodic; the separate treatment of minute 1440 does not show. */
  lemma CyclicValueIsPeriodic(o: seq<Point>, minute: real)
    requires Cycle(o)
    ensures CyclicValue(o, minute + DAY) == CyclicValue(o, minute)
  {
    FloorShift(minute / DAY);
    assert (minute + DAY) / DAY == minute / DAY + 1.0;
    if minute == 0.0 {
      ValueOnWrap(o, 0.0);
      ValueOnWrap(o, DAY);
    } else if minute == DAY {
      ValueOnWrap(o, 0.0);
      ValueOnWrap(o, DAY);
      assert (2.0 * DAY / DAY).Floor == 2;
      WrappedInDay(0.0);
    }
  }

  // ----- The opened cycle is a valid graph -----

  /** How many points stand before the draft's own first point. */
  function Lead(o: seq<Point>): nat requires |o| > 0 { if Starts(o) then 0 else 1 }

  lemma OpenedAt(o: seq<Point>, i: nat)
    requires Cycle(o) && i < |o|
    ensures Lead(o) + i < |Opened(o)|
    ensures Opened(o)[Lead(o) + i] == if Ends(o) && i == |o| - 1 then Point(LAST_MINUTE, EdgePercent(o)) else o[i]
  {
  }

  lemma OpenedEdges(o: seq<Point>)
    requires Cycle(o)
    ensures |Opened(o)| == Lead(o) + |o| + (if Ends(o) then 0 else 1)
    ensures Opened(o)[0] == Point(0.0, EdgePercent(o))
    ensures Opened(o)[|Opened(o)| - 1] == Point(LAST_MINUTE, EdgePercent(o))
  {
  }

  lemma MixOnSlope(from: real, change: real, total: real, elapsed: real, slope: real)
    requires total > 0.0 && Times(slope, total) == change
    ensures Mix(from, from + change, elapsed / total) == from + Times(slope, elapsed)
  {
    var p := elapsed / total;
    assert elapsed == p * total;
    TimesTwice(slope, total, p);
    assert Times(change, p) == p * (from + change - from);
  }

  /** The edge percentage lies on the wrap arc's line, or is a point's own. */
  lemma EdgeOnWrap(o: seq<Point>)
    requires Cycle(o)
    ensures !Ends(o) ==> EdgePercent(o) == Last(o).percent + Times(WrapSlope(o), DAY - Last(o).minute)
    ensures !Starts(o) && !Ends(o) ==> EdgePercent(o) == First(o).percent - Times(WrapSlope(o), First(o).minute)
    ensures Starts(o) ==> EdgePercent(o) == First(o).percent
    ensures !Starts(o) && Ends(o) ==> EdgePercent(o) == Last(o).percent
  {
    if !Ends(o) {
      ValueOnWrap(o, 0.0);
      TimesSum(WrapSlope(o), DAY - Last(o).minute, First(o).minute);
    }
  }

  lemma TimesSum(x: real, y: real, z: real)
    ensures Times(x, y + z) == Times(x, y) + Times(x, z)
  {
  }

  lemma EdgeIsPercent(o: seq<Point>)
    requires Cycle(o)
    ensures ValidPercent(EdgePercent(o))
  {
    if !Starts(o) && !Ends(o) {
      ValueOnWrap(o, 0.0);
      var elapsed, total := DAY - Last(o).minute, WrapDuration(o);
      ProgressBetween(0.0, total, elapsed);
      MixBetween(Last(o).percent, First(o).percent, elapsed / total);
      MixOnSlope(Last(o).percent, First(o).percent - Last(o).percent, total, elapsed, WrapSlope(o));
    }
  }

  lemma OpenedPoint(o: seq<Point>, i: nat)
    requires Cycle(o) && i < |Opened(o)|
    ensures ValidMinute(Opened(o)[i].minute) && ValidPercent(Opened(o)[i].percent)
    ensures i > 0 ==> Opened(o)[i - 1].minute < Opened(o)[i].minute
  {
    OpenedEdges(o);
    EdgeIsPercent(o);
    if i < Lead(o) {
    } else if i < Lead(o) + |o| {
      OpenedAt(o, i - Lead(o));
      if i > Lead(o) { OpenedAt(o, i - 1 - Lead(o)); }
    } else {
      OpenedAt(o, |o| - 1);
    }
  }

  lemma JoinedIsPeriodic(c: seq<Point>)
    requires |c| >= 2
    requires forall i :: 0 <= i < |c| ==> ValidMinute(c[i].minute) && ValidPercent(c[i].percent)
    requires forall i :: 0 < i < |c| ==> c[i - 1].minute < c[i].minute
    requires c[0].minute == 0.0 && c[|c| - 1].minute == LAST_MINUTE && c[0].percent == c[|c| - 1].percent
    ensures Periodic(Joined(c))
  {
  }

  /** Every valid cycle opens into a graph that passes validation. */
  lemma OpenedIsPeriodic(o: seq<Point>)
    requires Cycle(o)
    ensures Periodic(Joined(Opened(o)))
  {
    OpenedEdges(o);
    forall i | 0 <= i < |Opened(o)|
      ensures ValidMinute(Opened(o)[i].minute) && ValidPercent(Opened(o)[i].percent)
      ensures i > 0 ==> Opened(o)[i - 1].minute < Opened(o)[i].minute
    {
      OpenedPoint(o, i);
    }
    JoinedIsPeriodic(Opened(o));
  }

  // ----- The graph's value against the cyclic value -----

  /** The canonical graph's value on a segment that covers the minute. */
  lemma ValueOnSegment(o: seq<Point>, i: nat, minute: real, percent: real)
    requires Cycle(o) && 0 < i < |Opened(o)|
    requires Opened(o)[i - 1].minute <= minute <= Opened(o)[i].minute
    requires HasValue(Joined(Opened(o)), minute, percent)
    ensures Opened(o)[i - 1].minute < Opened(o)[i].minute
    ensures percent == Interpolate(Segment(Opened(o)[i - 1], Opened(o)[i]), minute)
  {
    var g := Joined(Opened(o));
    OpenedIsPeriodic(o);
    assert g[i - 1] == Segment(Opened(o)[i - 1], Opened(o)[i]);
    assert HasValue(g, minute, Interpolate(g[i - 1], minute));
    CurveIsAFunction(g, minute, percent, Interpolate(g[i - 1], minute));
  }

  lemma TimesAbs(x: real, p: real)
    requires 0.0 <= p <= 1.0
    ensures Abs(Times(x, p)) <= Abs(x)
  {
    if x >= 0.0 {
      ProductNonnegative(x, p);
      ProductNonnegative(x, 1.0 - p);
    } else {
      ProductNonnegative(-x, p);
      ProductNonnegative(-x, 1.0 - p);
    }
  }

  lemma MixTargets(a: real, b: real, b': real, p: real)
    requires 0.0 <= p <= 1.0
    ensures Abs(Mix(a, b, p) - Mix(a, b', p)) <= Abs(b - b')
    ensures p == 1.0 ==> Mix(a, b, p) == b && Mix(a, b', p) == b'
  {
    TimesAbs(b - b', p);
    assert Mix(a, b, p) - Mix(a, b', p) == Times(b - b', p);
  }

  /** Where the graph's segment ends that starts at the point before `i`. */
  function InsideTarget(o: seq<Point>, i: nat): Point
    requires 0 < i < |o|
  {
    if Ends(o) && i == |o| - 1 then Point(LAST_MINUTE, EdgePercent(o)) else o[i]
  }

  lemma GraphInside(o: seq<Point>, i: nat, minute: real, percent: real)
    requires Cycle(o) && 0 < i < |o| && o[i - 1].minute <= minute <= o[i].minute
    requires HasValue(Joined(Opened(o)), minute, percent)
    ensures InsideTarget(o, i).minute == o[i].minute
    ensures percent == Interpolate(Segment(o[i - 1], InsideTarget(o, i)), minute)
  {
    OpenedAt(o, i - 1);
    OpenedAt(o, i);
    ValueOnSegment(o, Lead(o) + i, minute, percent);
  }

  lemma InterpolationTargets(a: Point, b: Point, b': Point, minute: real)
    requires a.minute < b.minute == b'.minute && a.minute <= minute <= b.minute
    ensures Abs(Interpolate(Segment(a, b), minute) - Interpolate(Segment(a, b'), minute)) <= Abs(b.percent - b'.percent)
    ensures minute == b.minute ==>
      Interpolate(Segment(a, b), minute) == b.percent && Interpolate(Segment(a, b'), minute) == b'.percent
  {
    ProgressBetween(a.minute, b.minute, minute);
    MixTargets(a.percent, b.percent, b'.percent, (minute - a.minute) / (b.minute - a.minute));
  }

  /** From the first point to the last, the graph follows the draft; only a clash bends the last segment. */
  lemma TracksInside(o: seq<Point>, i: nat, minute: real, percent: real)
    requires Cycle(o) && 0 < i < |o| && o[i - 1].minute <= minute <= o[i].minute
    requires HasValue(Joined(Opened(o)), minute, percent)
    ensures !(Clash(o) && i == |o| - 1) ==> percent == CyclicValue(o, minute)
    ensures Clash(o) && i == |o| - 1
      ==> Abs(percent - CyclicValue(o, minute)) <= Abs(First(o).percent - Last(o).percent)
    ensures Clash(o) && minute == LAST_MINUTE
      ==> percent == First(o).percent && CyclicValue(o, minute) == Last(o).percent
  {
    assert i < |o| - 1 ==> o[i].minute < Last(o).minute;
    GraphInside(o, i, minute, percent);
    ValueBetween(o, i, minute);
    InterpolationTargets(o[i - 1], InsideTarget(o, i), o[i], minute);
  }

  lemma ClimbToEdge(slope: real, room: real, elapsed: real)
    requires room > 0.0
    ensures Times(Times(slope, room + 1.0), elapsed / room) == Times(slope, elapsed) + Times(slope, elapsed / room)
  {
    var r := elapsed / room;
    assert elapsed == r * room;
    TimesTwice(slope, room + 1.0, r);
    TimesSum(slope, elapsed, r);
  }

  lemma FirstIsEarlier(o: seq<Point>)
    requires Cycle(o)
    ensures First(o).minute < Last(o).minute
  {
  }

  lemma GraphAfter(o: seq<Point>, minute: real, percent: real)
    requires Cycle(o) && Last(o).minute <= minute <= LAST_MINUTE && !Ends(o)
    requires HasValue(Joined(Opened(o)), minute, percent)
    ensures percent == Mix(Last(o).percent, EdgePercent(o), (minute - Last(o).minute) / (LAST_MINUTE - Last(o).minute))
  {
    OpenedAt(o, |o| - 1);
    OpenedEdges(o);
    ValueOnSegment(o, Lead(o) + |o|, minute, percent);
  }

  lemma GraphBefore(o: seq<Point>, minute: real, percent: real)
    requires Cycle(o) && 0.0 <= minute <= First(o).minute && !Starts(o)
    requires HasValue(Joined(Opened(o)), minute, percent)
    ensures percent == Mix(EdgePercent(o), First(o).percent, minute / First(o).minute)
  {
    OpenedAt(o, 0);
    OpenedEdges(o);
    ValueOnSegment(o, 1, minute, percent);
  }

  lemma MixIsTimes(a: real, b: real, p: real)
    ensures Mix(a, b, p) == a + Times(b - a, p) == b - Times(b - a, 1.0 - p)
  {
  }

  /** After the last point the graph climbs to the edge value one minute early. */
  lemma TracksAfter(o: seq<Point>, minute: real, percent: real)
    requires Cycle(o) && Last(o).minute <= minute <= LAST_MINUTE && !Ends(o)
    requires HasValue(Joined(Opened(o)), minute, percent)
    ensures percent - CyclicValue(o, minute)
      == Times(WrapSlope(o), (minute - Last(o).minute) / (LAST_MINUTE - Last(o).minute))
  {
    var elapsed, room := minute - Last(o).minute, LAST_MINUTE - Last(o).minute;
    GraphAfter(o, minute, percent);
    MixIsTimes(Last(o).percent, EdgePercent(o), elapsed / room);
    EdgeOnWrap(o);
    ClimbToEdge(WrapSlope(o), room, elapsed);
    FirstIsEarlier(o);
    ValueOnWrap(o, minute);
  }

  lemma FallToEdge(slope: real, first: real, minute: real)
    requires first > 0.0
    ensures Times(Times(slope, first), 1.0 - minute / first) == Times(slope, first - minute)
    ensures Times(Times(slope, first + 1.0), 1.0 - minute / first)
      == Times(slope, first - minute) + Times(slope, 1.0 - minute / first)
  {
    var r := minute / first;
    assert minute == r * first;
    TimesTwice(slope, first, 1.0 - r);
    TimesTwice(slope, first + 1.0, 1.0 - r);
    TimesSum(slope, first - minute, 1.0 - r);
  }

  lemma CyclicBefore(o: seq<Point>, minute: real)
    requires Cycle(o) && 0.0 <= minute <= First(o).minute
    ensures CyclicValue(o, minute) == First(o).percent - Times(WrapSlope(o), First(o).minute - minute)
  {
    FirstIsEarlier(o);
    ValueOnWrap(o, minute);
    TimesSum(WrapSlope(o), minute + DAY - Last(o).minute, First(o).minute - minute);
  }

  lemma FallFromFirst(o: seq<Point>)
    requires Cycle(o) && !Starts(o)
    ensures First(o).percent - EdgePercent(o)
      == Times(WrapSlope(o), if Ends(o) then First(o).minute + 1.0 else First(o).minute)
  {
    EdgeOnWrap(o);
    assert Ends(o) ==> WrapDuration(o) == First(o).minute + 1.0;
  }

  /** Before the first point the graph is the cyclic line itself, unless the last minute holds a point. */
  lemma TracksBefore(o: seq<Point>, minute: real, percent: real)
    requires Cycle(o) && 0.0 <= minute <= First(o).minute && !Starts(o)
    requires HasValue(Joined(Opened(o)), minute, percent)
    ensures percent - CyclicValue(o, minute)
      == if Ends(o) then -Times(WrapSlope(o), 1.0 - minute / First(o).minute) else 0.0
  {
    var first := First(o).minute;
    GraphBefore(o, minute, percent);
    MixIsTimes(EdgePercent(o), First(o).percent, minute / first);
    FallFromFirst(o);
    FallToEdge(WrapSlope(o), first, minute);
    CyclicBefore(o, minute);
  }

  // ----- Main results -----

  lemma {:induction false} SomePairCovers(o: seq<Point>, minute: real, j: nat) returns (i: nat)
    requires Cycle(o) && 0 < j < |o| && First(o).minute <= minute <= o[j].minute
    ensures 0 < i <= j && o[i - 1].minute <= minute <= o[i].minute
    decreases j
  {
    if o[j - 1].minute <= minute {
      i := j;
    } else {
      i := SomePairCovers(o, minute, j - 1);
    }
  }

  lemma OpenedTracksInside(o: seq<Point>, minute: real, percent: real)
    requires Cycle(o) && First(o).minute <= minute <= Last(o).minute
    requires HasValue(Joined(Opened(o)), minute, percent)
    ensures !Clash(o) ==> percent == CyclicValue(o, minute)
    ensures Abs(percent - CyclicValue(o, minute)) <= Abs(WrapSlope(o))
  {
    var i := SomePairCovers(o, minute, |o| - 1);
    TracksInside(o, i, minute, percent);
    if Clash(o) { ClashSlope(o); }
  }

  lemma ClashSlope(o: seq<Point>)
    requires Cycle(o) && Clash(o)
    ensures WrapSlope(o) == First(o).percent - Last(o).percent
  {
    assert WrapDuration(o) == 1.0;
  }

  /** The graph differs from the cyclic reading by at most one minute's slope of the wrap arc, and not at
      all between the first and the last point unless both edges carry different percentages. */
  lemma OpenedTracks(o: seq<Point>, minute: real, percent: real)
    requires Cycle(o) && 0.0 <= minute <= LAST_MINUTE
    requires HasValue(Joined(Opened(o)), minute, percent)
    ensures Abs(percent - CyclicValue(o, minute)) <= Abs(WrapSlope(o))
    ensures First(o).minute <= minute <= Last(o).minute && !Clash(o) ==> percent == CyclicValue(o, minute)
  {
    if minute < First(o).minute {
      TracksBefore(o, minute, percent);
      ProgressBetween(0.0, First(o).minute, minute);
      TimesAbs(WrapSlope(o), 1.0 - minute / First(o).minute);
    } else if minute > Last(o).minute {
      TracksAfter(o, minute, percent);
      ProgressBetween(Last(o).minute, LAST_MINUTE, minute);
      TimesAbs(WrapSlope(o), (minute - Last(o).minute) / (LAST_MINUTE - Last(o).minute));
    } else {
      OpenedTracksInside(o, minute, percent);
    }
  }

  /** The graph repeats the cyclic reading at every minute from `low` to `high`. */
  ghost predicate ExactOver(o: seq<Point>, low: real, high: real)
    requires |o| > 0
  {
    forall m, p :: low <= m <= high && HasValue(Joined(Opened(o)), m, p) ==> p == CyclicValue(o, m)
  }

  lemma EdgesHaveValue(o: seq<Point>)
    requires Cycle(o)
    ensures HasValue(Joined(Opened(o)), 0.0, EdgePercent(o))
    ensures HasValue(Joined(Opened(o)), LAST_MINUTE, EdgePercent(o))
  {
    var g := Joined(Opened(o));
    OpenedEdges(o);
    OpenedIsPeriodic(o);
    InterpolateBetween(g[0], 0.0);
    InterpolateBetween(g[|g| - 1], LAST_MINUTE);
  }

  /** Exactly when the canonical graph repeats the draft on all minutes from its first to its last point. */
  lemma ExactBetweenPointsIff(o: seq<Point>)
    requires Cycle(o)
    ensures ExactOver(o, First(o).minute, Last(o).minute) <==> !Clash(o)
  {
    if Clash(o) {
      EdgesHaveValue(o);
      TracksInside(o, |o| - 1, LAST_MINUTE, EdgePercent(o));
    } else {
      forall m, p | First(o).minute <= m <= Last(o).minute && HasValue(Joined(Opened(o)), m, p)
        ensures p == CyclicValue(o, m)
      {
        OpenedTracksInside(o, m, p);
      }
    }
  }

  lemma SlopeZeroIff(o: seq<Point>)
    requires Cycle(o)
    ensures WrapSlope(o) == 0.0 <==> First(o).percent == Last(o).percent
  {
  }

  lemma ZeroOverAndOne(x: real)
    requires x > 0.0
    ensures 0.0 / x == 0.0 && x / x == 1.0
  {
  }

  lemma WholeSlope(slope: real)
    ensures Times(slope, 1.0) == slope
  {
  }

  lemma GapAtStart(o: seq<Point>)
    requires Cycle(o) && Ends(o) && !Starts(o)
    ensures EdgePercent(o) - CyclicValue(o, 0.0) == -WrapSlope(o)
  {
    EdgesHaveValue(o);
    TracksBefore(o, 0.0, EdgePercent(o));
    ZeroOverAndOne(First(o).minute);
    WholeSlope(WrapSlope(o));
  }

  lemma GapAtEnd(o: seq<Point>)
    requires Cycle(o) && !Ends(o)
    ensures EdgePercent(o) - CyclicValue(o, LAST_MINUTE) == WrapSlope(o)
  {
    var room := LAST_MINUTE - Last(o).minute;
    EdgesHaveValue(o);
    TracksAfter(o, LAST_MINUTE, EdgePercent(o));
    ZeroOverAndOne(room);
    WholeSlope(WrapSlope(o));
  }

  /** When first and last percentage differ, one end of the day is off. */
  lemma UnequalEndsShow(o: seq<Point>) returns (minute: real)
    requires Cycle(o) && First(o).percent != Last(o).percent
    ensures minute == 0.0 || minute == LAST_MINUTE
    ensures HasValue(Joined(Opened(o)), minute, EdgePercent(o)) && EdgePercent(o) != CyclicValue(o, minute)
  {
    EdgesHaveValue(o);
    SlopeZeroIff(o);
    if Clash(o) {
      minute := LAST_MINUTE;
      TracksInside(o, |o| - 1, LAST_MINUTE, EdgePercent(o));
    } else if Ends(o) {
      minute := 0.0;
      GapAtStart(o);
    } else {
      minute := LAST_MINUTE;
      GapAtEnd(o);
    }
  }

  /** Exactly when it does so on every minute of the day. */
  lemma ExactAllDayIff(o: seq<Point>)
    requires Cycle(o)
    ensures ExactOver(o, 0.0, LAST_MINUTE) <==> First(o).percent == Last(o).percent
  {
    SlopeZeroIff(o);
    if First(o).percent == Last(o).percent {
      forall m, p | 0.0 <= m <= LAST_MINUTE && HasValue(Joined(Opened(o)), m, p) ensures p == CyclicValue(o, m) {
        OpenedTracks(o, m, p);
      }
    } else {
      var minute := UnequalEndsShow(o);
      assert HasValue(Joined(Opened(o)), minute, EdgePercent(o));
    }
  }

  function CanonicalGraph(d: Draft): Graph
    requires Canonicalises(d)
  {
    Joined(Curve(CanonicalPoints(d).value))
  }

  function Reading(d: Draft, minute: real): real { CyclicValue(Curve(Normalize(d.points)), minute) }

  /** Every valid draft whose edges can be closed canonicalises to a graph that validates. */
  lemma CanonicalGraphIsPeriodic(d: Draft)
    requires ValidPoints(d.points) && Canonicalises(d)
    ensures Periodic(CanonicalGraph(d))
  {
    ValidDraftIsCycle(d.points);
    CanonicalTracesOpened(d);
    OpenedIsPeriodic(Curve(Normalize(d.points)));
  }

  /** What the draft shows and what its canonical graph evaluates to. */
  lemma CanonicalTracksDraft(d: Draft, minute: real, percent: real)
    requires ValidPoints(d.points) && Canonicalises(d) && 0.0 <= minute <= LAST_MINUTE
    requires HasValue(CanonicalGraph(d), minute, percent)
    ensures var o := Curve(Normalize(d.points));
            && Cycle(o)
            && Abs(percent - Reading(d, minute)) <= Abs(WrapSlope(o))
            && (First(o).minute <= minute <= Last(o).minute && !Clash(o) ==> percent == Reading(d, minute))
  {
    ValidDraftIsCycle(d.points);
    CanonicalTracesOpened(d);
    OpenedTracks(Curve(Normalize(d.points)), minute, percent);
  }
}
