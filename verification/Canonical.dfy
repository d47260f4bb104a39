/** The cyclic value of a draft, and the canonical points with wrap boundaries sent to the controller. */
module Canonical {
  import opened Options
  import opened Schedule
  import opened DraftPoints

  const DAY := 1440.0

  datatype Draft = Draft(
    channelId: string,
    scheduleId: string,
    graphRevision: nat,
    baseline: seq<DraftPoint>,
    points: seq<DraftPoint>,
    hidden: seq<DraftPoint>,
    pinned: Option<nat>,
    conflict: Option<nat>)

  function Curve(points: seq<DraftPoint>): (o: seq<Point>)
    ensures |o| == |points|
    ensures forall i :: 0 <= i < |points| ==> o[i] == Point(points[i].minute, points[i].percent)
  {
    seq(|points|, i requires 0 <= i < |points| => Point(points[i].minute, points[i].percent))
  }

  // ----- The cyclic value -----

  /** The minute of the day, with 1440 kept as the end of the day. */
  function Wrapped(minute: real): real {
    if minute == DAY then DAY else minute - DAY * (minute / DAY).Floor as real
  }

  /** `interpolate`. */
  function Between(left: real, leftPercent: real, right: real, rightPercent: real, minute: real): real {
    if right == left then leftPercent else Mix(leftPercent, rightPercent, (minute - left) / (right - left))
  }

  function ExactFrom(o: seq<Point>, minute: real, i: nat): Option<real>
    decreases |o| - i
  {
    if i >= |o| then None
    else if o[i].minute == minute then Some(o[i].percent)
    else ExactFrom(o, minute, i + 1)
  }

  function BetweenFrom(o: seq<Point>, minute: real, i: nat): Option<real>
    requires i > 0
    decreases |o| - i
  {
    if i >= |o| then None
    else if o[i - 1].minute < minute < o[i].minute then
      Some(Between(o[i - 1].minute, o[i - 1].percent, o[i].minute, o[i].percent, minute))
    else BetweenFrom(o, minute, i + 1)
  }

  /** The value on the arc from the last point through midnight to the first. */
  function WrapValue(first: Point, last: Point, minute: real): real {
    Between(last.minute, last.percent, first.minute + DAY, first.percent,
            if minute < first.minute then minute + DAY else minute)
  }

  function CyclicValue(o: seq<Point>, minute: real): real {
    if |o| == 0 then 0.0
    else if |o| == 1 then o[0].percent
    else
      var m := Wrapped(minute);
      if m < DAY && ExactFrom(o, m, 0).Some? then ExactFrom(o, m, 0).value
      else if m < DAY && BetweenFrom(o, m, 1).Some? then BetweenFrom(o, m, 1).value
      else WrapValue(o[0], o[|o| - 1], m)
  }

  /** `scheduleValueAt`. */
  method ScheduleValueAt(points: seq<DraftPoint>, minute: real) returns (value: real)
    ensures value == CyclicValue(Curve(Normalize(points)), minute)
  {
    var ordered := Normalize(points);
    var o := Curve(ordered);
    if |ordered| == 0 { return 0.0; }
    if |ordered| == 1 { return ordered[0].percent; }
    var m := Wrapped(minute);
    if m < DAY {
      var i := 0;
      while i < |ordered|
        invariant 0 <= i <= |ordered|
        invariant ExactFrom(o, m, 0) == ExactFrom(o, m, i)
      {
        if ordered[i].minute == m { return ordered[i].percent; }
        i := i + 1;
      }
      i := 1;
      while i < |ordered|
        invariant 1 <= i <= |ordered|
        invariant BetweenFrom(o, m, 1) == BetweenFrom(o, m, i)
      {
        var left, right := ordered[i - 1], ordered[i];
        if left.minute < m < right.minute {
          return Between(left.minute, left.percent, right.minute, right.percent, m);
        }
        i := i + 1;
      }
    }
    return WrapValue(o[0], o[|ordered| - 1], m);
  }

  // ----- Validity -----

  predicate ValidPoints(points: seq<DraftPoint>) {
    && |points| >= 2
    && Distinct(points)
    && (forall i, j :: 0 <= i < j < |points| ==> points[i].id != points[j].id)
    && (forall i :: 0 <= i < |points| ==> ValidMinute(points[i].minute) && ValidPercent(points[i].percent))
  }

  datatype DraftIssue = TooFewPoints | DuplicateIdentifier(id: string) | SameTime | InvalidTime | InvalidPercentage

  /** No complaint about the point at `k`, given those before it. */
  predicate Unobjectionable(points: seq<DraftPoint>, k: nat)
    requires k < |points|
  {
    && ValidMinute(points[k].minute) && ValidPercent(points[k].percent)
    && forall j :: 0 <= j < k ==> points[j].minute != points[k].minute && points[j].id != points[k].id
  }

  lemma ValidIffUnobjectionable(points: seq<DraftPoint>)
    ensures ValidPoints(points) <==> |points| >= 2 && forall k :: 0 <= k < |points| ==> Unobjectionable(points, k)
  {
    if |points| >= 2 && forall k :: 0 <= k < |points| ==> Unobjectionable(points, k) {
      forall i, j | 0 <= i < j < |points| ensures points[i].minute != points[j].minute && points[i].id != points[j].id {
        assert Unobjectionable(points, j);
      }
      forall i | 0 <= i < |points| ensures ValidMinute(points[i].minute) && ValidPercent(points[i].percent) {
        assert Unobjectionable(points, i);
      }
    }
  }

  /** `validateCombinedScheduleDraft`. */
  method ValidateDraft(points: seq<DraftPoint>) returns (issues: seq<DraftIssue>)
    ensures issues == [] <==> ValidPoints(points)
  {
    issues := if |points| < 2 then [TooFewPoints] else [];
    var identifiers: set<string>, minutes: set<real> := {}, {};
    for i := 0 to |points|
      invariant identifiers == set k | 0 <= k < i :: points[k].id
      invariant minutes == set k | 0 <= k < i :: points[k].minute
      invariant issues == [] <==> |points| >= 2 && forall k :: 0 <= k < i ==> Unobjectionable(points, k)
    {
      var p := points[i];
      assert Unobjectionable(points, i) <==>
        ValidMinute(p.minute) && ValidPercent(p.percent) && p.id !in identifiers && p.minute !in minutes;
      if p.id in identifiers { issues := issues + [DuplicateIdentifier(p.id)]; }
      if p.minute in minutes { issues := issues + [SameTime]; }
      if !IsInteger(p.minute) || p.minute < 0.0 || p.minute > LAST_MINUTE { issues := issues + [InvalidTime]; }
      if p.percent < 0.0 || p.percent > 100.0 { issues := issues + [InvalidPercentage]; }
      identifiers := identifiers + {p.id};
      minutes := minutes + {p.minute};
    }
    ValidIffUnobjectionable(points);
  }

  // ----- Canonical points -----

  function AtMinute(points: seq<DraftPoint>, minute: real): Option<DraftPoint> {
    if points == [] then None
    else if points[0].minute == minute then Some(points[0])
    else AtMinute(points[1..], minute)
  }

  predicate HasPointAt(points: seq<DraftPoint>, minute: real) {
    exists i :: 0 <= i < |points| && points[i].minute == minute
  }

  lemma {:induction false} AtMinuteIff(points: seq<DraftPoint>, minute: real)
    ensures AtMinute(points, minute).Some? <==> HasPointAt(points, minute)
  {
    if points != [] && points[0].minute != minute {
      AtMinuteIff(points[1..], minute);
      if HasPointAt(points, minute) {
        var i :| 0 <= i < |points| && points[i].minute == minute;
        assert points[1..][i - 1].minute == minute;
      }
    }
  }

  lemma {:induction false} AtMinuteIsMember(points: seq<DraftPoint>, minute: real)
    ensures AtMinute(points, minute).Some? ==> AtMinute(points, minute).value in points
  {
    if points != [] { AtMinuteIsMember(points[1..], minute); }
  }

  lemma NormalizeHasPoint(points: seq<DraftPoint>, minute: real)
    ensures HasPointAt(Normalize(points), minute) <==> HasPointAt(points, minute)
  {
    var sorted := Sort(points);
    SortSorts(points);
    if HasPointAt(points, minute) {
      var i :| 0 <= i < |points| && points[i].minute == minute;
      assert points[i] in multiset(sorted);
      var j :| 0 <= j < |sorted| && sorted[j] == points[i];
      assert Normalize(points)[j].minute == minute;
    }
    if HasPointAt(Normalize(points), minute) {
      var j :| 0 <= j < |sorted| && Normalize(points)[j].minute == minute;
      assert sorted[j] in multiset(points);
    }
  }

  function WrapPrefix(scheduleId: string): string { "wrap-boundary-" + scheduleId + "-" }

  predicate IsHidden(scheduleId: string, p: DraftPoint) { WrapPrefix(scheduleId) <= p.id }

  /** `boundaryPoint`; `None` where no identifier of at most 128 characters can be made. */
  function BoundaryPoint(d: Draft, minute: real, percent: real, edge: string): Option<DraftPoint> {
    var existing := AtMinute(d.hidden, minute);
    var id := if existing.Some? then existing.value.id else WrapPrefix(d.scheduleId) + edge;
    if existing.None? && |id| > 128 then None
    else Some(DraftPoint(id, 0, minute, percent, None, None))
  }

  function BoundaryPercent(logical: seq<DraftPoint>): real {
    var start, end := AtMinute(logical, 0.0), AtMinute(logical, LAST_MINUTE);
    if start.Some? then start.value.percent
    else if end.Some? then end.value.percent
    else CyclicValue(Curve(Normalize(logical)), 0.0)
  }

  predicate AtEdge(minute: real) { minute == 0.0 || minute == LAST_MINUTE }

  /** The logical points with both edges at the boundary percentage. */
  function Levelled(logical: seq<DraftPoint>, percent: real): (r: seq<DraftPoint>)
    ensures |r| == |logical|
    ensures forall i :: 0 <= i < |r| ==>
      r[i] == if AtEdge(logical[i].minute) then logical[i].(percent := percent) else logical[i]
  {
    seq(|logical|, i requires 0 <= i < |logical| =>
      if AtEdge(logical[i].minute) then logical[i].(percent := percent) else logical[i])
  }

  /** The points added for a boundary the draft lacks. */
  function Missing(d: Draft, logical: seq<DraftPoint>, minute: real, edge: string): Option<seq<DraftPoint>> {
    if AtMinute(logical, minute).Some? then Some([])
    else
      match BoundaryPoint(d, minute, BoundaryPercent(logical), edge)
      case Some(p) => Some([p])
      case None => None
  }

  /** Each edge has a point, or a hidden one whose identifier can be reused, or leaves room for a new identifier
      within 128 characters. */
  predicate Canonicalises(d: Draft) {
    && (HasPointAt(d.points, 0.0) || HasPointAt(d.hidden, 0.0) || |d.scheduleId| <= 108)
    && (HasPointAt(d.points, LAST_MINUTE) || HasPointAt(d.hidden, LAST_MINUTE) || |d.scheduleId| <= 110)
  }

  lemma MissingIff(d: Draft, minute: real, edge: string)
    ensures Missing(d, Normalize(d.points), minute, edge).Some?
      <==> HasPointAt(d.points, minute) || HasPointAt(d.hidden, minute) || |d.scheduleId| + |edge| <= 113
  {
    NormalizeHasPoint(d.points, minute);
    AtMinuteIff(Normalize(d.points), minute);
    AtMinuteIff(d.hidden, minute);
  }

  /** `canonicalSchedulePoints` as a function; it succeeds exactly when both edges can be closed. */
  function CanonicalPoints(d: Draft): (points: Option<seq<DraftPoint>>)
    ensures points.Some? <==> Canonicalises(d)
  {
    MissingIff(d, 0.0, "start");
    MissingIff(d, LAST_MINUTE, "end");
    var logical := Normalize(d.points);
    var start, end := Missing(d, logical, 0.0, "start"), Missing(d, logical, LAST_MINUTE, "end");
    if start.None? || end.None? then None
    else Some(Normalize(Levelled(logical, BoundaryPercent(logical)) + start.value + end.value))
  }

  /** `canonicalSchedulePoints`; `None` where the source throws. */
  method CanonicalSchedulePoints(d: Draft) returns (points: Option<seq<DraftPoint>>)
    ensures points == CanonicalPoints(d)
  {
    var logical := Normalize(d.points);
    var start, end := AtMinute(logical, 0.0), AtMinute(logical, LAST_MINUTE);
    var percent: real;
    if start.Some? {
      percent := start.value.percent;
    } else if end.Some? {
      percent := end.value.percent;
    } else {
      percent := ScheduleValueAt(logical, 0.0);
    }
    var canonical := Levelled(logical, percent);
    if start.None? {
      var p := BoundaryPoint(d, 0.0, percent, "start");
      if p.None? { return None; }
      canonical := canonical + [p.value];
    } else {
      assert canonical + [] == canonical;
    }
    if end.None? {
      var p := BoundaryPoint(d, LAST_MINUTE, percent, "end");
      if p.None? { return None; }
      canonical := canonical + [p.value];
    } else {
      assert canonical + [] == canonical;
    }
    return Some(Normalize(canonical));
  }

  // ----- What the canonical points are -----

  /** Points of a cycle: at least two, in strictly increasing whole minutes. */
  predicate Cycle(o: seq<Point>) {
    && |o| >= 2
    && (forall i, j :: 0 <= i < j < |o| ==> o[i].minute < o[j].minute)
    && (forall i :: 0 <= i < |o| ==> ValidMinute(o[i].minute) && ValidPercent(o[i].percent))
  }

  predicate Starts(o: seq<Point>) requires |o| > 0 { o[0].minute == 0.0 }
  predicate Ends(o: seq<Point>) requires |o| > 0 { o[|o| - 1].minute == LAST_MINUTE }

  /** Both edges carry a point, and the two disagree. */
  predicate Clash(o: seq<Point>) requires |o| > 0 { Starts(o) && Ends(o) && o[0].percent != o[|o| - 1].percent }

  function EdgePercent(o: seq<Point>): real
    requires |o| > 0
  {
    if Starts(o) then o[0].percent else if Ends(o) then o[|o| - 1].percent else CyclicValue(o, 0.0)
  }

  /** The cycle cut open at midnight, both ends at the edge percentage. */
  function Opened(o: seq<Point>): seq<Point>
    requires |o| > 0
  {
    (if Starts(o) then [] else [Point(0.0, EdgePercent(o))])
    + (if Ends(o) then o[..|o| - 1] + [Point(LAST_MINUTE, EdgePercent(o))]
       else o + [Point(LAST_MINUTE, EdgePercent(o))])
  }

  lemma ValidDraftIsCycle(points: seq<DraftPoint>)
    requires ValidPoints(points)
    ensures Cycle(Curve(Normalize(points))) && Normal(Normalize(points))
    ensures forall q :: q in Normalize(points) ==> exists p :: p in points && q == p.(position := q.position)
  {
    SortSorts(points);
    SortDistinct(points);
    var sorted := Sort(points);
    forall i | 0 <= i < |sorted| ensures sorted[i] in points {
      assert sorted[i] in multiset(points);
    }
  }

  lemma {:induction false} AtMinuteFinds(points: seq<DraftPoint>, minute: real, i: nat)
    requires i < |points| && points[i].minute == minute && Distinct(points)
    ensures AtMinute(points, minute) == Some(points[i])
  {
    if i > 0 {
      assert points[0].minute != points[i].minute;
      AtMinuteFinds(points[1..], minute, i - 1);
    }
  }

  lemma {:induction false} AtMinuteFails(points: seq<DraftPoint>, minute: real)
    requires forall i :: 0 <= i < |points| ==> points[i].minute != minute
    ensures AtMinute(points, minute) == None
  {
    if points != [] { AtMinuteFails(points[1..], minute); }
  }

  lemma EdgesFound(points: seq<DraftPoint>)
    requires Cycle(Curve(points)) && Normal(points)
    ensures AtMinute(points, 0.0).Some? <==> Starts(Curve(points))
    ensures AtMinute(points, LAST_MINUTE).Some? <==> Ends(Curve(points))
    ensures BoundaryPercent(points) == EdgePercent(Curve(points))
  {
    var o, n := Curve(points), |points|;
    assert forall i :: 0 <= i < n ==> points[i].minute == o[i].minute;
    if Starts(o) { AtMinuteFinds(points, 0.0, 0); } else { AtMinuteFails(points, 0.0); }
    if Ends(o) { AtMinuteFinds(points, LAST_MINUTE, n - 1); } else { AtMinuteFails(points, LAST_MINUTE); }
    NormalIsFixed(points);
  }

  lemma LevelledSorted(logical: seq<DraftPoint>, percent: real)
    requires Sorted(logical)
    ensures Sorted(Levelled(logical, percent))
  {
    var level := Levelled(logical, percent);
    forall i, j | 0 <= i < j < |level| ensures InOrder(level[i], level[j]) {
      assert InOrder(logical[i], logical[j]);
    }
  }

  predicate Above(points: seq<DraftPoint>, minute: real) {
    forall i :: 0 <= i < |points| ==> minute < points[i].minute
  }

  predicate Below(points: seq<DraftPoint>, minute: real) {
    forall i :: 0 <= i < |points| ==> points[i].minute < minute
  }

  lemma AppendSorts(level: seq<DraftPoint>, end: seq<DraftPoint>)
    requires Sorted(level) && |end| <= 1 && (end == [] || Below(level, end[0].minute))
    ensures Sorted(level + end)
  {
  }

  lemma PrependSorts(level: seq<DraftPoint>, start: seq<DraftPoint>, end: seq<DraftPoint>)
    requires Sorted(level + end) && |start| <= 1 && (start == [] || Above(level + end, start[0].minute))
    ensures Sort(level + start + end) == start + (level + end)
  {
    if start == [] {
      assert level + start + end == level + end;
      SortedIsKept(level + end);
    } else {
      assert start == [start[0]];
      SortMovesFirst(level, start[0], end);
    }
  }

  lemma CurveOfLevelled(logical: seq<DraftPoint>, percent: real)
    requires Cycle(Curve(logical))
    requires (Starts(Curve(logical)) ==> percent == Curve(logical)[0].percent)
    ensures var o := Curve(logical);
            Curve(Levelled(logical, percent)) == if Ends(o) then o[..|o| - 1] + [Point(LAST_MINUTE, percent)] else o
  {
    var o, n := Curve(logical), |logical|;
    forall i | 0 <= i < n
      ensures Curve(Levelled(logical, percent))[i]
        == if Ends(o) && i == n - 1 then Point(LAST_MINUTE, percent) else o[i]
    {
      assert i > 0 ==> o[0].minute < o[i].minute;
      assert i < n - 1 ==> o[i].minute < o[n - 1].minute;
    }
  }

  lemma CurveOfSum(s: seq<DraftPoint>, t: seq<DraftPoint>)
    ensures Curve(s + t) == Curve(s) + Curve(t)
  {
  }

  lemma BoundaryStrictlyOutside(logical: seq<DraftPoint>, percent: real)
    requires Cycle(Curve(logical))
    ensures !Starts(Curve(logical)) ==> Above(Levelled(logical, percent), 0.0)
    ensures !Ends(Curve(logical)) ==> Below(Levelled(logical, percent), LAST_MINUTE)
  {
    var o, n := Curve(logical), |logical|;
    forall i | 0 <= i < n
      ensures !Starts(o) ==> 0.0 < logical[i].minute
      ensures !Ends(o) ==> logical[i].minute < LAST_MINUTE
    {
      assert logical[i].minute == o[i].minute;
      assert i > 0 ==> o[0].minute < o[i].minute;
      assert i < n - 1 ==> o[i].minute < o[n - 1].minute;
    }
  }

  /** A valid draft whose identifier the contracts allow, and which cannot be canonicalised. */
  lemma LongIdentifierFails(d: Draft)
    requires |d.scheduleId| == 109 && d.hidden == []
    requires d.points == [DraftPoint("a", 0, 60.0, 0.0, None, None), DraftPoint("b", 1, 120.0, 50.0, None, None)]
    ensures ValidPoints(d.points) && CanonicalPoints(d) == None
  {
    assert !HasPointAt(d.points, 0.0);
  }

  /** The points supplied for one edge: none where the cycle has its own. */
  predicate Supplies(points: seq<DraftPoint>, present: bool, minute: real, percent: real) {
    if present then points == [] else |points| == 1 && points[0].minute == minute && points[0].percent == percent
  }

  lemma ClosingSorts(logical: seq<DraftPoint>, percent: real, start: seq<DraftPoint>, end: seq<DraftPoint>)
    requires Cycle(Curve(logical)) && Sorted(logical)
    requires Supplies(start, Starts(Curve(logical)), 0.0, percent)
    requires Supplies(end, Ends(Curve(logical)), LAST_MINUTE, percent)
    ensures Sort(Levelled(logical, percent) + start + end) == start + (Levelled(logical, percent) + end)
  {
    var level := Levelled(logical, percent);
    LevelledSorted(logical, percent);
    BoundaryStrictlyOutside(logical, percent);
    AppendSorts(level, end);
    PrependSorts(level, start, end);
  }

  lemma ClosingTraces(logical: seq<DraftPoint>, start: seq<DraftPoint>, end: seq<DraftPoint>)
    requires Cycle(Curve(logical))
    requires Supplies(start, Starts(Curve(logical)), 0.0, EdgePercent(Curve(logical)))
    requires Supplies(end, Ends(Curve(logical)), LAST_MINUTE, EdgePercent(Curve(logical)))
    ensures Curve(start + (Levelled(logical, EdgePercent(Curve(logical))) + end)) == Opened(Curve(logical))
  {
    var o := Curve(logical);
    var level := Levelled(logical, EdgePercent(o));
    CurveOfLevelled(logical, EdgePercent(o));
    CurveOfSum(level, end);
    CurveOfSum(start, level + end);
    assert Curve(start) == if Starts(o) then [] else [Point(0.0, EdgePercent(o))];
    assert Curve(end) == if Ends(o) then [] else [Point(LAST_MINUTE, EdgePercent(o))];
    if Ends(o) { assert Curve(level) + [] == Curve(level); }
  }

  lemma MissingSupplies(d: Draft, logical: seq<DraftPoint>)
    requires Cycle(Curve(logical)) && Normal(logical)
    ensures var start := Missing(d, logical, 0.0, "start");
            start.Some? ==> Supplies(start.value, Starts(Curve(logical)), 0.0, EdgePercent(Curve(logical)))
    ensures var end := Missing(d, logical, LAST_MINUTE, "end");
            end.Some? ==> Supplies(end.value, Ends(Curve(logical)), LAST_MINUTE, EdgePercent(Curve(logical)))
  {
    EdgesFound(logical);
  }

  /** The canonical points trace the cycle opened at midnight. */
  lemma CanonicalTracesOpened(d: Draft)
    requires ValidPoints(d.points) && Canonicalises(d)
    ensures Curve(CanonicalPoints(d).value) == Opened(Curve(Normalize(d.points)))
    ensures var logical := Normalize(d.points);
            CanonicalPoints(d).value == Renumber(Missing(d, logical, 0.0, "start").value
              + (Levelled(logical, EdgePercent(Curve(logical))) + Missing(d, logical, LAST_MINUTE, "end").value))
  {
    var logical := Normalize(d.points);
    ValidDraftIsCycle(d.points);
    EdgesFound(logical);
    MissingSupplies(d, logical);
    assert CanonicalPoints(d).Some?;
    var start, end := Missing(d, logical, 0.0, "start").value, Missing(d, logical, LAST_MINUTE, "end").value;
    ClosingSorts(logical, EdgePercent(Curve(logical)), start, end);
    ClosingTraces(logical, start, end);
    CurveOfRenumbered(start + (Levelled(logical, EdgePercent(Curve(logical))) + end));
  }

  lemma CurveOfRenumbered(points: seq<DraftPoint>)
    ensures Curve(Renumber(points)) == Curve(points)
  {
  }
}
