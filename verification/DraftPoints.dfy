/** The points of a schedule draft: their normal order, their cyclic reading, and the canonical
    points, with hidden wrap boundaries, that are sent to the controller. */
module DraftPoints {
  import opened Options

  datatype DraftPoint = DraftPoint(
    id: string,
    position: nat,
    minute: real,
    percent: real,
    editorX: Option<real>,
    editorY: Option<real>)

  // ----- Normal order -----

  /** Lexicographic order of identifiers. */
  predicate AtMost(a: string, b: string) {
    a == [] || (b != [] && (a[0] < b[0] || (a[0] == b[0] && AtMost(a[1..], b[1..]))))
  }

  lemma {:induction false} AtMostTotal(a: string, b: string)
    ensures AtMost(a, b) || AtMost(b, a)
  {
    if a != [] && b != [] && a[0] == b[0] { AtMostTotal(a[1..], b[1..]); }
  }

  lemma {:induction false} AtMostTransitive(a: string, b: string, c: string)
    requires AtMost(a, b) && AtMost(b, c)
    ensures AtMost(a, c)
  {
    if a != [] && a[0] == b[0] == c[0] { AtMostTransitive(a[1..], b[1..], c[1..]); }
  }

  predicate InOrder(p: DraftPoint, q: DraftPoint) {
    p.minute < q.minute || (p.minute == q.minute && AtMost(p.id, q.id))
  }

  predicate Sorted(points: seq<DraftPoint>) {
    forall i, j :: 0 <= i < j < |points| ==> InOrder(points[i], points[j])
  }

  function Insert(p: DraftPoint, points: seq<DraftPoint>): seq<DraftPoint> {
    if points == [] || InOrder(p, points[0]) then [p] + points
    else [points[0]] + Insert(p, points[1..])
  }

  /** The stable sort by minute and identifier. */
  function Sort(points: seq<DraftPoint>): seq<DraftPoint> {
    if points == [] then [] else Insert(points[0], Sort(points[1..]))
  }

  function Renumber(points: seq<DraftPoint>): (r: seq<DraftPoint>)
    ensures |r| == |points|
    ensures forall i :: 0 <= i < |points| ==> r[i] == points[i].(position := i)
  {
    seq(|points|, i requires 0 <= i < |points| => points[i].(position := i))
  }

  /** `normalizeLogicalPoints`. */
  function Normalize(points: seq<DraftPoint>): seq<DraftPoint> { Renumber(Sort(points)) }

  predicate Normal(points: seq<DraftPoint>) {
    Sorted(points) && forall i :: 0 <= i < |points| ==> points[i].position == i
  }

  lemma FrontSorts(p: DraftPoint, points: seq<DraftPoint>)
    requires Sorted(points) && (points == [] || InOrder(p, points[0]))
    ensures Sorted([p] + points)
  {
    forall j | 0 <= j < |points| ensures InOrder(p, points[j]) {
      if p.minute == points[0].minute == points[j].minute && j > 0 {
        AtMostTransitive(p.id, points[0].id, points[j].id);
      }
    }
  }

  lemma {:induction false} InsertSorts(p: DraftPoint, points: seq<DraftPoint>)
    requires Sorted(points)
    ensures Sorted(Insert(p, points))
    ensures multiset(Insert(p, points)) == multiset([p] + points)
  {
    if points == [] || InOrder(p, points[0]) {
      FrontSorts(p, points);
    } else {
      var rest := Insert(p, points[1..]);
      InsertSorts(p, points[1..]);
      assert points == [points[0]] + points[1..];
      assert InOrder(points[0], rest[0]) by {
        AtMostTotal(p.id, points[0].id);
        assert rest[0] in multiset(rest);
        assert rest[0] == p || rest[0] in points[1..];
      }
      FrontSorts(points[0], rest);
    }
  }

  lemma {:induction false} SortSorts(points: seq<DraftPoint>)
    ensures Sorted(Sort(points)) && multiset(Sort(points)) == multiset(points) && |Sort(points)| == |points|
  {
    if points != [] {
      SortSorts(points[1..]);
      InsertSorts(points[0], Sort(points[1..]));
      assert points == [points[0]] + points[1..];
    }
    assert |multiset(Sort(points))| == |multiset(points)|;
  }

  /** Normalising yields a sorted permutation, numbered by index; only positions change. */
  lemma NormalizeSorts(points: seq<DraftPoint>)
    ensures Normal(Normalize(points)) && |Normalize(points)| == |points|
    ensures exists sorted :: multiset(sorted) == multiset(points) && Normalize(points) == Renumber(sorted)
  {
    SortSorts(points);
  }

  lemma {:induction false} SortedIsKept(points: seq<DraftPoint>)
    requires Sorted(points)
    ensures Sort(points) == points
  {
    if points != [] { SortedIsKept(points[1..]); }
  }

  /** Normalising twice is normalising once, and a normal list is its own normal form. */
  lemma NormalIsFixed(points: seq<DraftPoint>)
    requires Normal(points)
    ensures Normalize(points) == points
  {
    SortedIsKept(points);
  }

  predicate Distinct(points: seq<DraftPoint>) {
    forall i, j :: 0 <= i < j < |points| ==> points[i].minute != points[j].minute
  }

  lemma {:induction false} InsertAdds(p: DraftPoint, points: seq<DraftPoint>, q: DraftPoint)
    ensures q in Insert(p, points) <==> q == p || q in points
  {
    if points != [] && !InOrder(p, points[0]) {
      InsertAdds(p, points[1..], q);
      assert points == [points[0]] + points[1..];
    }
  }

  lemma {:induction false} InsertDistinct(p: DraftPoint, points: seq<DraftPoint>)
    requires Distinct(points) && forall i :: 0 <= i < |points| ==> p.minute != points[i].minute
    ensures Distinct(Insert(p, points))
  {
    if points != [] && !InOrder(p, points[0]) {
      var rest := Insert(p, points[1..]);
      InsertDistinct(p, points[1..]);
      forall j | 0 <= j < |rest| ensures rest[j].minute != points[0].minute {
        InsertAdds(p, points[1..], rest[j]);
      }
    }
  }

  lemma {:induction false} SortDistinct(points: seq<DraftPoint>)
    requires Distinct(points)
    ensures Distinct(Sort(points))
  {
    if points != [] {
      var sorted := Sort(points[1..]);
      SortDistinct(points[1..]);
      SortSorts(points[1..]);
      forall j | 0 <= j < |sorted| ensures sorted[j].minute != points[0].minute {
        assert sorted[j] in multiset(points[1..]);
      }
      InsertDistinct(points[0], sorted);
    }
  }

  lemma InsertBelow(p: DraftPoint, w: seq<DraftPoint>)
    requires w != [] && Sorted(w) && p.minute < w[0].minute
    ensures Insert(w[0], [p] + w[1..]) == [p] + w
  {
    assert ([p] + w[1..])[1..] == w[1..];
    assert w == [w[0]] + w[1..];
  }

  lemma SortCons(x: DraftPoint, rest: seq<DraftPoint>)
    ensures Sort([x] + rest) == Insert(x, Sort(rest))
  {
    assert ([x] + rest)[1..] == rest;
  }

  lemma TailShapes(s: seq<DraftPoint>, p: DraftPoint, t: seq<DraftPoint>)
    requires s != []
    ensures s + [p] + t == [s[0]] + (s[1..] + [p] + t)
    ensures (s + t)[0] == s[0] && (s + t)[1..] == s[1..] + t
  {
  }

  /** A point put after the points it precedes moves to the front. */
  lemma {:induction false} SortMovesFirst(s: seq<DraftPoint>, p: DraftPoint, t: seq<DraftPoint>)
    requires Sorted(s + t)
    requires forall i :: 0 <= i < |s + t| ==> p.minute < (s + t)[i].minute
    ensures Sort(s + [p] + t) == [p] + (s + t)
  {
    var w := s + t;
    if s == [] {
      assert s + [p] + t == [p] + w;
      SortedIsKept([p] + w);
    } else {
      TailShapes(s, p, t);
      assert forall i :: 0 <= i < |w| - 1 ==> w[1..][i] == w[i + 1];
      SortMovesFirst(s[1..], p, t);
      SortCons(s[0], s[1..] + [p] + t);
      InsertBelow(p, w);
    }
  }
}
