/** Saving a draft: validation, canonical points and the request's schema, and exactly when it succeeds. */
module ScheduleRequest {
  import opened Options
  import opened Schedule
  import opened DraftPoints
  import opened Canonical
  import opened CanonicalValues

  predicate Alphanumeric(c: char) { '0' <= c <= '9' || 'A' <= c <= 'Z' || 'a' <= c <= 'z' }

  predicate IdentifierChars(id: string) {
    forall i :: 0 <= i < |id| ==> Alphanumeric(id[i]) || id[i] in "._:-"
  }

  predicate ValidIdentifier(id: string) { 1 <= |id| <= 128 && Alphanumeric(id[0]) && IdentifierChars(id) }

  predicate ValidIdentifiers(points: seq<DraftPoint>) {
    forall i :: 0 <= i < |points| ==> ValidIdentifier(points[i].id)
  }

  /** `replaceScheduleRequestSchema`, for the points. */
  predicate ValidRequest(points: seq<DraftPoint>) {
    && 2 <= |points| <= 1440
    && ValidIdentifiers(points)
    && forall i :: 0 <= i < |points| ==> ValidMinute(points[i].minute) && ValidPercent(points[i].percent)
  }

  /** The points of the request, or `None` where the source throws. */
  function RequestPoints(d: Draft): Option<seq<DraftPoint>> {
    if ValidPoints(d.points) && Canonicalises(d) && ValidRequest(CanonicalPoints(d).value) then CanonicalPoints(d)
    else None
  }

  /** `toCombinedReplaceScheduleRequest`. */
  method ReplaceRequestPoints(d: Draft) returns (points: Option<seq<DraftPoint>>)
    ensures points == RequestPoints(d)
  {
    var issues := ValidateDraft(d.points);
    if issues != [] { return None; }
    points := CanonicalSchedulePoints(d);
    if points.Some? && !ValidRequest(points.value) { return None; }
  }

  /** The edge has a point, a hidden one whose identifier is valid, or room for a valid new identifier. */
  predicate EdgeSends(d: Draft, minute: real, room: nat) {
    HasPointAt(d.points, minute) ||
      match AtMinute(d.hidden, minute)
      case Some(p) => ValidIdentifier(p.id)
      case None => |d.scheduleId| <= room && IdentifierChars(d.scheduleId)
  }

  /** What a caller can check of a draft. */
  predicate Sends(d: Draft) {
    ValidPoints(d.points) && ValidIdentifiers(d.points) && EdgeSends(d, 0.0, 108) && EdgeSends(d, LAST_MINUTE, 110)
  }

  lemma BoundaryCharsIff(scheduleId: string, edge: string)
    requires edge == "start" || edge == "end"
    ensures ValidIdentifier(WrapPrefix(scheduleId) + edge)
      <==> |scheduleId| + |edge| <= 113 && IdentifierChars(scheduleId)
  {
    var id := WrapPrefix(scheduleId) + edge;
    assert id[..14] == "wrap-boundary-" && id[14..14 + |scheduleId|] == scheduleId;
    assert id[14 + |scheduleId|..] == "-" + edge;
    if IdentifierChars(id) {
      forall i | 0 <= i < |scheduleId| ensures Alphanumeric(scheduleId[i]) || scheduleId[i] in "._:-" {
        assert scheduleId[i] == id[14 + i];
      }
    }
    if IdentifierChars(scheduleId) {
      forall i | 0 <= i < |id| ensures Alphanumeric(id[i]) || id[i] in "._:-" {
        assert id[i] == if i < 14 then "wrap-boundary-"[i]
                        else if i < 14 + |scheduleId| then scheduleId[i - 14]
                        else ("-" + edge)[i - 14 - |scheduleId|];
      }
    }
  }

  /** The points added for an edge have valid identifiers exactly when the edge sends. */
  lemma EdgeSendsIff(d: Draft, minute: real, edge: string)
    requires edge == "start" || edge == "end"
    ensures var missing := Missing(d, Normalize(d.points), minute, edge);
            EdgeSends(d, minute, 113 - |edge|) <==> missing.Some? && ValidIdentifiers(missing.value)
  {
    MissingIff(d, minute, edge);
    NormalizeHasPoint(d.points, minute);
    AtMinuteIff(Normalize(d.points), minute);
    AtMinuteIff(d.hidden, minute);
    BoundaryCharsIff(d.scheduleId, edge);
    var missing := Missing(d, Normalize(d.points), minute, edge);
    if missing.Some? && !HasPointAt(d.points, minute) {
      assert ValidIdentifiers(missing.value) <==> ValidIdentifier(missing.value[0].id);
    }
  }

  lemma IdentifiersOfSum(s: seq<DraftPoint>, t: seq<DraftPoint>)
    ensures ValidIdentifiers(s + t) <==> ValidIdentifiers(s) && ValidIdentifiers(t)
  {
    if ValidIdentifiers(s + t) {
      forall i | 0 <= i < |s| ensures ValidIdentifier(s[i].id) { assert (s + t)[i] == s[i]; }
      forall i | 0 <= i < |t| ensures ValidIdentifier(t[i].id) { assert (s + t)[|s| + i] == t[i]; }
    }
  }

  lemma IdentifiersOfNormal(points: seq<DraftPoint>)
    ensures ValidIdentifiers(Normalize(points)) <==> ValidIdentifiers(points)
  {
    var sorted := Sort(points);
    SortSorts(points);
    if ValidIdentifiers(points) {
      forall i | 0 <= i < |sorted| ensures ValidIdentifier(Normalize(points)[i].id) {
        assert sorted[i] in multiset(points);
      }
    }
    if ValidIdentifiers(Normalize(points)) {
      forall i | 0 <= i < |points| ensures ValidIdentifier(points[i].id) {
        assert points[i] in multiset(sorted);
        var j :| 0 <= j < |sorted| && sorted[j] == points[i];
        assert Normalize(points)[j].id == points[i].id;
      }
    }
  }

  lemma IdentifiersOfRenumbered(points: seq<DraftPoint>)
    ensures ValidIdentifiers(Renumber(points)) <==> ValidIdentifiers(points)
  {
    var r := Renumber(points);
    assert forall i :: 0 <= i < |points| ==> r[i].id == points[i].id;
  }

  lemma IdentifiersOfLevelled(logical: seq<DraftPoint>, percent: real)
    ensures ValidIdentifiers(Levelled(logical, percent)) <==> ValidIdentifiers(logical)
  {
    var level := Levelled(logical, percent);
    assert forall i :: 0 <= i < |logical| ==> level[i].id == logical[i].id;
  }

  lemma IdentifiersOfParts(start: seq<DraftPoint>, logical: seq<DraftPoint>, percent: real, end: seq<DraftPoint>)
    ensures ValidIdentifiers(Renumber(start + (Levelled(logical, percent) + end)))
      <==> ValidIdentifiers(start) && ValidIdentifiers(logical) && ValidIdentifiers(end)
  {
    IdentifiersOfRenumbered(start + (Levelled(logical, percent) + end));
    IdentifiersOfSum(start, Levelled(logical, percent) + end);
    IdentifiersOfSum(Levelled(logical, percent), end);
    IdentifiersOfLevelled(logical, percent);
  }

  /** The identifiers sent are those of the draft and those of the points added. */
  lemma IdentifiersSent(d: Draft)
    requires ValidPoints(d.points) && Canonicalises(d)
    ensures var logical := Normalize(d.points);
            && Missing(d, logical, 0.0, "start").Some? && Missing(d, logical, LAST_MINUTE, "end").Some?
            && (ValidIdentifiers(CanonicalPoints(d).value) <==>
                  && ValidIdentifiers(d.points)
                  && ValidIdentifiers(Missing(d, logical, 0.0, "start").value)
                  && ValidIdentifiers(Missing(d, logical, LAST_MINUTE, "end").value))
  {
    var logical := Normalize(d.points);
    MissingIff(d, 0.0, "start");
    MissingIff(d, LAST_MINUTE, "end");
    CanonicalTracesOpened(d);
    ValidDraftIsCycle(d.points);
    IdentifiersOfParts(Missing(d, logical, 0.0, "start").value, logical, EdgePercent(Curve(logical)),
                       Missing(d, logical, LAST_MINUTE, "end").value);
    IdentifiersOfNormal(d.points);
  }

  /** Whole minutes of a day in increasing order are at most 1440. */
  lemma {:induction false} MinuteAtLeast(o: seq<Point>, i: nat)
    requires i < |o| && forall k :: 0 <= k < |o| ==> ValidMinute(o[k].minute)
    requires forall k :: 0 < k < |o| ==> o[k - 1].minute < o[k].minute
    ensures o[i].minute >= i as real
  {
    if i > 0 {
      MinuteAtLeast(o, i - 1);
      assert o[i].minute.Floor > o[i - 1].minute.Floor;
    }
  }

  lemma CanonicalFitsSchema(d: Draft)
    requires ValidPoints(d.points) && Canonicalises(d)
    ensures var points := CanonicalPoints(d).value;
            2 <= |points| <= 1440 && forall i :: 0 <= i < |points| ==>
              ValidMinute(points[i].minute) && ValidPercent(points[i].percent)
  {
    var points, o := CanonicalPoints(d).value, Curve(CanonicalPoints(d).value);
    CanonicalTracesOpened(d);
    ValidDraftIsCycle(d.points);
    forall i | 0 <= i < |o|
      ensures ValidMinute(o[i].minute) && ValidPercent(o[i].percent)
      ensures i > 0 ==> o[i - 1].minute < o[i].minute
    {
      OpenedPoint(Curve(Normalize(d.points)), i);
    }
    MinuteAtLeast(o, |o| - 1);
  }

  /** Exactly when a draft can be saved. */
  lemma RequestSucceedsIff(d: Draft)
    ensures RequestPoints(d).Some? <==> Sends(d)
  {
    EdgeSendsIff(d, 0.0, "start");
    EdgeSendsIff(d, LAST_MINUTE, "end");
    MissingIff(d, 0.0, "start");
    MissingIff(d, LAST_MINUTE, "end");
    if ValidPoints(d.points) && Canonicalises(d) {
      IdentifiersSent(d);
      CanonicalFitsSchema(d);
    }
  }

  /** For a draft whose identifiers all satisfy the contracts, the schema refuses nothing: it can be saved
      exactly when it is valid and its edges can be closed. */
  lemma ContractDraftSendsIff(d: Draft)
    requires ValidIdentifier(d.scheduleId) && ValidIdentifiers(d.points) && ValidIdentifiers(d.hidden)
    ensures RequestPoints(d).Some? <==> ValidPoints(d.points) && Canonicalises(d)
  {
    RequestSucceedsIff(d);
    AtMinuteIff(d.hidden, 0.0);
    AtMinuteIff(d.hidden, LAST_MINUTE);
    AtMinuteIsMember(d.hidden, 0.0);
    AtMinuteIsMember(d.hidden, LAST_MINUTE);
  }
}
