/** The schedule editor's reducer: selection, edits, saving, conflicts and merging of snapshots. */
module ScheduleDrafts {
  import opened Options
  import opened Schedule
  import opened DraftPoints
  import opened Canonical

  /** The points and identity of one channel's schedule as a snapshot carries it. */
  datatype Source = Source(channelId: string, scheduleId: string, graphRevision: nat, points: seq<DraftPoint>)

  datatype State = State(
    selectedChannel: Option<string>,
    selectedPoints: map<string, Option<string>>,
    drafts: map<string, Draft>)

  datatype Action =
    | SelectChannel(channel: string)
    | SelectPoint(channel: string, pointId: string)
    | AddPoint(channel: string, point: DraftPoint, revision: nat)
    | UpdatePoint(channel: string, pointId: string, minute: real, percent: real, revision: nat)
    | RemovePoint(channel: string, pointId: string, revision: nat)
    | RestorePoints(pointsByChannel: map<string, seq<DraftPoint>>, revision: nat)
    | DiscardAll
    | Saved(channel: string, savedPoints: seq<DraftPoint>, revision: nat)
    | AcceptConflict(channel: string, revision: nat)
    | RevisionConflict(channel: string, revision: nat)
    | Snapshot(sources: seq<Source>, revision: nat)

  predicate Dirty(d: Draft) { d.points != d.baseline }

  predicate Holds(points: seq<DraftPoint>, id: string) {
    exists i :: 0 <= i < |points| && points[i].id == id
  }

  /** `preferredPointId`. */
  function Preferred(points: seq<DraftPoint>): Option<string> {
    if points == [] then None else Some(points[0].id)
  }

  function Kept(selected: Option<string>, points: seq<DraftPoint>): Option<string> {
    if selected.Some? && Holds(points, selected.value) then selected else Preferred(points)
  }

  function Selection(s: State, channel: string): Option<string> {
    if channel in s.selectedPoints then s.selectedPoints[channel] else None
  }

  /** `editDraft`. */
  function Edit(d: Draft, points: seq<DraftPoint>, revision: nat): Draft {
    d.(points := points, pinned := if d.pinned.Some? then d.pinned else Some(revision))
  }

  function Hidden(scheduleId: string, points: seq<DraftPoint>): seq<DraftPoint> {
    if points == [] then []
    else if IsHidden(scheduleId, points[0]) then [points[0]] + Hidden(scheduleId, points[1..])
    else Hidden(scheduleId, points[1..])
  }

  function Visible(scheduleId: string, points: seq<DraftPoint>): seq<DraftPoint> {
    if points == [] then []
    else if IsHidden(scheduleId, points[0]) then Visible(scheduleId, points[1..])
    else [points[0]] + Visible(scheduleId, points[1..])
  }

  /** `createCombinedScheduleDraft`. */
  function FreshDraft(source: Source): Draft {
    var points := Normalize(Visible(source.scheduleId, source.points));
    Draft(source.channelId, source.scheduleId, source.graphRevision, points, points,
          Hidden(source.scheduleId, source.points), None, None)
  }

  function WithDraft(s: State, channel: string, d: Draft): State { s.(drafts := s.drafts[channel := d]) }

  function WithSelection(s: State, channel: string, selected: Option<string>): State {
    s.(selectedPoints := s.selectedPoints[channel := selected])
  }

  function Updated(points: seq<DraftPoint>, id: string, minute: real, percent: real): (r: seq<DraftPoint>)
    ensures |r| == |points|
    ensures forall i :: 0 <= i < |r| ==> r[i].id == points[i].id
  {
    seq(|points|, i requires 0 <= i < |points| =>
      if points[i].id == id
      then points[i].(minute := minute, percent := percent, editorX := None, editorY := None)
      else points[i])
  }

  function Without(points: seq<DraftPoint>, id: string): seq<DraftPoint> {
    if points == [] then []
    else if points[0].id == id then Without(points[1..], id)
    else [points[0]] + Without(points[1..], id)
  }

  // ----- Merging a snapshot -----

  /** What one channel's draft becomes when a snapshot brings `incoming`. */
  function Merge(existing: Option<Draft>, incoming: Draft, revision: nat): Draft {
    if existing.None? || existing.value.scheduleId != incoming.scheduleId then incoming
    else
      var d := existing.value;
      if d.graphRevision == incoming.graphRevision then
        if Dirty(d) then d.(pinned := Some(revision)) else d
      else if !Dirty(d) || incoming.points == d.points then incoming
      else if incoming.points == d.baseline then
        d.(graphRevision := incoming.graphRevision, baseline := incoming.points,
           hidden := incoming.hidden, conflict := None)
      else d.(conflict := Some(revision))
  }

  function DraftOf(s: State, channel: string): Option<Draft> {
    if channel in s.drafts then Some(s.drafts[channel]) else None
  }

  /** Drafts and selections after the given sources, later sources winning. */
  function Merged(s: State, sources: seq<Source>, revision: nat): (map<string, Draft>, map<string, Option<string>>)
    decreases |sources|
  {
    if sources == [] then (map[], map[])
    else
      var rest := Merged(s, sources[..|sources| - 1], revision);
      var source := sources[|sources| - 1];
      var d := Merge(DraftOf(s, source.channelId), FreshDraft(source), revision);
      (rest.0[source.channelId := d], rest.1[source.channelId := Kept(Selection(s, source.channelId), d.points)])
  }

  function SelectedChannelAfter(s: State, sources: seq<Source>, drafts: map<string, Draft>): Option<string> {
    if s.selectedChannel.Some? && s.selectedChannel.value in drafts then s.selectedChannel
    else if sources == [] then None
    else Some(sources[0].channelId)
  }

  function Synchronized(s: State, sources: seq<Source>, revision: nat): State {
    var merged := Merged(s, sources, revision);
    State(SelectedChannelAfter(s, sources, merged.0), merged.1, merged.0)
  }

  /** `synchronizeCombinedScheduleState`. */
  method SynchronizeState(s: State, sources: seq<Source>, revision: nat) returns (r: State)
    ensures r == Synchronized(s, sources, revision)
  {
    var drafts: map<string, Draft> := map[];
    var selectedPoints: map<string, Option<string>> := map[];
    for i := 0 to |sources|
      invariant (drafts, selectedPoints) == Merged(s, sources[..i], revision)
    {
      var source := sources[i];
      var incoming := FreshDraft(source);
      var draft := incoming;
      if source.channelId in s.drafts && s.drafts[source.channelId].scheduleId == incoming.scheduleId {
        var existing := s.drafts[source.channelId];
        if existing.graphRevision == incoming.graphRevision {
          draft := if Dirty(existing) then existing.(pinned := Some(revision)) else existing;
        } else if !Dirty(existing) || incoming.points == existing.points {
          draft := incoming;
        } else if incoming.points == existing.baseline {
          draft := existing.(graphRevision := incoming.graphRevision, baseline := incoming.points,
                             hidden := incoming.hidden, conflict := None);
        } else {
          draft := existing.(conflict := Some(revision));
        }
      }
      drafts := drafts[source.channelId := draft];
      selectedPoints := selectedPoints[source.channelId := Kept(Selection(s, source.channelId), draft.points)];
      assert sources[..i + 1][..i] == sources[..i];
    }
    assert sources[..|sources|] == sources;
    return State(SelectedChannelAfter(s, sources, drafts), selectedPoints, drafts);
  }

  /** `createCombinedScheduleState`. */
  function InitialState(sources: seq<Source>): State {
    Synchronized(State(None, map[], map[]), sources, 0)
  }

  // ----- The reducer -----

  function EditAll(s: State, restored: map<string, seq<DraftPoint>>, revision: nat): map<string, Draft> {
    map c | c in s.drafts ::
      Edit(s.drafts[c], if c in restored then Normalize(restored[c]) else s.drafts[c].points, revision)
  }

  function DiscardEach(s: State): map<string, Draft> {
    map c | c in s.drafts :: s.drafts[c].(points := s.drafts[c].baseline, pinned := None, conflict := None)
  }

  function AcceptEach(s: State, revision: nat): map<string, Draft> {
    map c | c in s.drafts ::
      if Dirty(s.drafts[c]) then s.drafts[c].(pinned := Some(revision), conflict := None) else s.drafts[c]
  }

  function Reselect(s: State, drafts: map<string, Draft>): map<string, Option<string>> {
    s.selectedPoints + map c | c in drafts :: Kept(Selection(s, c), drafts[c].points)
  }

  /** `combinedScheduleReducer`. */
  function Reduce(s: State, a: Action): State {
    match a
    case SelectChannel(c) => if c in s.drafts then s.(selectedChannel := Some(c)) else s
    case SelectPoint(c, id) =>
      if c in s.drafts && Holds(s.drafts[c].points, id) then WithSelection(s, c, Some(id)) else s
    case AddPoint(c, p, revision) =>
      if c !in s.drafts then s
      else
        var edited := Edit(s.drafts[c], Normalize(s.drafts[c].points + [p]), revision);
        WithSelection(WithDraft(s, c, edited), c, Some(p.id))
    case UpdatePoint(c, id, minute, percent, revision) =>
      if c !in s.drafts then s
      else WithDraft(s, c, Edit(s.drafts[c], Normalize(Updated(s.drafts[c].points, id, minute, percent)), revision))
    case RemovePoint(c, id, revision) =>
      if c !in s.drafts || |s.drafts[c].points| <= 2 then s
      else
        var points := Normalize(Without(s.drafts[c].points, id));
        var selected := if Selection(s, c) == Some(id) then Preferred(points) else Selection(s, c);
        WithSelection(WithDraft(s, c, Edit(s.drafts[c], points, revision)), c, selected)
    case RestorePoints(restored, revision) =>
      var drafts := EditAll(s, restored, revision);
      s.(drafts := drafts, selectedPoints := Reselect(s, drafts))
    case DiscardAll =>
      var drafts := DiscardEach(s);
      s.(drafts := drafts, selectedPoints := Reselect(s, drafts))
    case Saved(c, saved, revision) =>
      if c !in s.drafts then s
      else
        var baseline := Normalize(saved);
        var newer := s.drafts[c].points != baseline;
        WithDraft(s, c, s.drafts[c].(
          baseline := baseline, pinned := if newer then Some(revision) else None, conflict := None))
    case AcceptConflict(c, revision) =>
      if c !in s.drafts then s else s.(drafts := AcceptEach(s, revision))
    case RevisionConflict(c, revision) =>
      if c !in s.drafts then s
      else WithDraft(s, c, s.drafts[c].(conflict := Some(revision))).(selectedChannel := Some(c))
    case Snapshot(sources, revision) => Synchronized(s, sources, revision)
  }

  // ----- What every state keeps -----

  predicate ValidDraft(d: Draft) {
    && Normal(d.points) && Normal(d.baseline)
    && (Dirty(d) ==> d.pinned.Some?)
  }

  predicate ValidState(s: State) {
    && s.selectedPoints.Keys == s.drafts.Keys
    && (s.selectedChannel.Some? ==> s.selectedChannel.value in s.drafts)
    && (forall c :: c in s.drafts ==> s.drafts[c].channelId == c && ValidDraft(s.drafts[c]))
    && (forall c :: c in s.drafts && s.selectedPoints[c].Some? ==> Holds(s.drafts[c].points, s.selectedPoints[c].value))
  }

  lemma NormalizeHolds(points: seq<DraftPoint>, id: string)
    ensures Holds(Normalize(points), id) <==> Holds(points, id)
  {
    var sorted := Sort(points);
    SortSorts(points);
    if Holds(points, id) {
      var i :| 0 <= i < |points| && points[i].id == id;
      assert points[i] in multiset(sorted);
      var k :| 0 <= k < |sorted| && sorted[k] == points[i];
      assert Normalize(points)[k].id == id;
    }
    if Holds(Normalize(points), id) {
      var i :| 0 <= i < |points| && Normalize(points)[i].id == id;
      assert sorted[i] in multiset(points);
    }
  }

  lemma {:induction false} WithoutHolds(points: seq<DraftPoint>, id: string, other: string)
    requires other != id
    ensures Holds(Without(points, id), other) <==> Holds(points, other)
  {
    if points != [] {
      WithoutHolds(points[1..], id, other);
      var rest := Without(points[1..], id);
      if Holds(points[1..], other) {
        var i :| 0 <= i < |points| - 1 && points[1..][i].id == other;
        assert points[i + 1].id == other;
      }
      if Holds(rest, other) && points[0].id != id {
        var i :| 0 <= i < |rest| && rest[i].id == other;
        assert ([points[0]] + rest)[i + 1].id == other;
      }
      if points[0].id == other { assert Without(points, id)[0].id == other; }
      if Holds(points, other) && points[0].id != other {
        var i :| 0 <= i < |points| && points[i].id == other;
        assert points[1..][i - 1].id == other;
      }
    }
  }

  lemma KeptIsHeld(selected: Option<string>, points: seq<DraftPoint>)
    ensures Kept(selected, points).Some? ==> Holds(points, Kept(selected, points).value)
    ensures Kept(selected, points).None? ==> points == []
  {
    if points != [] { assert points[0].id == Preferred(points).value; }
  }

  lemma MergeKeeps(existing: Option<Draft>, source: Source, revision: nat)
    requires existing.Some? ==> ValidDraft(existing.value) && existing.value.channelId == source.channelId
    ensures var d := Merge(existing, FreshDraft(source), revision); ValidDraft(d) && d.channelId == source.channelId
  {
    NormalizeSorts(Visible(source.scheduleId, source.points));
  }

  predicate ValidParts(drafts: map<string, Draft>, selections: map<string, Option<string>>) {
    && selections.Keys == drafts.Keys
    && (forall c :: c in drafts ==> drafts[c].channelId == c && ValidDraft(drafts[c]))
    && (forall c :: c in drafts && selections[c].Some? ==> Holds(drafts[c].points, selections[c].value))
  }

  lemma ExtendParts(drafts: map<string, Draft>, selections: map<string, Option<string>>, d: Draft,
      selected: Option<string>)
    requires ValidParts(drafts, selections) && ValidDraft(d)
    requires selected.Some? ==> Holds(d.points, selected.value)
    ensures ValidParts(drafts[d.channelId := d], selections[d.channelId := selected])
  {
  }

  lemma {:induction false} MergedIsValid(s: State, sources: seq<Source>, revision: nat)
    requires ValidState(s)
    ensures ValidParts(Merged(s, sources, revision).0, Merged(s, sources, revision).1)
    decreases |sources|
  {
    if sources != [] {
      var n := |sources| - 1;
      var rest := Merged(s, sources[..n], revision);
      MergedIsValid(s, sources[..n], revision);
      var existing := DraftOf(s, sources[n].channelId);
      MergeKeeps(existing, sources[n], revision);
      var d := Merge(existing, FreshDraft(sources[n]), revision);
      KeptIsHeld(Selection(s, sources[n].channelId), d.points);
      ExtendParts(rest.0, rest.1, d, Kept(Selection(s, sources[n].channelId), d.points));
    }
  }

  /** The drafts after a merge are those of the sources' channels, each merged with its last source. */
  lemma {:induction false} MergedAt(s: State, sources: seq<Source>, revision: nat, channel: string)
    ensures channel in Merged(s, sources, revision).0 <==> LastSource(sources, channel).Some?
    ensures LastSource(sources, channel).Some? ==>
      Merged(s, sources, revision).0[channel]
        == Merge(DraftOf(s, channel), FreshDraft(LastSource(sources, channel).value), revision)
    decreases |sources|
  {
    if sources != [] { MergedAt(s, sources[..|sources| - 1], revision, channel); }
  }

  function LastSource(sources: seq<Source>, channel: string): (source: Option<Source>)
    ensures source.Some? ==> source.value.channelId == channel && source.value in sources
    ensures source.None? ==> forall i :: 0 <= i < |sources| ==> sources[i].channelId != channel
    decreases |sources|
  {
    if sources == [] then None
    else if sources[|sources| - 1].channelId == channel then Some(sources[|sources| - 1])
    else LastSource(sources[..|sources| - 1], channel)
  }

  lemma ReplaceKeeps(s: State, c: string, d: Draft, selected: Option<string>)
    requires ValidState(s) && c in s.drafts && ValidDraft(d) && d.channelId == c
    requires selected.Some? ==> Holds(d.points, selected.value)
    ensures ValidState(WithSelection(WithDraft(s, c, d), c, selected))
  {
  }

  lemma SamePointsKeep(s: State, c: string, d: Draft)
    requires ValidState(s) && c in s.drafts && ValidDraft(d) && d.channelId == c && d.points == s.drafts[c].points
    ensures ValidState(WithDraft(s, c, d))
  {
  }

  lemma AllReplacedKeep(s: State, drafts: map<string, Draft>)
    requires ValidState(s) && drafts.Keys == s.drafts.Keys
    requires forall c :: c in drafts ==> drafts[c].channelId == c && ValidDraft(drafts[c])
    ensures ValidState(s.(drafts := drafts, selectedPoints := Reselect(s, drafts)))
  {
    forall c | c in drafts
      ensures Kept(Selection(s, c), drafts[c].points).Some? ==>
        Holds(drafts[c].points, Kept(Selection(s, c), drafts[c].points).value)
    {
      KeptIsHeld(Selection(s, c), drafts[c].points);
    }
  }

  lemma EditKeeps(d: Draft, points: seq<DraftPoint>, revision: nat)
    requires ValidDraft(d)
    ensures ValidDraft(Edit(d, Normalize(points), revision))
  {
    NormalizeSorts(points);
  }

  lemma AddKeeps(s: State, a: Action)
    requires ValidState(s) && a.AddPoint? && a.channel in s.drafts
    ensures ValidState(Reduce(s, a))
  {
    var d := s.drafts[a.channel];
    var points := d.points + [a.point];
    EditKeeps(d, points, a.revision);
    assert points[|d.points|].id == a.point.id;
    NormalizeHolds(points, a.point.id);
    ReplaceKeeps(s, a.channel, Edit(d, Normalize(points), a.revision), Some(a.point.id));
  }

  lemma UpdateKeeps(s: State, a: Action)
    requires ValidState(s) && a.UpdatePoint? && a.channel in s.drafts
    ensures ValidState(Reduce(s, a))
  {
    var d, selected := s.drafts[a.channel], Selection(s, a.channel);
    var points := Updated(d.points, a.pointId, a.minute, a.percent);
    EditKeeps(d, points, a.revision);
    if selected.Some? {
      var i :| 0 <= i < |d.points| && d.points[i].id == selected.value;
      assert points[i].id == selected.value;
      NormalizeHolds(points, selected.value);
    }
    ReplaceKeeps(s, a.channel, Edit(d, Normalize(points), a.revision), selected);
    assert s.selectedPoints[a.channel := selected] == s.selectedPoints;
  }

  lemma RemoveKeeps(s: State, a: Action)
    requires ValidState(s) && a.RemovePoint? && a.channel in s.drafts
    ensures ValidState(Reduce(s, a))
  {
    var d, selected := s.drafts[a.channel], Selection(s, a.channel);
    var points := Without(d.points, a.pointId);
    EditKeeps(d, points, a.revision);
    KeptIsHeld(None, Normalize(points));
    if selected.Some? && selected.value != a.pointId {
      WithoutHolds(d.points, a.pointId, selected.value);
      NormalizeHolds(points, selected.value);
    }
    if |d.points| > 2 {
      ReplaceKeeps(s, a.channel, Edit(d, Normalize(points), a.revision),
                   if selected == Some(a.pointId) then Preferred(Normalize(points)) else selected);
    }
  }

  lemma RestoreKeeps(s: State, a: Action)
    requires ValidState(s) && a.RestorePoints?
    ensures ValidState(Reduce(s, a))
  {
    var drafts := EditAll(s, a.pointsByChannel, a.revision);
    forall c | c in drafts ensures drafts[c].channelId == c && ValidDraft(drafts[c]) {
      if c in a.pointsByChannel { EditKeeps(s.drafts[c], a.pointsByChannel[c], a.revision); }
    }
    AllReplacedKeep(s, drafts);
  }

  lemma SelectKeeps(s: State, a: Action)
    requires ValidState(s) && (a.SelectChannel? || a.SelectPoint? || a.RevisionConflict?)
    ensures ValidState(Reduce(s, a))
  {
  }

  lemma AcceptKeeps(s: State, a: Action)
    requires ValidState(s) && a.AcceptConflict?
    ensures ValidState(Reduce(s, a))
  {
  }

  lemma ReduceKeepsValid(s: State, a: Action)
    requires ValidState(s)
    ensures ValidState(Reduce(s, a))
  {
    match a
    case AddPoint(c, _, _) => if c in s.drafts { AddKeeps(s, a); }
    case UpdatePoint(c, _, _, _, _) => if c in s.drafts { UpdateKeeps(s, a); }
    case RemovePoint(c, _, _) => if c in s.drafts { RemoveKeeps(s, a); }
    case RestorePoints(_, _) => RestoreKeeps(s, a);
    case DiscardAll => AllReplacedKeep(s, DiscardEach(s));
    case Saved(c, saved, revision) =>
      NormalizeSorts(saved);
      if c in s.drafts { SamePointsKeep(s, c, Reduce(s, a).drafts[c]); }
    case Snapshot(sources, revision) => MergedIsValid(s, sources, revision); FirstIsMerged(s, sources, revision);
    case AcceptConflict(_, _) => AcceptKeeps(s, a);
    case _ => SelectKeeps(s, a);
  }

  lemma FirstIsMerged(s: State, sources: seq<Source>, revision: nat)
    ensures sources != [] ==> sources[0].channelId in Merged(s, sources, revision).0
  {
    if sources != [] { MergedAt(s, sources, revision, sources[0].channelId); }
  }

  function After(s: State, actions: seq<Action>): State
    decreases |actions|
  {
    if actions == [] then s else Reduce(After(s, actions[..|actions| - 1]), actions[|actions| - 1])
  }

  /** Whatever the user and the server do: points stay sorted and numbered by index, unsaved edits have a
      pinned revision, selected points and the selected channel exist. */
  lemma {:induction false} EveryRunIsValid(sources: seq<Source>, actions: seq<Action>)
    ensures ValidState(After(InitialState(sources), actions))
    decreases |actions|
  {
    if actions == [] {
      var empty := State(None, map[], map[]);
      MergedIsValid(empty, sources, 0);
      FirstIsMerged(empty, sources, 0);
    } else {
      EveryRunIsValid(sources, actions[..|actions| - 1]);
      ReduceKeepsValid(After(InitialState(sources), actions[..|actions| - 1]), actions[|actions| - 1]);
    }
  }

  // ----- Unsaved edits -----

  /** Nothing in `a` edits the channel's points or replaces its schedule. */
  predicate LeavesAlone(s: State, a: Action, channel: string) {
    match a
    case AddPoint(c, _, _) => c != channel
    case UpdatePoint(c, _, _, _, _) => c != channel
    case RemovePoint(c, _, _) => c != channel
    case RestorePoints(restored, _) => channel !in restored
    case DiscardAll => false
    case Snapshot(sources, _) =>
      var source := LastSource(sources, channel);
      && source.Some? && channel in s.drafts && source.value.scheduleId == s.drafts[channel].scheduleId
    case _ => true
  }

  /** The server moved the graph to points that are neither the draft nor what the draft started from. */
  predicate Conflicting(d: Draft, source: Source) {
    var incoming := FreshDraft(source).points;
    && source.scheduleId == d.scheduleId && source.graphRevision != d.graphRevision
    && incoming != d.points && incoming != d.baseline
  }

  /** A snapshot for an unchanged schedule leaves a dirty draft's points alone; a new graph flags a conflict
      exactly when it is a conflicting one, and otherwise becomes the baseline. */
  lemma SnapshotRespectsEdits(s: State, sources: seq<Source>, revision: nat, channel: string)
    requires channel in s.drafts && Dirty(s.drafts[channel]) && LeavesAlone(s, Snapshot(sources, revision), channel)
    ensures channel in Synchronized(s, sources, revision).drafts
    ensures var before, source := s.drafts[channel], LastSource(sources, channel).value;
            var after := Synchronized(s, sources, revision).drafts[channel];
            && after.points == before.points
            && (source.graphRevision == before.graphRevision ==> after == before.(pinned := Some(revision)))
            && (Conflicting(before, source) ==> after == before.(conflict := Some(revision)))
            && (source.graphRevision != before.graphRevision && !Conflicting(before, source) ==>
                  && after.conflict == None && after.graphRevision == source.graphRevision
                  && after.baseline == FreshDraft(source).points)
  {
    MergedAt(s, sources, revision, channel);
  }

  lemma StepRespectsEdits(s: State, a: Action, channel: string)
    requires channel in s.drafts && LeavesAlone(s, a, channel)
    ensures channel in Reduce(s, a).drafts
    ensures Dirty(s.drafts[channel]) ==> Reduce(s, a).drafts[channel].points == s.drafts[channel].points
    ensures !a.Snapshot? ==> Reduce(s, a).drafts[channel].points == s.drafts[channel].points
  {
    if a.Snapshot? {
      MergedAt(s, a.sources, a.revision, channel);
    }
  }

  predicate RunLeavesAlone(s: State, actions: seq<Action>, channel: string)
    decreases |actions|
  {
    actions == []
    || (RunLeavesAlone(s, actions[..|actions| - 1], channel)
        && LeavesAlone(After(s, actions[..|actions| - 1]), actions[|actions| - 1], channel))
  }

  /** Unsaved edits are never lost behind the user's back: through any run of snapshots, saves, conflicts
      and work on other channels the points stay as edited, unless at some moment the server's points were
      exactly these. */
  lemma {:induction false} UnsavedEditsSurvive(s: State, actions: seq<Action>, channel: string)
    requires channel in s.drafts && RunLeavesAlone(s, actions, channel)
    ensures channel in After(s, actions).drafts
    ensures After(s, actions).drafts[channel].points == s.drafts[channel].points
      || exists k :: 0 <= k < |actions| && channel in After(s, actions[..k]).drafts
                     && After(s, actions[..k]).drafts[channel].points == s.drafts[channel].points
                     && After(s, actions[..k]).drafts[channel].baseline == s.drafts[channel].points
    decreases |actions|
  {
    if actions != [] {
      var n := |actions| - 1;
      UnsavedEditsSurvive(s, actions[..n], channel);
      StepRespectsEdits(After(s, actions[..n]), actions[n], channel);
      if After(s, actions[..n]).drafts[channel].points != s.drafts[channel].points {
        var k :| 0 <= k < n && channel in After(s, actions[..n][..k]).drafts
                 && After(s, actions[..n][..k]).drafts[channel].points == s.drafts[channel].points
                 && After(s, actions[..n][..k]).drafts[channel].baseline == s.drafts[channel].points;
        assert actions[..n][..k] == actions[..k];
      }
    }
  }

  /** Accepting a conflict does not silence it: the same snapshot raises it again. */
  lemma AcceptedConflictReturns(s: State, sources: seq<Source>, revision: nat, channel: string)
    requires channel in s.drafts && Dirty(s.drafts[channel]) && LastSource(sources, channel).Some?
    requires Conflicting(s.drafts[channel], LastSource(sources, channel).value)
    ensures var accepted := Reduce(Reduce(s, Snapshot(sources, revision)), AcceptConflict(channel, revision));
            && channel in accepted.drafts && accepted.drafts[channel].conflict == None
            && var again := Reduce(accepted, Snapshot(sources, revision));
               channel in again.drafts && again.drafts[channel].conflict == Some(revision)
  {
    MergedAt(s, sources, revision, channel);
    var accepted := Reduce(Reduce(s, Snapshot(sources, revision)), AcceptConflict(channel, revision));
    MergedAt(accepted, sources, revision, channel);
  }

  // ----- Silence about conflicts -----

  predicate Silent(s: State, channel: string) { channel in s.drafts ==> s.drafts[channel].conflict == None }

  /** The actions that raise a conflict: the server's refusal of a revision, and a snapshot that conflicts with
      unsaved edits. */
  predicate Raises(s: State, a: Action, channel: string) {
    match a
    case RevisionConflict(c, _) => c == channel && channel in s.drafts
    case Snapshot(sources, _) =>
      var source := LastSource(sources, channel);
      channel in s.drafts && source.Some? && Dirty(s.drafts[channel]) && Conflicting(s.drafts[channel], source.value)
    case _ => false
  }

  lemma StepSilentIff(s: State, a: Action, channel: string)
    requires Silent(s, channel)
    ensures Silent(Reduce(s, a), channel) <==> !Raises(s, a, channel)
  {
    if a.Snapshot? {
      MergedAt(s, a.sources, a.revision, channel);
    }
  }

  predicate SilentThroughout(s: State, actions: seq<Action>, channel: string)
    decreases |actions|
  {
    Silent(After(s, actions), channel) && (actions != [] ==> SilentThroughout(s, actions[..|actions| - 1], channel))
  }

  predicate NoneRaises(s: State, actions: seq<Action>, channel: string)
    decreases |actions|
  {
    actions != [] ==>
      var rest := actions[..|actions| - 1];
      NoneRaises(s, rest, channel) && !Raises(After(s, rest), actions[|actions| - 1], channel)
  }

  /** A channel without a conflict, as after accepting one, stays without through a run exactly when no action
      of it raises one. */
  lemma {:induction false} SilentThroughoutIff(s: State, actions: seq<Action>, channel: string)
    requires Silent(s, channel)
    ensures SilentThroughout(s, actions, channel) <==> NoneRaises(s, actions, channel)
    decreases |actions|
  {
    if actions == [] {
    } else {
      var rest := actions[..|actions| - 1];
      SilentThroughoutIff(s, rest, channel);
      if Silent(After(s, rest), channel) { StepSilentIff(After(s, rest), actions[|actions| - 1], channel); }
    }
  }

  // ----- Discarding -----

  predicate EditsOnly(a: Action) {
    a.AddPoint? || a.UpdatePoint? || a.RemovePoint? || a.RestorePoints? || a.SelectChannel? || a.SelectPoint?
    || a.AcceptConflict? || a.RevisionConflict? || a.DiscardAll?
  }

  predicate AllEdits(actions: seq<Action>) { forall i :: 0 <= i < |actions| ==> EditsOnly(actions[i]) }

  lemma {:induction false} EditsKeepBaseline(s: State, actions: seq<Action>, channel: string)
    requires channel in s.drafts && AllEdits(actions)
    ensures channel in After(s, actions).drafts
    ensures After(s, actions).drafts[channel].(points := [], pinned := None, conflict := None)
      == s.drafts[channel].(points := [], pinned := None, conflict := None)
    decreases |actions|
  {
    if actions != [] { EditsKeepBaseline(s, actions[..|actions| - 1], channel); }
  }

  /** Discarding undoes any run of edits: an untouched draft is back as it was. */
  lemma DiscardUndoesEdits(s: State, actions: seq<Action>, channel: string)
    requires channel in s.drafts && AllEdits(actions)
    requires var d := s.drafts[channel]; !Dirty(d) && d.pinned == None && d.conflict == None
    ensures channel in Reduce(After(s, actions), DiscardAll).drafts
    ensures Reduce(After(s, actions), DiscardAll).drafts[channel] == s.drafts[channel]
  {
    EditsKeepBaseline(s, actions, channel);
  }

  // ----- Saving and reading back -----

  predicate AllVisible(scheduleId: string, points: seq<DraftPoint>) {
    forall i :: 0 <= i < |points| ==> !IsHidden(scheduleId, points[i])
  }

  predicate AllHidden(scheduleId: string, points: seq<DraftPoint>) {
    forall i :: 0 <= i < |points| ==> IsHidden(scheduleId, points[i])
  }

  lemma {:induction false} VisibleOfSum(scheduleId: string, s: seq<DraftPoint>, t: seq<DraftPoint>)
    ensures Visible(scheduleId, s + t) == Visible(scheduleId, s) + Visible(scheduleId, t)
  {
    if s == [] {
      assert s + t == t;
    } else {
      assert (s + t)[1..] == s[1..] + t;
      VisibleOfSum(scheduleId, s[1..], t);
    }
  }

  lemma {:induction false} VisibleOfUniform(scheduleId: string, points: seq<DraftPoint>)
    ensures AllVisible(scheduleId, points) ==> Visible(scheduleId, points) == points
    ensures AllHidden(scheduleId, points) ==> Visible(scheduleId, points) == []
  {
    if points != [] { VisibleOfUniform(scheduleId, points[1..]); }
  }

  /** Of the points sent, exactly the middle part is read back. */
  lemma VisibleMiddle(scheduleId: string, all: seq<DraftPoint>, k: nat, n: nat)
    requires k + n <= |all|
    requires AllHidden(scheduleId, all[..k]) && AllVisible(scheduleId, all[k..k + n])
      && AllHidden(scheduleId, all[k + n..])
    ensures Visible(scheduleId, all) == all[k..k + n]
  {
    assert all == all[..k] + (all[k..k + n] + all[k + n..]);
    VisibleOfSum(scheduleId, all[..k], all[k..k + n] + all[k + n..]);
    VisibleOfSum(scheduleId, all[k..k + n], all[k + n..]);
    VisibleOfUniform(scheduleId, all[..k]);
    VisibleOfUniform(scheduleId, all[k..k + n]);
    VisibleOfUniform(scheduleId, all[k + n..]);
  }

  lemma MissingAreHidden(d: Draft, logical: seq<DraftPoint>, minute: real, edge: string)
    requires AllHidden(d.scheduleId, d.hidden) && Missing(d, logical, minute, edge).Some?
    ensures AllHidden(d.scheduleId, Missing(d, logical, minute, edge).value)
  {
    AtMinuteIsMember(d.hidden, minute);
  }

  lemma SameButPosition(sorted: seq<DraftPoint>, logical: seq<DraftPoint>)
    requires Normal(logical) && |sorted| == |logical|
    requires forall i :: 0 <= i < |sorted| ==> sorted[i].(position := i) == logical[i]
    ensures Normalize(sorted) == logical
  {
    assert Sorted(sorted) by {
      forall i, j | 0 <= i < j < |sorted| ensures InOrder(sorted[i], sorted[j]) {
        assert InOrder(logical[i], logical[j]);
      }
    }
    SortedIsKept(sorted);
  }

  lemma ShiftedParts(start: seq<DraftPoint>, level: seq<DraftPoint>, end: seq<DraftPoint>)
    ensures var all, k, n := Renumber(start + (level + end)), |start|, |level|;
            && (forall i :: 0 <= i < k ==> all[..k][i].id == start[i].id)
            && (forall i :: 0 <= i < n ==> all[k..k + n][i] == level[i].(position := k + i))
            && (forall i :: 0 <= i < |end| ==> all[k + n..][i].id == end[i].id)
  {
  }

  lemma ReadBackParts(scheduleId: string, start: seq<DraftPoint>, level: seq<DraftPoint>, end: seq<DraftPoint>)
    requires AllHidden(scheduleId, start) && AllVisible(scheduleId, level) && AllHidden(scheduleId, end)
      && Normal(level)
    ensures Normalize(Visible(scheduleId, Renumber(start + (level + end)))) == level
  {
    var all, k, n := Renumber(start + (level + end)), |start|, |level|;
    ShiftedParts(start, level, end);
    VisibleMiddle(scheduleId, all, k, n);
    SameButPosition(all[k..k + n], level);
  }

  /** What is read back after saving: the logical points, levelled at the two edges. */
  lemma ReadBackIsLevelled(d: Draft, source: Source)
    requires ValidPoints(d.points) && Normal(d.points) && Canonicalises(d)
    requires AllHidden(d.scheduleId, d.hidden) && AllVisible(d.scheduleId, d.points)
    requires source.scheduleId == d.scheduleId && source.points == CanonicalPoints(d).value
    ensures FreshDraft(source).points == Levelled(d.points, EdgePercent(Curve(d.points)))
  {
    var logical := d.points;
    NormalIsFixed(logical);
    CanonicalTracesOpened(d);
    MissingAreHidden(d, logical, 0.0, "start");
    MissingAreHidden(d, logical, LAST_MINUTE, "end");
    LevelledSorted(logical, EdgePercent(Curve(logical)));
    ReadBackParts(d.scheduleId, Missing(d, logical, 0.0, "start").value, Levelled(logical, EdgePercent(Curve(logical))),
                  Missing(d, logical, LAST_MINUTE, "end").value);
  }

  lemma LevellingIsNothingIff(logical: seq<DraftPoint>)
    requires Cycle(Curve(logical))
    ensures Levelled(logical, EdgePercent(Curve(logical))) == logical <==> !Clash(Curve(logical))
  {
    var o, n := Curve(logical), |logical|;
    var level := Levelled(logical, EdgePercent(o));
    if Clash(o) {
      assert level[n - 1].percent == o[0].percent;
    } else {
      forall i | 0 <= i < n ensures level[i] == logical[i] {
        assert i > 0 ==> o[0].minute < o[i].minute;
        assert i < n - 1 ==> o[i].minute < o[n - 1].minute;
      }
    }
  }

  /** Round trip through the server: the hidden boundaries vanish again, and the draft gets back exactly its
      own points, hence is clean, if and only if its two edges do not clash. */
  lemma SavedPointsReadBack(d: Draft, source: Source)
    requires ValidPoints(d.points) && Normal(d.points) && Canonicalises(d)
    requires AllHidden(d.scheduleId, d.hidden) && AllVisible(d.scheduleId, d.points)
    requires source.scheduleId == d.scheduleId && source.points == CanonicalPoints(d).value
    ensures FreshDraft(source).points == d.points <==> !Clash(Curve(d.points))
  {
    NormalIsFixed(d.points);
    ValidDraftIsCycle(d.points);
    ReadBackIsLevelled(d, source);
    LevellingIsNothingIff(d.points);
  }
}
