/** What alerts guarantee over whole runs of evaluations and operator actions. */
module AlertSafety {
  import opened AlertModel

  // ----- History -----

  /** The happenings that end a spell of matches. */
  predicate Breaks(h: Happening, key: Key) {
    match h
    case Matched(_, _) => false
    case Unmatched(k, _) => k == key
    case RuleDisabled(ruleId) => ruleId == key.0
    case OperatorRecovered(k) => k == key
  }

  /** When the condition has matched, since the last happening that ended a spell. */
  function Spell(history: seq<Happening>, key: Key): seq<int>
    decreases |history|
  {
    if history == [] then []
    else
      var last, rest := history[|history| - 1], history[..|history| - 1];
      if Breaks(last, key) then []
      else if last.Matched? && last.key == key then Spell(rest, key) + [last.at]
      else Spell(rest, key)
  }

  predicate Ascending(times: seq<int>) { forall i, j :: 0 <= i <= j < |times| ==> times[i] <= times[j] }

  /** A spell spelled out: from its first match on, nothing ended it, and its matches are all there. */
  lemma {:induction false} SpellMeans(history: seq<Happening>, key: Key) returns (start: nat)
    requires Spell(history, key) != []
    ensures start < |history| && history[start] == Matched(key, Spell(history, key)[0])
    ensures forall j :: start <= j < |history| ==> !Breaks(history[j], key)
    ensures forall j :: start <= j < |history| && history[j].Matched? && history[j].key == key ==>
      history[j].at in Spell(history, key)
    decreases |history|
  {
    var n := |history| - 1;
    var last, rest := history[n], history[..n];
    if last.Matched? && last.key == key && Spell(rest, key) == [] {
      start := n;
    } else {
      start := SpellMeans(rest, key);
    }
  }

  lemma SpellNote(history: seq<Happening>, h: Happening, key: Key)
    ensures Spell(history + [h], key)
      == if Breaks(h, key) then []
         else if h.Matched? && h.key == key then Spell(history, key) + [h.at]
         else Spell(history, key)
  {
    assert (history + [h])[..|history|] == history;
  }

  // ----- The invariant -----

  predicate RowOk(c: Config, s: Service, key: Key) {
    key in s.alerts ==>
      var a := s.alerts[key];
      && SnapshotOk(a) && a.id < s.nextId
      && (a.state != Recovered ==> a.lastObservedAt >= a.openedAt + Span(c.interval, a.observations))
      && a.lastObservedAt <= s.latest
      && (a.acknowledgedAt.Some? ==> a.acknowledgedAt.value <= s.latest)
  }

  /** What is pending is a spell of matches, and an active alert has nothing pending. */
  predicate PendingOk(s: Service, key: Key) {
    var spell := Spell(s.history, key);
    && (key in s.pendings ==>
          && !Active(s, key)
          && spell != [] && Ascending(spell)
          && spell[0] == s.pendings[key].since && spell[|spell| - 1] == s.pendings[key].lastObservedAt <= s.latest)
    && (key !in s.pendings && !Active(s, key) ==> spell == [])
  }

  predicate IdsDiffer(s: Service) {
    forall j, k :: j in s.alerts && k in s.alerts && j != k ==> s.alerts[j].id != s.alerts[k].id
  }

  /** `n` intervals. */
  function Span(interval: nat, n: nat): nat { if n == 0 then 0 else interval + Span(interval, n - 1) }

  lemma {:induction false} SpanIsProduct(interval: nat, n: nat)
    ensures Span(interval, n) == interval * n
  {
    if n > 0 {
      SpanIsProduct(interval, n - 1);
      assert interval * n == interval * (n - 1) + interval;
    }
  }

  /** The intents of one transition: one per destination, none for an observation. */
  function OwedFor(c: Config, t: Transition): seq<Delivery> {
    if t.kind == Observed then [] else Intents(c, t.revision, t.kind, t.alertId)
  }

  /** The intents of a history of transitions, in order. */
  function Owed(c: Config, transitions: seq<Transition>): seq<Delivery>
    decreases |transitions|
  {
    if transitions == [] then []
    else Owed(c, transitions[..|transitions| - 1]) + OwedFor(c, transitions[|transitions| - 1])
  }

  /** How many transitions are notified: all but observations. */
  function Notified(transitions: seq<Transition>): nat
    decreases |transitions|
  {
    if transitions == [] then 0
    else Notified(transitions[..|transitions| - 1]) + (if transitions[|transitions| - 1].kind == Observed then 0 else 1)
  }

  lemma {:induction false} OwedCount(c: Config, transitions: seq<Transition>)
    ensures |Owed(c, transitions)| == |c.destinations| * Notified(transitions)
    decreases |transitions|
  {
    if transitions != [] {
      var rest := transitions[..|transitions| - 1];
      OwedCount(c, rest);
      assert |c.destinations| * (Notified(rest) + 1) == |c.destinations| * Notified(rest) + |c.destinations|;
    }
  }

  /** Every intent has its own deduplication key, the revision and the destination. */
  predicate DistinctIntents(deliveries: seq<Delivery>) {
    forall i, j :: 0 <= i < j < |deliveries| ==>
      (deliveries[i].revision, deliveries[i].destination) != (deliveries[j].revision, deliveries[j].destination)
  }

  predicate DeliveriesUpTo(deliveries: seq<Delivery>, revision: nat) {
    forall i :: 0 <= i < |deliveries| ==> deliveries[i].revision <= revision
  }

  predicate TransitionsUpTo(transitions: seq<Transition>, revision: nat) {
    && (forall i :: 0 <= i < |transitions| ==> transitions[i].revision <= revision)
    && (forall i, j :: 0 <= i < j < |transitions| ==> transitions[i].revision < transitions[j].revision)
  }

  predicate IntentsUpTo(c: Config, deliveries: seq<Delivery>, transitions: seq<Transition>, revision: nat) {
    && deliveries == Owed(c, transitions)
    && DistinctIntents(deliveries)
    && DeliveriesUpTo(deliveries, revision)
    && TransitionsUpTo(transitions, revision)
  }

  predicate IntentsOk(c: Config, s: Service) {
    IntentsUpTo(c, s.deliveries, s.transitions, s.revision) && s.floor <= s.revision
  }

  ghost predicate Valid(c: Config, s: Service) {
    && (forall key: Key :: RowOk(c, s, key))
    && (forall key: Key :: PendingOk(s, key))
    && IdsDiffer(s)
    && IntentsOk(c, s)
  }

  predicate ValidConfig(c: Config) {
    forall i, j :: 0 <= i < j < |c.destinations| ==> c.destinations[i] != c.destinations[j]
  }

  // ----- Notification intents -----

  lemma OwedSnoc(c: Config, transitions: seq<Transition>, t: Transition)
    ensures Owed(c, transitions + [t]) == Owed(c, transitions) + OwedFor(c, t)
  {
    assert (transitions + [t])[..|transitions|] == transitions;
  }

  lemma IntentsStayDistinct(c: Config, deliveries: seq<Delivery>, t: Transition)
    requires ValidConfig(c) && DistinctIntents(deliveries) && t.revision > 0
      && DeliveriesUpTo(deliveries, t.revision - 1)
    ensures DistinctIntents(deliveries + OwedFor(c, t)) && DeliveriesUpTo(deliveries + OwedFor(c, t), t.revision)
  {
  }

  lemma TransitionsStayOrdered(transitions: seq<Transition>, t: Transition)
    requires t.revision > 0 && TransitionsUpTo(transitions, t.revision - 1)
    ensures TransitionsUpTo(transitions + [t], t.revision)
  {
  }

  lemma OneMoreTransition(c: Config, deliveries: seq<Delivery>, transitions: seq<Transition>, t: Transition)
    requires ValidConfig(c) && t.revision > 0 && IntentsUpTo(c, deliveries, transitions, t.revision - 1)
    ensures IntentsUpTo(c, deliveries + OwedFor(c, t), transitions + [t], t.revision)
  {
    OwedSnoc(c, transitions, t);
    IntentsStayDistinct(c, deliveries, t);
    TransitionsStayOrdered(transitions, t);
  }

  lemma CommitAppends(c: Config, s: Service, key: Key, alert: Alert, kind: Kind, at: int, delay: nat := 0)
    ensures var s' := Commit(c, s, key, alert, kind, at, delay);
            var t := Transition(s.revision + 1, key, kind, alert.id, at, |s.history|, delay);
            && s'.deliveries == s.deliveries + OwedFor(c, t) && s'.transitions == s.transitions + [t]
            && s'.revision == t.revision && s'.floor == s.floor
  {
  }

  /** Each commit takes a fresh revision and, unless it is an observation, one intent per destination. */
  lemma CommitKeepsIntents(c: Config, s: Service, key: Key, alert: Alert, kind: Kind, at: int, delay: nat := 0)
    requires ValidConfig(c) && IntentsOk(c, s)
    ensures IntentsOk(c, Commit(c, s, key, alert, kind, at, delay))
  {
    CommitAppends(c, s, key, alert, kind, at, delay);
    OneMoreTransition(c, s.deliveries, s.transitions,
      Transition(s.revision + 1, key, kind, alert.id, at, |s.history|, delay));
  }

  // ----- Changes of one key -----

  predicate SameAt(s: Service, s': Service, k: Key) {
    && (k in s'.alerts <==> k in s.alerts) && (k in s.alerts ==> s'.alerts[k] == s.alerts[k])
    && (k in s'.pendings <==> k in s.pendings) && (k in s.pendings ==> s'.pendings[k] == s.pendings[k])
    && Spell(s'.history, k) == Spell(s.history, k)
  }

  /** Changing one key's rows and history keeps everything, if that key and the intents are in order. */
  lemma KeyChanged(c: Config, s: Service, s': Service, key: Key)
    requires Valid(c, s) && s.latest <= s'.latest && s.nextId <= s'.nextId
    requires forall k: Key :: k != key ==> SameAt(s, s', k)
    requires RowOk(c, s', key) && PendingOk(s', key) && IntentsOk(c, s')
    requires key in s'.alerts
      ==> (key in s.alerts && s'.alerts[key].id == s.alerts[key].id) || s'.alerts[key].id == s.nextId
    ensures Valid(c, s')
  {
    forall k: Key ensures RowOk(c, s', k) && PendingOk(s', k) {
      assert RowOk(c, s, k) && PendingOk(s, k);
      assert k != key ==> SameAt(s, s', k);
    }
    forall j, k | j in s'.alerts && k in s'.alerts && j != k ensures s'.alerts[j].id != s'.alerts[k].id {
      assert (j != key ==> SameAt(s, s', j)) && (k != key ==> SameAt(s, s', k));
      assert RowOk(c, s, j) && RowOk(c, s, k);
    }
  }

  lemma NoteOthers(s: Service, s': Service, h: Happening, key: Key)
    requires (h.Matched? || h.Unmatched? || h.OperatorRecovered?) && h.key == key
    requires s'.history == s.history + [h]
    requires forall k: Key :: k != key ==>
      && (k in s'.alerts <==> k in s.alerts) && (k in s.alerts ==> s'.alerts[k] == s.alerts[k])
      && (k in s'.pendings <==> k in s.pendings) && (k in s.pendings ==> s'.pendings[k] == s.pendings[k])
    ensures forall k: Key :: k != key ==> SameAt(s, s', k)
  {
    forall k: Key | k != key ensures SameAt(s, s', k) { SpellNote(s.history, h, k); }
  }

  lemma NoteKeepsIntents(c: Config, s: Service, h: Happening)
    requires IntentsOk(c, s)
    ensures IntentsOk(c, Note(s, h))
  {
  }

  /** A recovery, by a clear evaluation or by the operator. */
  lemma RecoveredKeeps(c: Config, s: Service, h: Happening, key: Key, now: int)
    requires ValidConfig(c) && Valid(c, s) && Active(s, key) && SnapshotOk(RecoveredAlert(s.alerts[key], now))
    requires h == Unmatched(key, now) || (h == OperatorRecovered(key) && now >= s.alerts[key].lastObservedAt)
    ensures Valid(c, Commit(c, Note(s, h), key, RecoveredAlert(s.alerts[key], now), RecoveredNow, now))
  {
    var next := RecoveredAlert(s.alerts[key], now);
    var s' := Commit(c, Note(s, h), key, next, RecoveredNow, now);
    NoteKeepsIntents(c, s, h);
    CommitKeepsIntents(c, Note(s, h), key, next, RecoveredNow, now);
    RecoveredRow(c, s, h, key, now);
    NoteOthers(s, s', h, key);
    KeyChanged(c, s, s', key);
  }

  lemma RecoveredRow(c: Config, s: Service, h: Happening, key: Key, now: int)
    requires RowOk(c, s, key) && Active(s, key) && SnapshotOk(RecoveredAlert(s.alerts[key], now)) && Breaks(h, key)
    ensures var s' := Commit(c, Note(s, h), key, RecoveredAlert(s.alerts[key], now), RecoveredNow, now);
            RowOk(c, s', key) && PendingOk(s', key)
  {
    SpellNote(s.history, h, key);
  }

  lemma ClearedKeeps(c: Config, s: Service, key: Key, now: int)
    requires ValidConfig(c) && Valid(c, s)
    ensures Valid(c, ConditionCleared(c, s, key, now).0)
  {
    var h := Unmatched(key, now);
    if !Active(s, key) {
      var s' := DropPending(Note(s, h), key);
      assert RowOk(c, s, key) && PendingOk(s, key);
      SpellNote(s.history, h, key);
      NoteOthers(s, s', h, key);
      KeyChanged(c, s, s', key);
    } else if SnapshotOk(RecoveredAlert(s.alerts[key], now)) {
      RecoveredKeeps(c, s, h, key, now);
    }
  }

  lemma NothingPending(c: Config, s: Service, key: Key)
    requires Valid(c, s) && Active(s, key)
    ensures key !in s.pendings && DropPending(s, key) == s
  {
    assert PendingOk(s, key);
    assert s.pendings - {key} == s.pendings;
  }

  lemma ObservedKeeps(c: Config, s: Service, key: Key, now: int)
    requires ValidConfig(c) && Valid(c, s) && Active(s, key)
    requires now - s.alerts[key].lastObservedAt >= c.interval && now > s.alerts[key].lastObservedAt
    ensures var a := s.alerts[key];
            var next := a.(lastObservedAt := now, observations := a.observations + 1);
            Valid(c, Commit(c, Note(s, Matched(key, now)), key, next, Observed, now))
  {
    var a, h := s.alerts[key], Matched(key, now);
    var next := a.(lastObservedAt := now, observations := a.observations + 1);
    var s' := Commit(c, Note(s, h), key, next, Observed, now);
    assert RowOk(c, s, key) && PendingOk(s, key);
    CommitKeepsIntents(c, Note(s, h), key, next, Observed, now);
    NoteOthers(s, s', h, key);
    KeyChanged(c, s, s', key);
  }

  lemma NotedKeeps(c: Config, s: Service, key: Key, now: int)
    requires ValidConfig(c) && Valid(c, s) && Active(s, key)
    ensures Valid(c, Note(s, Matched(key, now)))
  {
    var h := Matched(key, now);
    assert RowOk(c, s, key) && PendingOk(s, key);
    NoteKeepsIntents(c, s, h);
    NoteOthers(s, Note(s, h), h, key);
    KeyChanged(c, s, Note(s, h), key);
  }

  lemma ContinuesKeeps(c: Config, s: Service, key: Key, now: int)
    requires ValidConfig(c) && Valid(c, s) && Active(s, key)
    ensures Valid(c, ConditionContinues(c, s, key, now).0)
  {
    var a := s.alerts[key];
    NothingPending(c, s, key);
    if now >= a.lastObservedAt {
      if now == a.lastObservedAt || now - a.lastObservedAt < c.interval {
        NotedKeeps(c, s, key, now);
      } else {
        ObservedKeeps(c, s, key, now);
      }
    }
  }

  lemma SpellGrows(spell: seq<int>, now: int)
    requires Ascending(spell) && (spell != [] ==> spell[|spell| - 1] <= now)
    ensures Ascending(spell + [now])
  {
  }

  /** The pending condition records the first and the last match of the spell. */
  lemma PendedSpell(c: Config, s: Service, key: Key, now: int)
    requires Valid(c, s) && !Active(s, key) && Pended(s, key, now).Some?
    ensures var spell, p := Spell(s.history + [Matched(key, now)], key), Pended(s, key, now).value;
            && Ascending(spell) && spell != [] && spell[0] == p.since && spell[|spell| - 1] == p.lastObservedAt == now
  {
    assert PendingOk(s, key);
    SpellNote(s.history, Matched(key, now), key);
    SpellGrows(Spell(s.history, key), now);
  }

  lemma StillPendingKeeps(c: Config, s: Service, key: Key, now: int)
    requires ValidConfig(c) && Valid(c, s) && !Active(s, key) && Pended(s, key, now).Some?
    ensures Valid(c, Note(s.(pendings := s.pendings[key := Pended(s, key, now).value]), Matched(key, now)))
  {
    var h := Matched(key, now);
    var s' := Note(s.(pendings := s.pendings[key := Pended(s, key, now).value]), h);
    assert RowOk(c, s, key);
    PendedSpell(c, s, key, now);
    NoteOthers(s, s', h, key);
    KeyChanged(c, s, s', key);
  }

  lemma CommitOthers(c: Config, s: Service, key: Key, alert: Alert, kind: Kind, at: int, delay: nat := 0)
    ensures forall k: Key :: k != key ==> SameAt(s, Commit(c, s, key, alert, kind, at, delay), k)
  {
  }

  lemma OpenedRow(c: Config, s: Service, key: Key, now: int, delay: nat)
    requires RowOk(c, s, key) && now >= 0
    ensures RowOk(c, CommitOpen(c, s, key, now, delay), key) && PendingOk(CommitOpen(c, s, key, now, delay), key)
    ensures var s' := CommitOpen(c, s, key, now, delay);
            key in s'.alerts && s'.alerts[key].id == (if key in s.alerts then s.alerts[key].id else s.nextId)
  {
  }

  lemma OpenedOthers(c: Config, s: Service, key: Key, now: int, delay: nat)
    ensures forall k: Key :: k != key ==> SameAt(s, CommitOpen(c, s, key, now, delay), k)
    ensures s.latest <= CommitOpen(c, s, key, now, delay).latest && s.nextId <= CommitOpen(c, s, key, now, delay).nextId
  {
  }

  lemma NumberedIntents(c: Config, s: Service, key: Key)
    requires IntentsOk(c, s)
    ensures IntentsOk(c, Numbered(s, key))
  {
  }

  lemma OpenedIntents(c: Config, s: Service, key: Key, now: int, delay: nat)
    requires ValidConfig(c) && IntentsOk(c, s)
    ensures IntentsOk(c, CommitOpen(c, s, key, now, delay))
  {
    NumberedIntents(c, s, key);
    CommitKeepsIntents(c, Numbered(s, key), key, OpenAlert(s, key, now), OpenKind(s, key), now, delay);
  }

  lemma OpenKeeps(c: Config, s: Service, key: Key, now: int, delay: nat)
    requires ValidConfig(c) && Valid(c, s) && !Active(s, key) && now >= 0
    ensures Valid(c, CommitOpen(c, s, key, now, delay))
  {
    assert RowOk(c, s, key);
    OpenedRow(c, s, key, now, delay);
    OpenedOthers(c, s, key, now, delay);
    OpenedIntents(c, s, key, now, delay);
    KeyChanged(c, s, CommitOpen(c, s, key, now, delay), key);
  }

  lemma MatchesKeeps(c: Config, s: Service, rule: Rule, key: Key, now: int)
    requires ValidConfig(c) && Valid(c, s) && !Active(s, key) && now >= 0
    ensures Valid(c, ConditionMatches(c, s, rule, key, now).0)
  {
    if Pended(s, key, now).Some? {
      StillPendingKeeps(c, s, key, now);
      OpenKeeps(c, Note(s.(pendings := s.pendings[key := Pended(s, key, now).value]), Matched(key, now)), key, now,
        rule.delayMs);
    }
  }

  lemma RuleKeeps(c: Config, s: Service, rule: Rule, key: Key, matches: bool, now: int)
    requires ValidConfig(c) && Valid(c, s) && now >= 0
    ensures Valid(c, EvaluateRule(c, s, rule, key, matches, now).0)
  {
    if !matches {
      ClearedKeeps(c, s, key, now);
    } else if Active(s, key) {
      ContinuesKeeps(c, s, key, now);
    } else {
      MatchesKeeps(c, s, rule, key, now);
    }
  }

  // ----- Whole observations and operator actions -----

  lemma DropRuleKeeps(c: Config, s: Service, ruleId: string)
    requires Valid(c, s)
    ensures Valid(c, DropRule(s, ruleId))
  {
    var s' := DropRule(s, ruleId);
    forall k: Key ensures RowOk(c, s', k) && PendingOk(s', k) {
      assert RowOk(c, s, k) && PendingOk(s, k);
      SpellNote(s.history, RuleDisabled(ruleId), k);
    }
  }

  lemma {:induction false} DropDisabledKeeps(c: Config, s: Service, rules: seq<Rule>)
    requires Valid(c, s)
    ensures Valid(c, DropDisabled(s, rules))
    decreases |rules|
  {
    if rules != [] {
      DropDisabledKeeps(c, s, rules[..|rules| - 1]);
      DropRuleKeeps(c, DropDisabled(s, rules[..|rules| - 1]), rules[|rules| - 1].id);
    }
  }

  lemma {:induction false} AllKeep(c: Config, s: Service, rules: seq<Rule>, o: Observation, dedup: string, now: int)
    requires ValidConfig(c) && Valid(c, s) && AllValid(rules, o) && now >= 0
    ensures Valid(c, EvaluateAll(c, s, rules, o, dedup, now).0)
    decreases |rules|
  {
    if rules != [] {
      var n := |rules| - 1;
      AllKeep(c, s, rules[..n], o, dedup, now);
      var (rest, error) := EvaluateAll(c, s, rules[..n], o, dedup, now);
      if error.None? && rules[n].enabled {
        RuleKeeps(c, rest, rules[n], (rules[n].id, dedup), Matches(rules[n], o).value, now);
      }
    }
  }

  lemma EvaluateKeeps(c: Config, s: Service, rules: seq<Rule>, o: Observation, dedup: string, now: int)
    requires ValidConfig(c) && Valid(c, s)
    ensures Valid(c, Evaluate(c, s, rules, o, dedup, now).0)
  {
    if now >= 0 && AllValid(rules, o) {
      DropDisabledKeeps(c, s, rules);
      AllKeep(c, DropDisabled(s, rules), rules, o, dedup, now);
    }
  }

  lemma AcknowledgementKeeps(c: Config, s: Service, key: Key, now: int)
    requires ValidConfig(c) && Valid(c, s) && key in s.alerts && s.alerts[key].state == Open
      && now >= s.alerts[key].lastObservedAt
    ensures Valid(c, CommitAcknowledgement(c, s, key, now))
  {
    var s' := CommitAcknowledgement(c, s, key, now);
    assert RowOk(c, s, key) && PendingOk(s, key);
    CommitKeepsIntents(c, s, key, AcknowledgedAlert(s.alerts[key], now), AcknowledgedNow, now);
    CommitOthers(c, s, key, AcknowledgedAlert(s.alerts[key], now), AcknowledgedNow, now);
    KeyChanged(c, s, s', key);
  }

  lemma AcknowledgeKeeps(c: Config, s: Service, key: Key, now: int)
    requires ValidConfig(c) && Valid(c, s)
    ensures Valid(c, Acknowledge(c, s, key, now).0)
  {
    if now >= 0 && key in s.alerts && s.alerts[key].state == Open && now >= s.alerts[key].lastObservedAt {
      AcknowledgementKeeps(c, s, key, now);
    }
  }

  lemma RecoverKeeps(c: Config, s: Service, key: Key, now: int)
    requires ValidConfig(c) && Valid(c, s)
    ensures Valid(c, Recover(c, s, key, now).0)
  {
    if Recover(c, s, key, now).0 != s { RecoveredKeeps(c, s, OperatorRecovered(key), key, now); }
  }

  lemma AcknowledgeAtRevisionKeeps(c: Config, s: Service, key: Key, expected: nat, now: int)
    requires ValidConfig(c) && Valid(c, s)
    ensures Valid(c, AcknowledgeAtRevision(c, s, key, expected, now).0)
  {
    AcknowledgeKeeps(c, s, key, now);
    var next := Acknowledge(c, s, key, now).0;
    FloorIsFree(c, next, next.revision);
  }

  lemma FloorIsFree(c: Config, s: Service, floor: nat)
    requires Valid(c, s) && floor <= s.revision
    ensures Valid(c, s.(floor := floor))
  {
    var s' := s.(floor := floor);
    forall k: Key ensures RowOk(c, s', k) && PendingOk(s', k) { assert RowOk(c, s, k) && PendingOk(s, k); }
  }

  lemma OtherCommitKeeps(c: Config, s: Service, operator: bool)
    requires Valid(c, s)
    ensures Valid(c, OtherCommit(s, operator))
  {
    var s' := OtherCommit(s, operator);
    forall k: Key ensures RowOk(c, s', k) && PendingOk(s', k) { assert RowOk(c, s, k) && PendingOk(s, k); }
  }

  // ----- Runs -----

  datatype Op =
    | EvaluateOp(rules: seq<Rule>, observation: Observation, dedup: string, now: int)
    | AcknowledgeOp(key: Key, now: int)
    | AcknowledgeAtOp(key: Key, expected: nat, now: int)
    | RecoverOp(key: Key, now: int)
    | OtherOp(operator: bool)

  function Apply(c: Config, s: Service, op: Op): Service {
    match op
    case EvaluateOp(rules, o, dedup, now) => Evaluate(c, s, rules, o, dedup, now).0
    case AcknowledgeOp(key, now) => Acknowledge(c, s, key, now).0
    case AcknowledgeAtOp(key, expected, now) => AcknowledgeAtRevision(c, s, key, expected, now).0
    case RecoverOp(key, now) => Recover(c, s, key, now).0
    case OtherOp(operator) => OtherCommit(s, operator)
  }

  lemma ApplyKeeps(c: Config, s: Service, op: Op)
    requires ValidConfig(c) && Valid(c, s)
    ensures Valid(c, Apply(c, s, op))
  {
    match op
    case EvaluateOp(rules, o, dedup, now) => EvaluateKeeps(c, s, rules, o, dedup, now);
    case AcknowledgeOp(key, now) => AcknowledgeKeeps(c, s, key, now);
    case AcknowledgeAtOp(key, expected, now) => AcknowledgeAtRevisionKeeps(c, s, key, expected, now);
    case RecoverOp(key, now) => RecoverKeeps(c, s, key, now);
    case OtherOp(operator) => OtherCommitKeeps(c, s, operator);
  }

  function Run(c: Config, s: Service, ops: seq<Op>): Service
    decreases |ops|
  {
    if ops == [] then s else Apply(c, Run(c, s, ops[..|ops| - 1]), ops[|ops| - 1])
  }

  const EMPTY := Service(map[], map[], 0, 0, [], [], 0, [], 0)

  /** Over every run, with any clock and any failures: rows satisfy the schema, nothing is pending for an
      active alert, pending conditions are true spells, intents are complete and distinct. */
  lemma {:induction false} EveryRunIsValid(c: Config, ops: seq<Op>)
    requires ValidConfig(c)
    ensures Valid(c, Run(c, EMPTY, ops))
    decreases |ops|
  {
    if ops == [] {
    } else {
      EveryRunIsValid(c, ops[..|ops| - 1]);
      ApplyKeeps(c, Run(c, EMPTY, ops[..|ops| - 1]), ops[|ops| - 1]);
    }
  }

  /** Over every run the intents are exactly one per destination for each transition but observations, in
      order, and no two share a revision and a destination. */
  lemma IntentsAreOwed(c: Config, ops: seq<Op>)
    requires ValidConfig(c)
    ensures var s := Run(c, EMPTY, ops);
            && s.deliveries == Owed(c, s.transitions)
            && |s.deliveries| == |c.destinations| * Notified(s.transitions)
            && DistinctIntents(s.deliveries) && TransitionsUpTo(s.transitions, s.revision)
  {
    EveryRunIsValid(c, ops);
    OwedCount(c, Run(c, EMPTY, ops).transitions);
  }

  // ----- When alerts open -----

  predicate Opens(d: Decision) { d == Transitioned(Opened) || d == Transitioned(Reopened) }

  /** An alert opens or reopens exactly when its condition has now matched for at least the rule's delay,
      counted from the first match since the last clear, recovery or disabled evaluation. */
  lemma OpensExactlyWhenDue(c: Config, s: Service, rule: Rule, key: Key, matches: bool, now: int)
    requires Valid(c, s)
    ensures var (s', decision) := EvaluateRule(c, s, rule, key, matches, now);
            var spell := Spell(s.history + [Matched(key, now)], key);
            && spell != []
            && (Opens(decision) <==>
                  && matches && !Active(s, key) && now - spell[0] >= rule.delayMs
                  && (key in s.pendings ==> s.pendings[key].lastObservedAt <= now))
            && (Opens(decision) ==> Ascending(spell) && s'.history == s.history + [Matched(key, now)])
  {
    SpellNote(s.history, Matched(key, now), key);
    if matches && !Active(s, key) && Pended(s, key, now).Some? { PendedSpell(c, s, key, now); }
  }

  /** The same, spelled out over the history: from some match at least the delay ago on, nothing cleared the
      condition, disabled the rule or recovered the alert, and every evaluation of the rule and key matched. */
  lemma OpenedAfterUnbrokenMatches(c: Config, s: Service, rule: Rule, key: Key, matches: bool, now: int)
    returns (start: nat)
    requires Valid(c, s) && Opens(EvaluateRule(c, s, rule, key, matches, now).1)
    ensures var history := EvaluateRule(c, s, rule, key, matches, now).0.history;
            && start < |history| && history[start].Matched? && history[start].key == key
            && now - history[start].at >= rule.delayMs
            && (forall j :: start <= j < |history| ==> !Breaks(history[j], key))
            && (forall j :: start <= j < |history| && history[j].Matched? && history[j].key == key ==>
                  history[start].at <= history[j].at <= now)
  {
    OpensExactlyWhenDue(c, s, rule, key, matches, now);
    var history := s.history + [Matched(key, now)];
    var spell := Spell(history, key);
    SpellNote(s.history, Matched(key, now), key);
    start := SpellMeans(history, key);
    forall j | start <= j < |history| && history[j].Matched? && history[j].key == key
      ensures spell[0] <= history[j].at <= now
    {
      var i :| 0 <= i < |spell| && spell[i] == history[j].at;
      assert spell[|spell| - 1] == now;
    }
  }

  // ----- Every opening of every run -----

  predicate IsOpening(t: Transition) { t.kind == Opened || t.kind == Reopened }

  /** An opening ends an unbroken spell of matches that lasted for the delay. */
  predicate WasDue(history: seq<Happening>, t: Transition) {
    IsOpening(t) ==>
      && t.seen <= |history|
      && var spell := Spell(history[..t.seen], t.key);
         spell != [] && Ascending(spell) && spell[|spell| - 1] == t.at && t.at - spell[0] >= t.delay
  }

  /** History and transitions only grow, and every new opening was due. */
  predicate Grows(s: Service, s': Service) {
    && s.history <= s'.history && s.transitions <= s'.transitions
    && forall i :: |s.transitions| <= i < |s'.transitions| ==> WasDue(s'.history, s'.transitions[i])
  }

  lemma StillDue(history: seq<Happening>, more: seq<Happening>, t: Transition)
    requires history <= more && WasDue(history, t)
    ensures WasDue(more, t)
  {
    if IsOpening(t) { assert more[..t.seen] == history[..t.seen]; }
  }

  lemma GrowsOn(s: Service, s1: Service, s2: Service)
    requires Grows(s, s1) && Grows(s1, s2)
    ensures Grows(s, s2)
  {
    forall i | |s.transitions| <= i < |s2.transitions| ensures WasDue(s2.history, s2.transitions[i]) {
      if i < |s1.transitions| {
        assert s2.transitions[i] == s1.transitions[i];
        StillDue(s1.history, s2.history, s1.transitions[i]);
      }
    }
  }

  lemma OpeningWasDue(c: Config, s: Service, rule: Rule, key: Key, now: int)
    requires Valid(c, s) && !Active(s, key) && Pended(s, key, now).Some?
      && now - Pended(s, key, now).value.since >= rule.delayMs
    ensures Grows(s, ConditionMatches(c, s, rule, key, now).0)
  {
    var history := s.history + [Matched(key, now)];
    PendedSpell(c, s, key, now);
    assert history[..|history|] == history;
  }

  lemma RuleGrows(c: Config, s: Service, rule: Rule, key: Key, matches: bool, now: int)
    requires Valid(c, s)
    ensures Grows(s, EvaluateRule(c, s, rule, key, matches, now).0)
  {
    if matches && !Active(s, key) && Pended(s, key, now).Some?
      && now - Pended(s, key, now).value.since >= rule.delayMs {
      OpeningWasDue(c, s, rule, key, now);
    }
  }

  lemma {:induction false} DropDisabledGrows(s: Service, rules: seq<Rule>)
    ensures Grows(s, DropDisabled(s, rules))
    decreases |rules|
  {
    if rules != [] {
      var rest := DropDisabled(s, rules[..|rules| - 1]);
      DropDisabledGrows(s, rules[..|rules| - 1]);
      GrowsOn(s, rest, DropRule(rest, rules[|rules| - 1].id));
    }
  }

  lemma {:induction false} AllGrow(c: Config, s: Service, rules: seq<Rule>, o: Observation, dedup: string, now: int)
    requires ValidConfig(c) && Valid(c, s) && AllValid(rules, o) && now >= 0
    ensures Grows(s, EvaluateAll(c, s, rules, o, dedup, now).0)
    decreases |rules|
  {
    if rules != [] {
      var n := |rules| - 1;
      var (rest, error) := EvaluateAll(c, s, rules[..n], o, dedup, now);
      AllGrow(c, s, rules[..n], o, dedup, now);
      AllKeep(c, s, rules[..n], o, dedup, now);
      if error.None? && rules[n].enabled {
        var key, matches := (rules[n].id, dedup), Matches(rules[n], o).value;
        RuleGrows(c, rest, rules[n], key, matches, now);
        GrowsOn(s, rest, EvaluateRule(c, rest, rules[n], key, matches, now).0);
      }
    }
  }

  lemma ApplyGrows(c: Config, s: Service, op: Op)
    requires ValidConfig(c) && Valid(c, s)
    ensures Grows(s, Apply(c, s, op))
  {
    match op
    case EvaluateOp(rules, o, dedup, now) =>
      if now >= 0 && AllValid(rules, o) {
        var dropped := DropDisabled(s, rules);
        DropDisabledKeeps(c, s, rules);
        DropDisabledGrows(s, rules);
        AllGrow(c, dropped, rules, o, dedup, now);
        GrowsOn(s, dropped, EvaluateAll(c, dropped, rules, o, dedup, now).0);
      }
    case _ =>
  }

  lemma {:induction false} RunGrows(c: Config, ops: seq<Op>)
    requires ValidConfig(c)
    ensures Grows(EMPTY, Run(c, EMPTY, ops))
    decreases |ops|
  {
    if ops != [] {
      var s := Run(c, EMPTY, ops[..|ops| - 1]);
      RunGrows(c, ops[..|ops| - 1]);
      EveryRunIsValid(c, ops[..|ops| - 1]);
      ApplyGrows(c, s, ops[|ops| - 1]);
      GrowsOn(EMPTY, s, Apply(c, s, ops[|ops| - 1]));
    }
  }

  /** Every opening and reopening recorded in any run, with any clock and any failures: at some point at least
      the rule's delay earlier its condition matched, and from there to the opening nothing cleared the
      condition, disabled the rule or recovered the alert, and every evaluation of the rule and key matched. */
  lemma EveryOpeningWasDue(c: Config, ops: seq<Op>, i: nat) returns (start: nat)
    requires ValidConfig(c) && i < |Run(c, EMPTY, ops).transitions| && IsOpening(Run(c, EMPTY, ops).transitions[i])
    ensures var history, t := Run(c, EMPTY, ops).history, Run(c, EMPTY, ops).transitions[i];
            && start < t.seen <= |history|
            && history[start].Matched? && history[start].key == t.key && t.at - history[start].at >= t.delay
            && (forall j :: start <= j < t.seen ==> !Breaks(history[j], t.key))
            && (forall j :: start <= j < t.seen && history[j].Matched? && history[j].key == t.key ==>
                  history[start].at <= history[j].at <= t.at)
  {
    var history, t := Run(c, EMPTY, ops).history, Run(c, EMPTY, ops).transitions[i];
    RunGrows(c, ops);
    assert WasDue(history, t);
    start := SpellMeans(history[..t.seen], t.key);
    forall j | start <= j < t.seen && history[j].Matched? && history[j].key == t.key
      ensures history[start].at <= history[j].at <= t.at
    {
      var spell := Spell(history[..t.seen], t.key);
      assert history[..t.seen][j].at in spell;
      var k :| 0 <= k < |spell| && spell[k] == history[j].at;
    }
  }
}
