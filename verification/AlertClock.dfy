/** How far apart an alert's observations are, and what the clock has to do with it. */
module AlertClock {
  import opened Options
  import opened AlertModel
  import opened AlertSafety

  /** Clearing moves an active alert's last observation back exactly when the clock has gone back to a time
      that is still not before the alert's opening and acknowledgement. */
  lemma ClearMovesBackIff(c: Config, s: Service, key: Key, now: int)
    requires Valid(c, s) && Active(s, key)
    ensures var a, s' := s.alerts[key], ConditionCleared(c, s, key, now).0;
            && key in s'.alerts
            && (s'.alerts[key].lastObservedAt < a.lastObservedAt <==>
                  a.openedAt <= now < a.lastObservedAt && (a.acknowledgedAt.Some? ==> a.acknowledgedAt.value <= now))
  {
    assert RowOk(c, s, key);
  }

  /** The observation bound, for recovered alerts too. */
  predicate BoundOk(c: Config, s: Service, key: Key) {
    key in s.alerts ==>
      var a := s.alerts[key]; a.lastObservedAt >= a.openedAt + Span(c.interval, a.observations)
  }

  ghost predicate AllBounded(c: Config, s: Service) { forall key: Key :: BoundOk(c, s, key) }

  // ----- Exactly which evaluations keep the bound -----

  /** A clear that keeps the bound: it comes late enough after the opening, or the schema refuses it because
      it comes before the opening or the acknowledgement. */
  predicate ClearIsSpaced(c: Config, a: Alert, now: int) {
    || now >= a.openedAt + Span(c.interval, a.observations)
    || now < a.openedAt
    || (a.acknowledgedAt.Some? && now < a.acknowledgedAt.value)
  }

  predicate RuleIsSpaced(c: Config, s: Service, key: Key, matches: bool, now: int) {
    !matches && Active(s, key) ==> ClearIsSpaced(c, s.alerts[key], now)
  }

  /** One evaluation, with any clock: only a clear of an active alert can break the bound, and it does exactly
      when it is not spaced. */
  lemma RuleBoundedIff(c: Config, s: Service, rule: Rule, key: Key, matches: bool, now: int)
    requires Valid(c, s) && AllBounded(c, s)
    ensures AllBounded(c, EvaluateRule(c, s, rule, key, matches, now).0) <==> RuleIsSpaced(c, s, key, matches, now)
  {
    var s' := EvaluateRule(c, s, rule, key, matches, now).0;
    assert RowOk(c, s, key) && BoundOk(c, s, key);
    assert BoundOk(c, s', key) <==> RuleIsSpaced(c, s, key, matches, now);
    forall k: Key | k != key ensures BoundOk(c, s', k) { assert BoundOk(c, s, k); }
  }

  /** The operator's actions keep it, whatever the clock says. */
  lemma OperatorKeepsBound(c: Config, s: Service, key: Key, expected: nat, now: int)
    requires Valid(c, s) && AllBounded(c, s)
    ensures AllBounded(c, Acknowledge(c, s, key, now).0) && AllBounded(c, Recover(c, s, key, now).0)
    ensures AllBounded(c, AcknowledgeAtRevision(c, s, key, expected, now).0)
  {
    assert RowOk(c, s, key) && BoundOk(c, s, key);
    forall k: Key
      ensures BoundOk(c, Acknowledge(c, s, key, now).0, k) && BoundOk(c, Recover(c, s, key, now).0, k)
      ensures BoundOk(c, AcknowledgeAtRevision(c, s, key, expected, now).0, k)
    {
      assert BoundOk(c, s, k);
    }
  }

  /** The bound holds after each of the rules an observation evaluates. */
  ghost predicate RulesBounded(c: Config, s: Service, rules: seq<Rule>, o: Observation, dedup: string, now: int)
    requires AllValid(rules, o)
    decreases |rules|
  {
    && AllBounded(c, EvaluateAll(c, s, rules, o, dedup, now).0)
    && (rules != [] ==> RulesBounded(c, s, rules[..|rules| - 1], o, dedup, now))
  }

  predicate RulesAreSpaced(c: Config, s: Service, rules: seq<Rule>, o: Observation, dedup: string, now: int)
    requires AllValid(rules, o)
    decreases |rules|
  {
    rules != [] ==>
      var n := |rules| - 1;
      var (rest, error) := EvaluateAll(c, s, rules[..n], o, dedup, now);
      && RulesAreSpaced(c, s, rules[..n], o, dedup, now)
      && (error.None? && rules[n].enabled ==>
            RuleIsSpaced(c, rest, (rules[n].id, dedup), Matches(rules[n], o).value, now))
  }

  lemma {:induction false} RulesBoundedIff(c: Config, s: Service, rules: seq<Rule>, o: Observation, dedup: string,
      now: int)
    requires ValidConfig(c) && Valid(c, s) && AllBounded(c, s) && AllValid(rules, o) && now >= 0
    ensures RulesBounded(c, s, rules, o, dedup, now) <==> RulesAreSpaced(c, s, rules, o, dedup, now)
    decreases |rules|
  {
    if rules != [] {
      var n := |rules| - 1;
      RulesBoundedIff(c, s, rules[..n], o, dedup, now);
      AllKeep(c, s, rules[..n], o, dedup, now);
      var (rest, error) := EvaluateAll(c, s, rules[..n], o, dedup, now);
      if RulesBounded(c, s, rules[..n], o, dedup, now) {
        assert AllBounded(c, rest);
        if error.None? && rules[n].enabled {
          RuleBoundedIff(c, rest, rules[n], (rules[n].id, dedup), Matches(rules[n], o).value, now);
        }
      }
    }
  }

  /** The bound holds after the operation, and in between its evaluations. */
  ghost predicate OpBounded(c: Config, s: Service, op: Op) {
    && AllBounded(c, Apply(c, s, op))
    && (op.EvaluateOp? && op.now >= 0 && AllValid(op.rules, op.observation) ==>
          RulesBounded(c, DropDisabled(s, op.rules), op.rules, op.observation, op.dedup, op.now))
  }

  predicate OpIsSpaced(c: Config, s: Service, op: Op) {
    op.EvaluateOp? && op.now >= 0 && AllValid(op.rules, op.observation) ==>
      RulesAreSpaced(c, DropDisabled(s, op.rules), op.rules, op.observation, op.dedup, op.now)
  }

  lemma OpBoundedIff(c: Config, s: Service, op: Op)
    requires ValidConfig(c) && Valid(c, s) && AllBounded(c, s)
    ensures OpBounded(c, s, op) <==> OpIsSpaced(c, s, op)
  {
    match op
    case EvaluateOp(rules, o, dedup, now) =>
      if now >= 0 && AllValid(rules, o) {
        DropDisabledKeeps(c, s, rules);
        DropDisabledInTime(c, s, rules);
        RulesBoundedIff(c, DropDisabled(s, rules), rules, o, dedup, now);
      }
    case AcknowledgeOp(key, now) => OperatorKeepsBound(c, s, key, 0, now);
    case AcknowledgeAtOp(key, expected, now) => OperatorKeepsBound(c, s, key, expected, now);
    case RecoverOp(key, now) => OperatorKeepsBound(c, s, key, 0, now);
    case OtherOp(operator) =>
      forall k: Key ensures BoundOk(c, Apply(c, s, op), k) { assert BoundOk(c, s, k); }
  }

  /** The bound holds in every state of the run. */
  ghost predicate BoundedThroughout(c: Config, s: Service, ops: seq<Op>)
    decreases |ops|
  {
    if ops == [] then AllBounded(c, s)
    else
      var rest := ops[..|ops| - 1];
      BoundedThroughout(c, s, rest) && OpBounded(c, Run(c, s, rest), ops[|ops| - 1])
  }

  predicate RunIsSpaced(c: Config, s: Service, ops: seq<Op>)
    decreases |ops|
  {
    ops != [] ==>
      var rest := ops[..|ops| - 1];
      RunIsSpaced(c, s, rest) && OpIsSpaced(c, Run(c, s, rest), ops[|ops| - 1])
  }

  lemma {:induction false} ThroughoutToTheEnd(c: Config, s: Service, ops: seq<Op>)
    requires BoundedThroughout(c, s, ops)
    ensures AllBounded(c, Run(c, s, ops))
    decreases |ops|
  {
    if ops != [] { ThroughoutToTheEnd(c, s, ops[..|ops| - 1]); }
  }

  /** Over every run, with any clock and any failures: the bound holds throughout exactly when every clear of
      an active alert is spaced. */
  lemma {:induction false} BoundedThroughoutIff(c: Config, ops: seq<Op>)
    requires ValidConfig(c)
    ensures BoundedThroughout(c, EMPTY, ops) <==> RunIsSpaced(c, EMPTY, ops)
    decreases |ops|
  {
    if ops == [] {
      assert forall key: Key :: BoundOk(c, EMPTY, key);
    } else {
      var rest := ops[..|ops| - 1];
      BoundedThroughoutIff(c, rest);
      if BoundedThroughout(c, EMPTY, rest) {
        EveryRunIsValid(c, rest);
        ThroughoutToTheEnd(c, EMPTY, rest);
        OpBoundedIff(c, Run(c, EMPTY, rest), ops[|ops| - 1]);
      }
    }
  }

  // ----- A clock that never goes back -----

  /** No operation is given a time before one that was used already. */
  predicate InTime(s: Service, op: Op) { op.OtherOp? || (0 <= op.now && s.latest <= op.now) }

  lemma RuleInTime(c: Config, s: Service, rule: Rule, key: Key, matches: bool, now: int)
    requires ValidConfig(c) && Valid(c, s) && AllBounded(c, s) && 0 <= now && s.latest <= now
    ensures !EvaluateRule(c, s, rule, key, matches, now).1.Failed?
    ensures AllBounded(c, EvaluateRule(c, s, rule, key, matches, now).0)
    ensures EvaluateRule(c, s, rule, key, matches, now).0.latest <= now
  {
    var s' := EvaluateRule(c, s, rule, key, matches, now).0;
    assert RowOk(c, s, key) && PendingOk(s, key) && BoundOk(c, s, key);
    forall k: Key ensures BoundOk(c, s', k) { assert BoundOk(c, s, k); }
  }

  lemma {:induction false} DropDisabledInTime(c: Config, s: Service, rules: seq<Rule>)
    requires AllBounded(c, s)
    ensures AllBounded(c, DropDisabled(s, rules)) && DropDisabled(s, rules).latest == s.latest
    decreases |rules|
  {
    if rules != [] {
      var rest := DropDisabled(s, rules[..|rules| - 1]);
      DropDisabledInTime(c, s, rules[..|rules| - 1]);
      forall k: Key ensures BoundOk(c, DropDisabled(s, rules), k) { assert BoundOk(c, rest, k); }
    }
  }

  lemma {:induction false} AllInTime(c: Config, s: Service, rules: seq<Rule>, o: Observation, dedup: string, now: int)
    requires ValidConfig(c) && Valid(c, s) && AllBounded(c, s) && AllValid(rules, o) && 0 <= now && s.latest <= now
    ensures EvaluateAll(c, s, rules, o, dedup, now).1 == None
    ensures AllBounded(c, EvaluateAll(c, s, rules, o, dedup, now).0)
      && EvaluateAll(c, s, rules, o, dedup, now).0.latest <= now
    decreases |rules|
  {
    if rules != [] {
      var n := |rules| - 1;
      AllInTime(c, s, rules[..n], o, dedup, now);
      AllKeep(c, s, rules[..n], o, dedup, now);
      var rest := EvaluateAll(c, s, rules[..n], o, dedup, now).0;
      if rules[n].enabled {
        RuleInTime(c, rest, rules[n], (rules[n].id, dedup), Matches(rules[n], o).value, now);
      }
    }
  }

  /** With a clock that never goes back, evaluation fails only for an invalid rule... */
  lemma EvaluationSucceedsInTime(c: Config, s: Service, rules: seq<Rule>, o: Observation, dedup: string, now: int)
    requires ValidConfig(c) && Valid(c, s) && AllBounded(c, s) && 0 <= now && s.latest <= now
    ensures Evaluate(c, s, rules, o, dedup, now).1 == (if AllValid(rules, o) then None else Some(InvalidRule))
    ensures AllBounded(c, Evaluate(c, s, rules, o, dedup, now).0)
  {
    if AllValid(rules, o) {
      DropDisabledKeeps(c, s, rules);
      DropDisabledInTime(c, s, rules);
      AllInTime(c, DropDisabled(s, rules), rules, o, dedup, now);
    }
  }

  /** ...and operator actions only for what the operator asked for. */
  lemma OperatorSucceedsInTime(c: Config, s: Service, key: Key, expected: nat, now: int)
    requires Valid(c, s) && AllBounded(c, s) && 0 <= now && s.latest <= now
    ensures Acknowledge(c, s, key, now).1 ==
      if key !in s.alerts then Failed(NotFound)
      else if s.alerts[key].state == Open then Transitioned(AcknowledgedNow)
      else if s.alerts[key].state == Acknowledged then Unchanged
      else Failed(InvalidTransition)
    ensures Recover(c, s, key, now).1 ==
      if key !in s.alerts then Failed(NotFound)
      else if s.alerts[key].state == Recovered then Unchanged
      else Transitioned(RecoveredNow)
    ensures AcknowledgeAtRevision(c, s, key, expected, now).1 ==
      if s.floor <= expected <= s.revision then Acknowledge(c, s, key, now).1 else Failed(RevisionConflict)
    ensures AllBounded(c, Acknowledge(c, s, key, now).0) && AllBounded(c, Recover(c, s, key, now).0)
    ensures AllBounded(c, AcknowledgeAtRevision(c, s, key, expected, now).0)
  {
    assert RowOk(c, s, key) && BoundOk(c, s, key);
    forall k: Key
      ensures BoundOk(c, Acknowledge(c, s, key, now).0, k) && BoundOk(c, Recover(c, s, key, now).0, k)
      ensures BoundOk(c, AcknowledgeAtRevision(c, s, key, expected, now).0, k)
    {
      assert BoundOk(c, s, k);
    }
  }

  predicate RunInTime(c: Config, s: Service, ops: seq<Op>)
    decreases |ops|
  {
    ops == [] || (RunInTime(c, s, ops[..|ops| - 1]) && InTime(Run(c, s, ops[..|ops| - 1]), ops[|ops| - 1]))
  }

  lemma {:induction false} RulesInTimeAreSpaced(c: Config, s: Service, rules: seq<Rule>, o: Observation,
      dedup: string, now: int)
    requires ValidConfig(c) && Valid(c, s) && AllBounded(c, s) && AllValid(rules, o) && 0 <= now && s.latest <= now
    ensures RulesAreSpaced(c, s, rules, o, dedup, now)
    decreases |rules|
  {
    if rules != [] {
      var n := |rules| - 1;
      var rest, key := EvaluateAll(c, s, rules[..n], o, dedup, now).0, (rules[n].id, dedup);
      RulesInTimeAreSpaced(c, s, rules[..n], o, dedup, now);
      AllInTime(c, s, rules[..n], o, dedup, now);
      AllKeep(c, s, rules[..n], o, dedup, now);
      assert RowOk(c, rest, key) && BoundOk(c, rest, key);
    }
  }

  /** With such a clock every clear is spaced... */
  lemma {:induction false} RunInTimeIsSpaced(c: Config, ops: seq<Op>)
    requires ValidConfig(c) && RunInTime(c, EMPTY, ops)
    ensures RunIsSpaced(c, EMPTY, ops)
    decreases |ops|
  {
    if ops != [] {
      var rest, op := ops[..|ops| - 1], ops[|ops| - 1];
      RunInTimeIsSpaced(c, rest);
      BoundedThroughoutIff(c, rest);
      ThroughoutToTheEnd(c, EMPTY, rest);
      EveryRunIsValid(c, rest);
      var s := Run(c, EMPTY, rest);
      if op.EvaluateOp? && AllValid(op.rules, op.observation) {
        DropDisabledKeeps(c, s, op.rules);
        DropDisabledInTime(c, s, op.rules);
        RulesInTimeAreSpaced(c, DropDisabled(s, op.rules), op.rules, op.observation, op.dedup, op.now);
      }
    }
  }

  /** ...and then every alert's last observation is at least one interval per "observed" transition after its
      opening, recovered alerts included. */
  lemma LastObservationBound(c: Config, ops: seq<Op>, key: Key)
    requires ValidConfig(c) && (RunIsSpaced(c, EMPTY, ops) || RunInTime(c, EMPTY, ops))
      && key in Run(c, EMPTY, ops).alerts
    ensures var a := Run(c, EMPTY, ops).alerts[key];
            a.lastObservedAt >= a.openedAt + c.interval * a.observations
  {
    if RunInTime(c, EMPTY, ops) { RunInTimeIsSpaced(c, ops); }
    BoundedThroughoutIff(c, ops);
    ThroughoutToTheEnd(c, EMPTY, ops);
    assert BoundOk(c, Run(c, EMPTY, ops), key);
    SpanIsProduct(c.interval, Run(c, EMPTY, ops).alerts[key].observations);
  }

  /** Without that assumption the bound fails: opened at 0, observed at 1:00, cleared by a clock at 0:05. */
  lemma BoundNeedsTheClock()
    ensures var c, key := Config([], 3600000), ("rule", "tank");
            var rule := Rule("rule", SensorSource("tank"), Above, Some(0.0), 0, true);
            var high, low := SensorObservation("tank", 1.0), SensorObservation("tank", -1.0);
            var s1 := Apply(c, EMPTY, EvaluateOp([rule], high, "tank", 0));
            var s2 := Apply(c, s1, EvaluateOp([rule], high, "tank", 3600000));
            var s3 := Apply(c, s2, EvaluateOp([rule], low, "tank", 300000));
            && key in s2.alerts && s2.alerts[key].lastObservedAt == 3600000 && !ClearIsSpaced(c, s2.alerts[key], 300000)
            && key in s3.alerts && s3.alerts[key].lastObservedAt == 300000 && !BoundOk(c, s3, key)
  {
    var c, key := Config([], 3600000), ("rule", "tank");
    var rule := Rule("rule", SensorSource("tank"), Above, Some(0.0), 0, true);
    var high, low := SensorObservation("tank", 1.0), SensorObservation("tank", -1.0);
    OneRule(c, EMPTY, rule, high, "tank", 0);
    var s1 := EvaluateRule(c, EMPTY, rule, key, true, 0).0;
    OneRule(c, s1, rule, high, "tank", 3600000);
    var s2 := EvaluateRule(c, s1, rule, key, true, 3600000).0;
    OneRule(c, s2, rule, low, "tank", 300000);
  }

  lemma OneRule(c: Config, s: Service, rule: Rule, o: Observation, dedup: string, now: int)
    requires rule.enabled && Matches(rule, o).Some? && now >= 0
    ensures Evaluate(c, s, [rule], o, dedup, now).0
      == EvaluateRule(c, s, rule, (rule.id, dedup), Matches(rule, o).value, now).0
  {
    assert [rule][..0] == [];
    assert DropDisabled(s, [rule]) == s;
    assert EvaluateAll(c, s, [rule][..0], o, dedup, now) == (s, None);
  }
}
