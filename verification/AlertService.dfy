/** The alert service as a mutable object over its tables, each method proved against the model. */
module AlertService {
  import opened Options
  import opened AlertModel
  import opened AlertSafety

  class AlertService {
    const destinations: seq<string>
    const interval: nat
    var alerts: map<Key, Alert>
    var pendings: map<Key, PendingCondition>
    var revision: nat
    var operatorFloor: nat
    var deliveries: seq<Delivery>
    var nextId: nat

    /** History for the proofs only. */
    ghost var transitions: seq<Transition>
    ghost var history: seq<Happening>
    ghost var latest: int

    ghost function State(): Service
      reads this
    {
      Service(alerts, pendings, revision, operatorFloor, deliveries, transitions, nextId, history, latest)
    }

    function Configuration(): Config { Config(destinations, interval) }

    ghost predicate Ready()
      reads this
    {
      ValidConfig(Configuration()) && Valid(Configuration(), State())
    }

    constructor (keys: seq<string>, observationInterval: nat)
      requires forall i, j :: 0 <= i < j < |keys| ==> keys[i] != keys[j]
      ensures Ready() && Configuration() == Config(keys, observationInterval) && State() == EMPTY
    {
      destinations, interval := keys, observationInterval;
      alerts, pendings, revision, operatorFloor, deliveries, nextId := map[], map[], 0, 0, [], 0;
      transitions, history, latest := [], [], 0;
      new;
      assert Run(Configuration(), EMPTY, []) == EMPTY;
      EveryRunIsValid(Configuration(), []);
    }

    ghost method Remember(h: Happening)
      modifies this`history, this`latest
      ensures State() == Note(old(State()), h)
    {
      history := history + [h];
      if h.Matched? || h.Unmatched? { latest := Later(latest, h.at); }
    }

    /** `createNotificationIntentHook`: one intent per destination. */
    method WriteIntents(kind: Kind, alertId: nat)
      modifies this`deliveries
      ensures deliveries == old(deliveries) + Intents(Configuration(), revision, kind, alertId)
    {
      var before := deliveries;
      for i := 0 to |destinations|
        invariant deliveries == before + Intents(Configuration(), revision, kind, alertId)[..i]
      {
        deliveries := deliveries + [Delivery(revision, destinations[i], kind, alertId)];
      }
    }

    /** The transaction of `commitOpenTransition` and `commitExistingTransition`. */
    method CommitTransition(key: Key, alert: Alert, kind: Kind, at: int, ghost delay: nat := 0)
      modifies this`alerts, this`pendings, this`revision, this`deliveries, this`transitions, this`latest
      ensures State() == Commit(Configuration(), old(State()), key, alert, kind, at, delay)
    {
      alerts := alerts[key := alert];
      pendings := pendings - {key};
      revision := revision + 1;
      if kind != Observed { WriteIntents(kind, alert.id); }
      transitions := transitions + [Transition(revision, key, kind, alert.id, at, |history|, delay)];
      latest := Later(latest, at);
    }

    /** `persistPendingCondition`. */
    method PersistPending(key: Key, now: int) returns (pending: Option<PendingCondition>)
      modifies this`pendings
      ensures pending == Pended(old(State()), key, now)
      ensures State()
        == if pending.None? then old(State()) else old(State()).(pendings := old(pendings)[key := pending.value])
    {
      if key !in pendings {
        pendings := pendings[key := PendingCondition(now, now)];
        return Some(pendings[key]);
      }
      if now < pendings[key].lastObservedAt { return None; }
      pendings := pendings[key := pendings[key].(lastObservedAt := now)];
      return Some(pendings[key]);
    }

    method ClearCondition(key: Key, now: int) returns (decision: Decision)
      modifies this
      ensures (State(), decision) == ConditionCleared(Configuration(), old(State()), key, now)
    {
      if key in alerts && alerts[key].state != Recovered {
        var next := RecoveredAlert(alerts[key], now);
        if !SnapshotOk(next) { return Failed(InvalidSnapshot); }
        Remember(Unmatched(key, now));
        CommitTransition(key, next, RecoveredNow, now);
        return Transitioned(RecoveredNow);
      }
      Remember(Unmatched(key, now));
      pendings := pendings - {key};
      return ConditionClear;
    }

    method ContinueCondition(key: Key, now: int) returns (decision: Decision)
      requires Active(State(), key)
      modifies this
      ensures (State(), decision) == ConditionContinues(Configuration(), old(State()), key, now)
    {
      var alert := alerts[key];
      pendings := pendings - {key};
      if now < alert.lastObservedAt { return Failed(ClockBackwards); }
      Remember(Matched(key, now));
      if now == alert.lastObservedAt { return Unchanged; }
      if now - alert.lastObservedAt < interval { return Unchanged; }
      CommitTransition(key, alert.(lastObservedAt := now, observations := alert.observations + 1), Observed, now);
      return Transitioned(Observed);
    }

    method OpenWhenDue(rule: Rule, key: Key, now: int) returns (decision: Decision)
      requires !Active(State(), key)
      modifies this
      ensures (State(), decision) == ConditionMatches(Configuration(), old(State()), rule, key, now)
    {
      var pending := PersistPending(key, now);
      if pending.None? { return Failed(ClockBackwards); }
      Remember(Matched(key, now));
      var elapsed := now - pending.value.since;
      if elapsed < rule.delayMs { return StillPending(pending.value.since, rule.delayMs - elapsed); }
      var kind := if key in alerts then Reopened else Opened;
      var id := nextId;
      if key in alerts { id := alerts[key].id; } else { nextId := nextId + 1; }
      CommitTransition(key, Alert(id, Open, now, now, None, None, 0), kind, now, rule.delayMs);
      return Transitioned(kind);
    }

    /** `evaluateRule`. */
    method EvaluateOne(rule: Rule, key: Key, matches: bool, now: int) returns (decision: Decision)
      requires Ready() && now >= 0
      modifies this
      ensures (State(), decision) == EvaluateRule(Configuration(), old(State()), rule, key, matches, now)
      ensures Ready()
    {
      RuleKeeps(Configuration(), State(), rule, key, matches, now);
      if !matches {
        decision := ClearCondition(key, now);
      } else if key in alerts && alerts[key].state != Recovered {
        decision := ContinueCondition(key, now);
      } else {
        decision := OpenWhenDue(rule, key, now);
      }
    }

    method DropPendingsOf(ruleId: string)
      modifies this
      ensures State() == DropRule(old(State()), ruleId)
    {
      pendings := map k | k in pendings && k.0 != ruleId :: pendings[k];
      Remember(RuleDisabled(ruleId));
    }

    method DropDisabledRules(rules: seq<Rule>)
      modifies this
      ensures State() == DropDisabled(old(State()), rules)
    {
      ghost var s := State();
      for i := 0 to |rules|
        invariant State() == DropDisabled(s, rules[..i])
      {
        assert rules[..i + 1][..i] == rules[..i];
        if !rules[i].enabled { DropPendingsOf(rules[i].id); }
      }
      assert rules[..|rules|] == rules;
    }

    method EvaluateRules(rules: seq<Rule>, o: Observation, dedup: string, now: int) returns (error: Option<Error>)
      requires Ready() && AllValid(rules, o) && now >= 0
      modifies this
      ensures (State(), error) == EvaluateAll(Configuration(), old(State()), rules, o, dedup, now) && Ready()
    {
      ghost var s := State();
      error := None;
      for i := 0 to |rules|
        invariant Ready() && (State(), error) == EvaluateAll(Configuration(), s, rules[..i], o, dedup, now)
      {
        assert rules[..i + 1][..i] == rules[..i];
        if error.None? && rules[i].enabled {
          var decision := EvaluateOne(rules[i], (rules[i].id, dedup), Matches(rules[i], o).value, now);
          if decision.Failed? { error := Some(decision.error); }
        }
      }
      assert rules[..|rules|] == rules;
    }

    /** `evaluate` and `evaluateAt`, one at a time. */
    method EvaluateObservation(rules: seq<Rule>, o: Observation, dedup: string, now: int) returns (error: Option<Error>)
      requires Ready()
      modifies this
      ensures (State(), error) == Evaluate(Configuration(), old(State()), rules, o, dedup, now) && Ready()
    {
      if now < 0 { return Some(InvalidTime); }
      for i := 0 to |rules|
        invariant forall k :: 0 <= k < i && rules[k].enabled ==> Matches(rules[k], o).Some?
      {
        if rules[i].enabled && Matches(rules[i], o).None? { return Some(InvalidRule); }
      }
      DropDisabledKeeps(Configuration(), State(), rules);
      DropDisabledRules(rules);
      error := EvaluateRules(rules, o, dedup, now);
    }

    /** `acknowledge`. */
    method AcknowledgeAlert(key: Key, now: int) returns (decision: Decision)
      requires Ready()
      modifies this
      ensures (State(), decision) == Acknowledge(Configuration(), old(State()), key, now) && Ready()
    {
      AcknowledgeKeeps(Configuration(), State(), key, now);
      if now < 0 { return Failed(InvalidTime); }
      if key !in alerts { return Failed(NotFound); }
      var alert := alerts[key];
      if alert.state == Acknowledged { return Unchanged; }
      if alert.state != Open { return Failed(InvalidTransition); }
      if now < alert.lastObservedAt { return Failed(ClockBackwards); }
      NothingPending(Configuration(), State(), key);
      CommitTransition(key, AcknowledgedAlert(alert, now), AcknowledgedNow, now);
      return Transitioned(AcknowledgedNow);
    }

    /** `acknowledgeAtRevision`. */
    method AcknowledgeAt(key: Key, expected: nat, now: int) returns (decision: Decision)
      requires Ready()
      modifies this
      ensures (State(), decision) == AcknowledgeAtRevision(Configuration(), old(State()), key, expected, now) && Ready()
    {
      AcknowledgeAtRevisionKeeps(Configuration(), State(), key, expected, now);
      if now < 0 { return Failed(InvalidTime); }
      if expected < operatorFloor || expected > revision { return Failed(RevisionConflict); }
      decision := AcknowledgeAlert(key, now);
      if decision.Transitioned? { operatorFloor := revision; }
    }

    /** `recover`. */
    method RecoverAlert(key: Key, now: int) returns (decision: Decision)
      requires Ready()
      modifies this
      ensures (State(), decision) == Recover(Configuration(), old(State()), key, now) && Ready()
    {
      RecoverKeeps(Configuration(), State(), key, now);
      if now < 0 { return Failed(InvalidTime); }
      if key !in alerts { return Failed(NotFound); }
      var alert := alerts[key];
      if alert.state == Recovered { return Unchanged; }
      if now < alert.lastObservedAt { return Failed(ClockBackwards); }
      var next := RecoveredAlert(alert, now);
      if !SnapshotOk(next) { return Failed(InvalidSnapshot); }
      Remember(OperatorRecovered(key));
      CommitTransition(key, next, RecoveredNow, now);
      return Transitioned(RecoveredNow);
    }
  }
}
