/** Durable alerts: pending conditions, opening after a delay, observation, acknowledgement, recovery, and
    the notification intents written with each transition. */
module AlertModel {
  import opened Options

  // ----- Rules and observations -----

  datatype Source =
    | DeviceSource(id: string)
    | OutputSource(id: string)
    | SensorSource(id: string)
    | SwitchSource(id: string)

  datatype DeviceStatus = Online | Offline | Stale | InError

  datatype Observation =
    | DeviceObservation(id: string, status: DeviceStatus)
    | OutputObservation(id: string, value: real)
    | SensorObservation(id: string, value: real)
    | SwitchObservation(id: string, isOpen: bool)

  datatype Condition =
    | IsOffline | IsStale | IsError | NotOnline
    | Above | AtOrAbove | Below | AtOrBelow | Equal
    | IsOpen | IsClosed

  datatype Rule = Rule(
    id: string,
    source: Source,
    condition: Condition,
    threshold: Option<real>,
    delayMs: nat,
    enabled: bool)

  /** `evaluateNumericCondition`; `None` where the rule is invalid. */
  function MatchesValue(r: Rule, value: real): Option<bool> {
    if r.threshold.None? then None
    else
      match r.condition
      case Above => Some(value > r.threshold.value)
      case AtOrAbove => Some(value >= r.threshold.value)
      case Below => Some(value < r.threshold.value)
      case AtOrBelow => Some(value <= r.threshold.value)
      case Equal => Some(value == r.threshold.value)
      case _ => None
  }

  /** `evaluateCondition`; `None` where the rule is invalid. */
  function Matches(r: Rule, o: Observation): Option<bool> {
    match o
    case DeviceObservation(_, status) =>
      if !r.source.DeviceSource? || r.threshold.Some? then None
      else
        (match r.condition
         case IsOffline => Some(status == Offline)
         case IsStale => Some(status == Stale)
         case IsError => Some(status == InError)
         case NotOnline => Some(status != Online)
         case _ => None)
    case OutputObservation(_, value) => if r.source.OutputSource? then MatchesValue(r, value) else None
    case SensorObservation(_, value) => if r.source.SensorSource? then MatchesValue(r, value) else None
    case SwitchObservation(_, isOpen) =>
      if !r.source.SwitchSource? || r.threshold.Some? then None
      else if r.condition == IsOpen then Some(isOpen)
      else if r.condition == IsClosed then Some(!isOpen)
      else None
  }

  // ----- State -----

  datatype AlertState = Open | Acknowledged | Recovered

  datatype Kind = Opened | Observed | AcknowledgedNow | RecoveredNow | Reopened

  /** `observations` is history: the "observed" transitions since the alert was last opened. */
  datatype Alert = Alert(
    id: nat,
    state: AlertState,
    openedAt: int,
    lastObservedAt: int,
    acknowledgedAt: Option<int>,
    recoveredAt: Option<int>,
    observations: nat)

  datatype PendingCondition = PendingCondition(since: int, lastObservedAt: int)

  /** A rule and a deduplication key. */
  type Key = (string, string)

  datatype Delivery = Delivery(revision: nat, destination: string, kind: Kind, alertId: nat)

  /** `seen` is history: how many happenings came before the transition; `delay` is what its rule demanded. */
  datatype Transition = Transition(revision: nat, key: Key, kind: Kind, alertId: nat, at: int, seen: nat, delay: nat)

  /** What happened to a key, as the evaluations saw it. */
  datatype Happening =
    | Matched(key: Key, at: int)
    | Unmatched(key: Key, at: int)
    | RuleDisabled(ruleId: string)
    | OperatorRecovered(key: Key)

  /** The tables, with the history of happenings and the latest time any operation used. */
  datatype Service = Service(
    alerts: map<Key, Alert>,
    pendings: map<Key, PendingCondition>,
    revision: nat,
    floor: nat,
    deliveries: seq<Delivery>,
    transitions: seq<Transition>,
    nextId: nat,
    history: seq<Happening>,
    latest: int)

  datatype Config = Config(destinations: seq<string>, interval: nat)

  datatype Error =
    | InvalidTime
    | InvalidRule
    | ClockBackwards
    | InvalidSnapshot
    | NotFound
    | InvalidTransition
    | RevisionConflict

  datatype Decision =
    | ConditionClear
    | Unchanged
    | StillPending(since: int, remaining: int)
    | Transitioned(kind: Kind)
    | Failed(error: Error)

  // ----- Commits -----

  /** The schema every stored and published alert satisfies. */
  predicate SnapshotOk(a: Alert) {
    && 0 <= a.openedAt <= a.lastObservedAt
    && (a.acknowledgedAt.Some? ==> a.openedAt <= a.acknowledgedAt.value)
    && (a.recoveredAt.Some? ==> a.lastObservedAt <= a.recoveredAt.value)
    && (a.recoveredAt.Some? && a.acknowledgedAt.Some? ==> a.acknowledgedAt.value <= a.recoveredAt.value)
    && (a.state == Open ==> a.acknowledgedAt == None)
    && (a.state == Acknowledged ==> a.acknowledgedAt.Some?)
    && (a.state == Recovered <==> a.recoveredAt.Some?)
  }

  function Intents(c: Config, revision: nat, kind: Kind, alertId: nat): (r: seq<Delivery>)
    ensures |r| == |c.destinations|
    ensures forall i :: 0 <= i < |r| ==> r[i] == Delivery(revision, c.destinations[i], kind, alertId)
  {
    seq(|c.destinations|, i requires 0 <= i < |c.destinations| => Delivery(revision, c.destinations[i], kind, alertId))
  }

  function Later(a: int, b: int): int { if a < b then b else a }

  /** One transaction: the row, the pending condition removed, a new revision and its notification intents. */
  function Commit(c: Config, s: Service, key: Key, alert: Alert, kind: Kind, at: int, delay: nat := 0): Service {
    var revision := s.revision + 1;
    s.(alerts := s.alerts[key := alert],
       pendings := s.pendings - {key},
       revision := revision,
       deliveries := if kind == Observed then s.deliveries else s.deliveries + Intents(c, revision, kind, alert.id),
       transitions := s.transitions + [Transition(revision, key, kind, alert.id, at, |s.history|, delay)],
       latest := Later(s.latest, at))
  }

  function Note(s: Service, h: Happening): Service {
    s.(history := s.history + [h], latest := if h.Matched? || h.Unmatched? then Later(s.latest, h.at) else s.latest)
  }

  function DropPending(s: Service, key: Key): Service { s.(pendings := s.pendings - {key}) }

  predicate Active(s: Service, key: Key) { key in s.alerts && s.alerts[key].state != Recovered }

  // ----- One rule -----

  function RecoveredAlert(a: Alert, now: int): Alert {
    a.(state := Recovered, lastObservedAt := now, recoveredAt := Some(now))
  }

  function ConditionCleared(c: Config, s: Service, key: Key, now: int): (Service, Decision) {
    if Active(s, key) then
      var next := RecoveredAlert(s.alerts[key], now);
      if !SnapshotOk(next) then (s, Failed(InvalidSnapshot))
      else (Commit(c, Note(s, Unmatched(key, now)), key, next, RecoveredNow, now), Transitioned(RecoveredNow))
    else (DropPending(Note(s, Unmatched(key, now)), key), ConditionClear)
  }

  function ConditionContinues(c: Config, s: Service, key: Key, now: int): (Service, Decision)
    requires Active(s, key)
  {
    var a := s.alerts[key];
    var dropped := DropPending(s, key);
    if now < a.lastObservedAt then (dropped, Failed(ClockBackwards))
    else
      var noted := Note(dropped, Matched(key, now));
      if now == a.lastObservedAt || now - a.lastObservedAt < c.interval then (noted, Unchanged)
      else
        var next := a.(lastObservedAt := now, observations := a.observations + 1);
        (Commit(c, noted, key, next, Observed, now), Transitioned(Observed))
  }

  /** The pending condition after one more match, or `None` if the clock went back. */
  function Pended(s: Service, key: Key, now: int): Option<PendingCondition> {
    if key !in s.pendings then Some(PendingCondition(now, now))
    else if now < s.pendings[key].lastObservedAt then None
    else Some(s.pendings[key].(lastObservedAt := now))
  }

  function ConditionMatches(c: Config, s: Service, rule: Rule, key: Key, now: int): (Service, Decision)
    requires !Active(s, key)
  {
    match Pended(s, key, now)
    case None => (s, Failed(ClockBackwards))
    case Some(pending) =>
      var noted := Note(s.(pendings := s.pendings[key := pending]), Matched(key, now));
      if now - pending.since < rule.delayMs then
        (noted, StillPending(pending.since, rule.delayMs - (now - pending.since)))
      else (CommitOpen(c, noted, key, now, rule.delayMs), Transitioned(if key in s.alerts then Reopened else Opened))
  }

  function OpenAlert(s: Service, key: Key, now: int): Alert {
    Alert(if key in s.alerts then s.alerts[key].id else s.nextId, Open, now, now, None, None, 0)
  }

  function OpenKind(s: Service, key: Key): Kind { if key in s.alerts then Reopened else Opened }

  function Numbered(s: Service, key: Key): Service { if key in s.alerts then s else s.(nextId := s.nextId + 1) }

  /** `commitOpenTransition`: a known alert is reopened under its identifier. */
  function CommitOpen(c: Config, s: Service, key: Key, now: int, delay: nat): Service {
    Commit(c, Numbered(s, key), key, OpenAlert(s, key, now), OpenKind(s, key), now, delay)
  }

  /** `evaluateRule`. */
  function EvaluateRule(c: Config, s: Service, rule: Rule, key: Key, matches: bool, now: int): (Service, Decision) {
    if !matches then ConditionCleared(c, s, key, now)
    else if Active(s, key) then ConditionContinues(c, s, key, now)
    else ConditionMatches(c, s, rule, key, now)
  }

  // ----- One observation -----

  function DropRule(s: Service, ruleId: string): Service {
    Note(s.(pendings := map k | k in s.pendings && k.0 != ruleId :: s.pendings[k]), RuleDisabled(ruleId))
  }

  function DropDisabled(s: Service, rules: seq<Rule>): Service
    decreases |rules|
  {
    if rules == [] then s
    else
      var rest, rule := DropDisabled(s, rules[..|rules| - 1]), rules[|rules| - 1];
      if rule.enabled then rest else DropRule(rest, rule.id)
  }

  predicate AllValid(rules: seq<Rule>, o: Observation) {
    forall i :: 0 <= i < |rules| && rules[i].enabled ==> Matches(rules[i], o).Some?
  }

  /** The enabled rules in turn, until one fails. */
  function EvaluateAll(c: Config, s: Service, rules: seq<Rule>, o: Observation, dedup: string, now: int)
    : (Service, Option<Error>)
    requires AllValid(rules, o)
    decreases |rules|
  {
    if rules == [] then (s, None)
    else
      var n := |rules| - 1;
      var (rest, error) := EvaluateAll(c, s, rules[..n], o, dedup, now);
      if error.Some? || !rules[n].enabled then (rest, error)
      else
        var (next, decision) := EvaluateRule(c, rest, rules[n], (rules[n].id, dedup), Matches(rules[n], o).value, now);
        (next, if decision.Failed? then Some(decision.error) else None)
  }

  /** `evaluateExclusive`: the rules are those loaded for the observation's source. */
  function Evaluate(c: Config, s: Service, rules: seq<Rule>, o: Observation, dedup: string, now: int)
    : (Service, Option<Error>)
  {
    if now < 0 then (s, Some(InvalidTime))
    else if !AllValid(rules, o) then (s, Some(InvalidRule))
    else EvaluateAll(c, DropDisabled(s, rules), rules, o, dedup, now)
  }

  // ----- Operator actions -----

  function AcknowledgedAlert(a: Alert, now: int): Alert { a.(state := Acknowledged, acknowledgedAt := Some(now)) }

  /** `acknowledgeExclusive`; an acknowledged alert is left alone. */
  function Acknowledge(c: Config, s: Service, key: Key, now: int): (Service, Decision) {
    if now < 0 then (s, Failed(InvalidTime))
    else if key !in s.alerts then (s, Failed(NotFound))
    else
      var a := s.alerts[key];
      if a.state == Acknowledged then (s, Unchanged)
      else if a.state != Open then (s, Failed(InvalidTransition))
      else if now < a.lastObservedAt then (s, Failed(ClockBackwards))
      else (CommitAcknowledgement(c, s, key, now), Transitioned(AcknowledgedNow))
  }

  /** Acknowledging leaves the pending table alone; there is nothing pending for an open alert. */
  function CommitAcknowledgement(c: Config, s: Service, key: Key, now: int): Service
    requires key in s.alerts
  {
    Commit(c, s, key, AcknowledgedAlert(s.alerts[key], now), AcknowledgedNow, now).(pendings := s.pendings)
  }

  /** `acknowledgeAtRevisionExclusive`: only from a view at least as new as the last operator change. */
  function AcknowledgeAtRevision(c: Config, s: Service, key: Key, expected: nat, now: int): (Service, Decision) {
    if now < 0 then (s, Failed(InvalidTime))
    else if expected < s.floor || expected > s.revision then (s, Failed(RevisionConflict))
    else
      var (next, decision) := Acknowledge(c, s, key, now);
      (if decision.Transitioned? then next.(floor := next.revision) else next, decision)
  }

  /** `recoverExclusive`; a recovered alert is left alone. */
  function Recover(c: Config, s: Service, key: Key, now: int): (Service, Decision) {
    if now < 0 then (s, Failed(InvalidTime))
    else if key !in s.alerts then (s, Failed(NotFound))
    else
      var a := s.alerts[key];
      if a.state == Recovered then (s, Unchanged)
      else if now < a.lastObservedAt then (s, Failed(ClockBackwards))
      else
        var next := RecoveredAlert(a, now);
        if !SnapshotOk(next) then (s, Failed(InvalidSnapshot))
        else (Commit(c, Note(s, OperatorRecovered(key)), key, next, RecoveredNow, now), Transitioned(RecoveredNow))
  }

  /** Some other change takes a revision. */
  function OtherCommit(s: Service, operator: bool): Service {
    s.(revision := s.revision + 1, floor := if operator then s.revision + 1 else s.floor)
  }
}
