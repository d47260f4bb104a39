/** The notification outbox as a table changed by atomic conditional updates, with any number of
    dispatchers that may crash between any two of them. */
module NotificationModel {
  import opened Options

  datatype Transition = Opened | Acknowledged | Recovered | Reopened

  /** What the stored document parses to. */
  datatype Document = Unparseable | Parsed(revision: nat, alertId: string, transition: Transition)

  /** The part of a delivery that never changes. */
  datatype Message = Message(
    revision: nat,
    alertId: string,
    transition: Transition,
    destination: string,
    schemaVersion: nat,
    document: Document)

  datatype Status = Pending | Attempting | Delivered | Failed | OutcomeUnknown

  datatype Failure = NotifierFailed | InvalidNotification | MissingDestination | Interrupted

  datatype Row = Row(
    message: Message,
    status: Status,
    attemptCount: nat,
    createdAt: int,
    attemptStartedAt: Option<int>,
    completedAt: Option<int>,
    updatedAt: int,
    error: Option<Failure>,
    auditedAt: Option<int>)

  /** What the outcome recorder is told. */
  datatype Audit = Audit(id: nat, message: Message, status: Status, completedAt: Option<int>, error: Option<Failure>)

  /** Where a dispatcher is, with what it remembers. */
  datatype Control =
    | Idle
    | Claimed(id: nat, startedAt: int)
    | Sending(id: nat, startedAt: int)
    | Answered(id: nat, startedAt: int, ok: bool)
    | Refused(id: nat, startedAt: int, failure: Failure)
    | Auditing(id: nat, seen: Row)
    | Audited(id: nat, seen: Row)

  /** `calls` and `successes` count what the notifiers saw; `audits` is what the recorder received. */
  datatype World = World(
    rows: map<nat, Row>,
    dispatchers: map<nat, Control>,
    calls: multiset<nat>,
    successes: multiset<nat>,
    audits: seq<Audit>)

  /** Claims and recoveries work from rows read earlier, here any rows at all; a terminal row is read afresh
      before its outcome is recorded. */
  datatype Step =
    | Produce(id: nat, message: Message, at: int)
    | Claim(k: nat, id: nat, seen: Row, now: int)
    | Refuse(k: nat, failure: Failure)
    | Call(k: nat)
    | Answer(k: nat, ok: bool)
    | Complete(k: nat, now: int)
    | ReadTerminal(k: nat, id: nat)
    | Record(k: nat)
    | Checkpoint(k: nat, now: int)
    | Interrupt(k: nat, id: nat, seen: Row, now: int)
    | Crash(k: nat)

  // ----- Rows -----

  predicate Terminal(status: Status) { status == Delivered || status == Failed || status == OutcomeUnknown }

  /** `parseStoredNotification` succeeds. */
  predicate Readable(m: Message) {
    m.schemaVersion == 1 && m.document == Parsed(m.revision, m.alertId, m.transition)
  }

  function NewRow(message: Message, at: int): Row { Row(message, Pending, 0, at, None, None, at, None, None) }

  function Started(row: Row, now: int): Row {
    row.(status := Attempting, attemptCount := 1, attemptStartedAt := Some(now), updatedAt := now)
  }

  function Finished(row: Row, status: Status, now: int, error: Option<Failure>): Row {
    row.(status := status, completedAt := Some(now), updatedAt := now, error := error, auditedAt := None)
  }

  function AuditOf(id: nat, row: Row): Audit { Audit(id, row.message, row.status, row.completedAt, row.error) }

  /** The where clause of a claim. */
  predicate ClaimMatches(row: Row, seen: Row) {
    && row.status == Pending && row.attemptCount == 0 && row.updatedAt == seen.updatedAt
    && row.message.document == seen.message.document && row.message.schemaVersion == seen.message.schemaVersion
  }

  /** The where clause of completions and of recovery. */
  predicate AttemptMatches(row: Row, startedAt: int) {
    row.status == Attempting && row.attemptCount == 1 && row.attemptStartedAt == Some(startedAt)
  }

  /** The where clause of an audit checkpoint. */
  predicate CheckpointMatches(row: Row, seen: Row) {
    row.status == seen.status && row.completedAt == seen.completedAt && row.updatedAt == seen.updatedAt
      && row.auditedAt == None
  }

  // ----- Steps -----

  function At(w: World, k: nat): Control { if k in w.dispatchers then w.dispatchers[k] else Idle }
  function Put(w: World, k: nat, c: Control): World { w.(dispatchers := w.dispatchers[k := c]) }
  function SetRow(w: World, id: nat, row: Row): World { w.(rows := w.rows[id := row]) }

  predicate Enabled(w: World, s: Step) {
    match s
    case Produce(id, _, _) => id !in w.rows
    case Claim(k, _, _, _) => At(w, k).Idle?
    case Refuse(k, failure) =>
      At(w, k).Claimed? && At(w, k).id in w.rows
      && failure == (if Readable(w.rows[At(w, k).id].message) then MissingDestination else InvalidNotification)
    case Call(k) => At(w, k).Claimed? && At(w, k).id in w.rows && Readable(w.rows[At(w, k).id].message)
    case Answer(k, _) => At(w, k).Sending?
    case Complete(k, _) => At(w, k).Answered? || At(w, k).Refused?
    case ReadTerminal(k, id) =>
      At(w, k).Idle? && id in w.rows && Terminal(w.rows[id].status) && w.rows[id].auditedAt == None
    case Record(k) => At(w, k).Auditing?
    case Checkpoint(k, _) => At(w, k).Audited?
    case Interrupt(k, _, _, _) => At(w, k).Idle?
    case Crash(k) => true
  }

  /** What a finished attempt is recorded as. */
  function Outcome(c: Control): (Status, Option<Failure>)
    requires c.Answered? || c.Refused?
  {
    if c.Refused? then (Failed, Some(c.failure))
    else if c.ok then (Delivered, None)
    else (Failed, Some(NotifierFailed))
  }

  /** A conditional update: the row changes if the condition still holds; otherwise nothing does. */
  function UpdateWhere(w: World, id: nat, condition: bool, row: Row): World {
    if condition then SetRow(w, id, row) else w
  }

  function Next(w: World, s: Step): World
    requires Enabled(w, s)
  {
    match s
    case Produce(id, message, at) => SetRow(w, id, NewRow(message, at))
    case Claim(k, id, seen, now) =>
      if now < seen.updatedAt || id !in w.rows || !ClaimMatches(w.rows[id], seen) then Put(w, k, Idle)
      else Put(SetRow(w, id, Started(w.rows[id], now)), k, Claimed(id, now))
    case Refuse(k, failure) => Put(w, k, Refused(At(w, k).id, At(w, k).startedAt, failure))
    case Call(k) =>
      Put(w, k, Sending(At(w, k).id, At(w, k).startedAt)).(calls := w.calls + multiset{At(w, k).id})
    case Answer(k, ok) =>
      Put(w, k, Answered(At(w, k).id, At(w, k).startedAt, ok)).(
        successes := if ok then w.successes + multiset{At(w, k).id} else w.successes)
    case Complete(k, now) =>
      var c := At(w, k);
      if now < c.startedAt || c.id !in w.rows then Put(w, k, Idle)
      else
        var (status, error) := Outcome(c);
        var finished := Finished(w.rows[c.id], status, now, error);
        Put(UpdateWhere(w, c.id, AttemptMatches(w.rows[c.id], c.startedAt), finished), k, Idle)
    case ReadTerminal(k, id) => Put(w, k, Auditing(id, w.rows[id]))
    case Record(k) =>
      Put(w, k, Audited(At(w, k).id, At(w, k).seen)).(audits := w.audits + [AuditOf(At(w, k).id, At(w, k).seen)])
    case Checkpoint(k, now) =>
      var c := At(w, k);
      if c.seen.completedAt.None? || now < c.seen.completedAt.value || c.id !in w.rows then Put(w, k, Idle)
      else
        var row := w.rows[c.id];
        Put(UpdateWhere(w, c.id, CheckpointMatches(row, c.seen), row.(auditedAt := Some(now))), k, Idle)
    case Interrupt(k, id, seen, now) =>
      if seen.attemptStartedAt.None? || now < seen.attemptStartedAt.value || id !in w.rows then Put(w, k, Idle)
      else
        Put(UpdateWhere(w, id, AttemptMatches(w.rows[id], seen.attemptStartedAt.value),
                        Finished(w.rows[id], OutcomeUnknown, now, Some(Interrupted))), k, Idle)
    case Crash(k) => Put(w, k, Idle)
  }

  // ----- The invariant -----

  /** Which fields a status allows, and the order of its times. */
  predicate RowOk(r: Row) {
    && (match r.status
        case Pending => r.attemptCount == 0 && r.attemptStartedAt == None && r.completedAt == None && r.error == None
        case Attempting => r.attemptCount == 1 && r.attemptStartedAt.Some? && r.completedAt == None && r.error == None
        case Delivered => r.attemptCount == 1 && r.attemptStartedAt.Some? && r.completedAt.Some? && r.error == None
        case Failed => r.attemptCount == 1 && r.attemptStartedAt.Some? && r.completedAt.Some? && r.error.Some?
        case OutcomeUnknown => r.attemptCount == 1 && r.attemptStartedAt.Some? && r.completedAt.Some? && r.error.Some?)
    && r.createdAt <= r.updatedAt
    && (r.attemptStartedAt.Some? ==> r.createdAt <= r.attemptStartedAt.value <= r.updatedAt)
    && (r.completedAt.Some? ==>
          r.attemptStartedAt.Some? && r.attemptStartedAt.value <= r.completedAt.value == r.updatedAt)
    && (r.auditedAt.Some? ==> Terminal(r.status) && r.completedAt.Some? && r.completedAt.value <= r.auditedAt.value)
  }

  /** What a status says about the notifier calls made for the delivery. */
  predicate Truthful(r: Row, calls: nat, successes: nat) {
    match r.status
    case Pending => calls == 0
    case Attempting => true
    case Delivered => calls == 1 && successes == 1
    case Failed => if r.error == Some(NotifierFailed) then calls == 1 && successes == 0 else calls == 0
    case OutcomeUnknown => r.error == Some(Interrupted)
  }

  predicate DeliveryOk(w: World, id: nat) {
    && w.successes[id] <= w.calls[id] <= 1
    && (id !in w.rows ==> w.calls[id] == 0)
    && (id in w.rows ==>
          && RowOk(w.rows[id])
          && Truthful(w.rows[id], w.calls[id], w.successes[id])
          && (w.rows[id].auditedAt.Some? ==> AuditOf(id, w.rows[id]) in w.audits))
  }

  /** The control states in which a dispatcher has claimed a delivery and not let go of it. */
  predicate Holding(c: Control) { c.Claimed? || c.Sending? || c.Answered? || c.Refused? }

  predicate ControlOk(w: World, c: Control) {
    match c
    case Idle => true
    case Auditing(id, seen) => Frozen(w, id, seen)
    case Audited(id, seen) => Frozen(w, id, seen) && AuditOf(id, seen) in w.audits
    case Claimed(id, _) => Held(w, c) && w.calls[id] == 0
    case Sending(id, _) => Held(w, c) && w.calls[id] == 1 && w.successes[id] == 0
    case Answered(id, _, ok) => Held(w, c) && w.calls[id] == 1 && w.successes[id] == (if ok then 1 else 0)
    case Refused(id, _, failure) => Held(w, c) && w.calls[id] == 0 && failure != NotifierFailed
  }

  /** A held delivery is being attempted by its holder, or was given up as interrupted. */
  predicate Held(w: World, c: Control)
    requires Holding(c)
  {
    && c.id in w.rows
    && w.rows[c.id].attemptStartedAt == Some(c.startedAt)
    && (w.rows[c.id].status == Attempting || w.rows[c.id].status == OutcomeUnknown)
  }

  /** A terminal row as it was read, but for its audit checkpoint. */
  predicate Frozen(w: World, id: nat, seen: Row) {
    id in w.rows && Terminal(seen.status) && w.rows[id].(auditedAt := seen.auditedAt) == seen && seen.auditedAt == None
  }

  predicate AuditOk(w: World, a: Audit) {
    a.id in w.rows && Terminal(w.rows[a.id].status) && a == AuditOf(a.id, w.rows[a.id])
  }

  ghost predicate Inv(w: World) {
    && (forall id: nat :: DeliveryOk(w, id))
    && (forall k: nat :: ControlOk(w, At(w, k)))
    && (forall j: nat, k: nat :: j != k && Holding(At(w, j)) && Holding(At(w, k)) ==> At(w, j).id != At(w, k).id)
    && (forall a :: a in w.audits ==> AuditOk(w, a))
  }
}
