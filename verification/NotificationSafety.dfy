/** What the outbox guarantees under every interleaving of dispatchers, crashes and recovery. */
module NotificationSafety {
  import opened Options
  import opened NotificationModel

  // ----- Pieces of steps -----

  lemma PutKeeps(w: World, k: nat, c: Control)
    requires Inv(w) && ControlOk(w, c)
    requires Holding(c) ==> forall j: nat :: j != k && Holding(At(w, j)) ==> At(w, j).id != c.id
    ensures Inv(Put(w, k, c))
  {
    var w' := Put(w, k, c);
    forall id: nat ensures DeliveryOk(w', id) { assert DeliveryOk(w, id); }
    forall j: nat ensures ControlOk(w', At(w', j)) {
      assert ControlOk(w, At(w, j));
      assert At(w', j) == if j == k then c else At(w, j);
    }
    forall a | a in w'.audits ensures AuditOk(w', a) { assert AuditOk(w, a); }
    forall i: nat, j: nat | i != j && Holding(At(w', i)) && Holding(At(w', j)) ensures At(w', i).id != At(w', j).id {
      assert At(w', i) == (if i == k then c else At(w, i)) && At(w', j) == (if j == k then c else At(w, j));
    }
  }

  lemma ReleaseKeeps(w: World, k: nat)
    requires Inv(w)
    ensures Inv(Put(w, k, Idle))
  {
    PutKeeps(w, k, Idle);
  }

  /** How a stored row may change. */
  predicate RowMoves(r: Row, r': Row) {
    || (r.status == Pending && r'.status == Attempting && r'.attemptStartedAt.Some?)
    || (r.status == Attempting && Terminal(r'.status) && r'.attemptStartedAt == r.attemptStartedAt)
    || (Terminal(r.status) && r.auditedAt == None && r' == r.(auditedAt := r'.auditedAt))
  }

  lemma MovedControl(w: World, id: nat, row: Row, c: Control)
    requires id in w.rows && RowMoves(w.rows[id], row) && ControlOk(w, c)
    requires row.status == Delivered || row.status == Failed ==>
      Terminal(w.rows[id].status) || !Holding(c) || c.id != id
    ensures ControlOk(SetRow(w, id, row), c)
  {
  }

  lemma RowKeeps(w: World, id: nat, row: Row)
    requires Inv(w) && id in w.rows && RowMoves(w.rows[id], row) && RowOk(row)
    requires Truthful(row, w.calls[id], w.successes[id])
    requires row.auditedAt.Some? ==> AuditOf(id, row) in w.audits
    requires row.status == Delivered || row.status == Failed ==>
      Terminal(w.rows[id].status) || forall k: nat :: Holding(At(w, k)) ==> At(w, k).id != id
    ensures Inv(SetRow(w, id, row))
  {
    var w' := SetRow(w, id, row);
    forall i: nat ensures DeliveryOk(w', i) { assert DeliveryOk(w, i); }
    forall j: nat ensures ControlOk(w', At(w', j)) {
      assert ControlOk(w, At(w, j)) && At(w', j) == At(w, j);
      MovedControl(w, id, row, At(w, j));
    }
    forall a | a in w'.audits ensures AuditOk(w', a) { assert AuditOk(w, a); }
    forall j: nat, k: nat | j != k && Holding(At(w', j)) && Holding(At(w', k)) ensures At(w', j).id != At(w', k).id {
      assert At(w', j) == At(w, j) && At(w', k) == At(w, k);
    }
  }

  lemma ProduceKeeps(w: World, id: nat, message: Message, at: int)
    requires Inv(w) && id !in w.rows
    ensures Inv(SetRow(w, id, NewRow(message, at)))
  {
    var w' := SetRow(w, id, NewRow(message, at));
    forall i: nat ensures DeliveryOk(w', i) { assert DeliveryOk(w, i); }
    forall j: nat ensures ControlOk(w', At(w', j)) { assert ControlOk(w, At(w, j)) && At(w', j) == At(w, j); }
    forall a | a in w'.audits ensures AuditOk(w', a) { assert AuditOk(w, a); }
    forall j: nat, k: nat | j != k && Holding(At(w', j)) && Holding(At(w', k)) ensures At(w', j).id != At(w', k).id {
      assert At(w', j) == At(w, j) && At(w', k) == At(w, k);
    }
  }

  lemma NoHolderOfPending(w: World, id: nat, k: nat)
    requires Inv(w) && id in w.rows && w.rows[id].status == Pending && Holding(At(w, k))
    ensures At(w, k).id != id
  {
    assert ControlOk(w, At(w, k));
  }

  // ----- Step by step -----

  lemma ClaimKeeps(w: World, k: nat, id: nat, seen: Row, now: int)
    requires Inv(w) && Enabled(w, Claim(k, id, seen, now))
    ensures Inv(Next(w, Claim(k, id, seen, now)))
  {
    if now < seen.updatedAt || id !in w.rows || !ClaimMatches(w.rows[id], seen) {
      ReleaseKeeps(w, k);
    } else {
      var row := Started(w.rows[id], now);
      assert DeliveryOk(w, id);
      RowKeeps(w, id, row);
      var w1 := SetRow(w, id, row);
      forall j: nat | j != k && Holding(At(w1, j)) ensures At(w1, j).id != id {
        assert At(w1, j) == At(w, j);
        NoHolderOfPending(w, id, j);
      }
      PutKeeps(w1, k, Claimed(id, now));
    }
  }

  /** Only the holder's own control depends on the counts of its delivery. */
  lemma CountKeeps(w: World, k: nat, c: Control, calls: nat, successes: nat)
    requires Inv(w) && Holding(At(w, k)) && Holding(c) && c.id == At(w, k).id && c.startedAt == At(w, k).startedAt
    requires w.calls[c.id] <= calls <= 1 && successes <= calls
    requires match c
             case Sending(_, _) => calls == 1 && successes == 0
             case Answered(_, _, ok) => calls == 1 && successes == (if ok then 1 else 0)
             case _ => false
    ensures Inv(Put(w, k, c).(calls := w.calls[c.id := calls], successes := w.successes[c.id := successes]))
  {
    var w' := Put(w, k, c).(calls := w.calls[c.id := calls], successes := w.successes[c.id := successes]);
    assert ControlOk(w, At(w, k));
    forall i: nat ensures DeliveryOk(w', i) { assert DeliveryOk(w, i); }
    forall j: nat ensures ControlOk(w', At(w', j)) {
      assert ControlOk(w, At(w, j));
      assert At(w', j) == if j == k then c else At(w, j);
    }
    forall a | a in w'.audits ensures AuditOk(w', a) { assert AuditOk(w, a); }
    forall i: nat, j: nat | i != j && Holding(At(w', i)) && Holding(At(w', j)) ensures At(w', i).id != At(w', j).id {
      assert At(w', i) == (if i == k then c else At(w, i)) && At(w', j) == (if j == k then c else At(w, j));
    }
  }

  lemma CallKeeps(w: World, k: nat)
    requires Inv(w) && Enabled(w, Call(k))
    ensures Inv(Next(w, Call(k)))
  {
    var c := At(w, k);
    assert ControlOk(w, c) && DeliveryOk(w, c.id);
    CountKeeps(w, k, Sending(c.id, c.startedAt), 1, 0);
    assert w.calls + multiset{c.id} == w.calls[c.id := 1];
    assert w.successes == w.successes[c.id := 0];
  }

  lemma AnswerKeeps(w: World, k: nat, ok: bool)
    requires Inv(w) && Enabled(w, Answer(k, ok))
    ensures Inv(Next(w, Answer(k, ok)))
  {
    var c := At(w, k);
    assert ControlOk(w, c) && DeliveryOk(w, c.id);
    CountKeeps(w, k, Answered(c.id, c.startedAt, ok), 1, if ok then 1 else 0);
    assert w.calls == w.calls[c.id := 1];
    assert ok ==> w.successes + multiset{c.id} == w.successes[c.id := 1];
    assert !ok ==> w.successes == w.successes[c.id := 0];
  }

  lemma CompleteKeeps(w: World, k: nat, now: int)
    requires Inv(w) && Enabled(w, Complete(k, now))
    ensures Inv(Next(w, Complete(k, now)))
  {
    var c := At(w, k);
    var freed := Put(w, k, Idle);
    ReleaseKeeps(w, k);
    if now >= c.startedAt && c.id in w.rows && AttemptMatches(w.rows[c.id], c.startedAt) {
      var (status, error) := Outcome(c);
      var row := Finished(w.rows[c.id], status, now, error);
      assert ControlOk(w, c) && DeliveryOk(w, c.id);
      forall j: nat | Holding(At(freed, j)) ensures At(freed, j).id != c.id {
        assert At(freed, j) == if j == k then Idle else At(w, j);
      }
      RowKeeps(freed, c.id, row);
      assert Next(w, Complete(k, now)) == SetRow(freed, c.id, row);
    }
  }

  lemma RecordKeeps(w: World, k: nat)
    requires Inv(w) && Enabled(w, Record(k))
    ensures Inv(Next(w, Record(k)))
  {
    var c := At(w, k);
    var more := w.(audits := w.audits + [AuditOf(c.id, c.seen)]);
    assert ControlOk(w, c);
    forall i: nat ensures DeliveryOk(more, i) { assert DeliveryOk(w, i); }
    forall j: nat ensures ControlOk(more, At(more, j)) { assert ControlOk(w, At(w, j)) && At(more, j) == At(w, j); }
    forall a | a in more.audits ensures AuditOk(more, a) { assert a in w.audits ==> AuditOk(w, a); }
    forall i: nat, j: nat | i != j && Holding(At(more, i)) && Holding(At(more, j))
      ensures At(more, i).id != At(more, j).id
    {
      assert At(more, i) == At(w, i) && At(more, j) == At(w, j);
    }
    PutKeeps(more, k, Audited(c.id, c.seen));
  }

  lemma CheckpointKeeps(w: World, k: nat, now: int)
    requires Inv(w) && Enabled(w, Checkpoint(k, now))
    ensures Inv(Next(w, Checkpoint(k, now)))
  {
    var c := At(w, k);
    var freed := Put(w, k, Idle);
    ReleaseKeeps(w, k);
    assert ControlOk(w, c);
    if c.seen.completedAt.Some? && now >= c.seen.completedAt.value && c.id in w.rows
      && CheckpointMatches(w.rows[c.id], c.seen) {
      var row := w.rows[c.id].(auditedAt := Some(now));
      assert DeliveryOk(w, c.id);
      RowKeeps(freed, c.id, row);
      assert Next(w, Checkpoint(k, now)) == SetRow(freed, c.id, row);
    }
  }

  lemma InterruptKeeps(w: World, k: nat, id: nat, seen: Row, now: int)
    requires Inv(w) && Enabled(w, Interrupt(k, id, seen, now))
    ensures Inv(Next(w, Interrupt(k, id, seen, now)))
  {
    var freed := Put(w, k, Idle);
    ReleaseKeeps(w, k);
    if seen.attemptStartedAt.Some? && now >= seen.attemptStartedAt.value && id in w.rows
       && AttemptMatches(w.rows[id], seen.attemptStartedAt.value) {
      var row := Finished(w.rows[id], OutcomeUnknown, now, Some(Interrupted));
      assert DeliveryOk(w, id);
      RowKeeps(freed, id, row);
      assert Next(w, Interrupt(k, id, seen, now)) == SetRow(freed, id, row);
    }
  }

  lemma StepKeepsInv(w: World, s: Step)
    requires Inv(w) && Enabled(w, s)
    ensures Inv(Next(w, s))
  {
    match s
    case Produce(id, message, at) => ProduceKeeps(w, id, message, at);
    case Claim(k, id, seen, now) => ClaimKeeps(w, k, id, seen, now);
    case Refuse(k, failure) =>
      assert ControlOk(w, At(w, k));
      PutKeeps(w, k, Refused(At(w, k).id, At(w, k).startedAt, failure));
    case Call(k) => CallKeeps(w, k);
    case Answer(k, ok) => AnswerKeeps(w, k, ok);
    case Complete(k, now) => CompleteKeeps(w, k, now);
    case ReadTerminal(k, id) => PutKeeps(w, k, Auditing(id, w.rows[id]));
    case Record(k) => RecordKeeps(w, k);
    case Checkpoint(k, now) => CheckpointKeeps(w, k, now);
    case Interrupt(k, id, seen, now) => InterruptKeeps(w, k, id, seen, now);
    case Crash(k) => ReleaseKeeps(w, k);
  }

  // ----- Runs -----

  const EMPTY := World(map[], map[], multiset{}, multiset{}, [])

  predicate IsRun(w: World, steps: seq<Step>)
    decreases |steps|, 0
  {
    steps == [] || (IsRun(w, steps[..|steps| - 1]) && Enabled(After(w, steps[..|steps| - 1]), steps[|steps| - 1]))
  }

  function After(w: World, steps: seq<Step>): World
    requires IsRun(w, steps)
    decreases |steps|, 1
  {
    if steps == [] then w else Next(After(w, steps[..|steps| - 1]), steps[|steps| - 1])
  }

  lemma {:induction false} EveryRunKeepsInv(w: World, steps: seq<Step>)
    requires Inv(w) && IsRun(w, steps)
    ensures Inv(After(w, steps))
    decreases |steps|
  {
    if steps != [] {
      EveryRunKeepsInv(w, steps[..|steps| - 1]);
      StepKeepsInv(After(w, steps[..|steps| - 1]), steps[|steps| - 1]);
    }
  }

  /** At most one call per delivery, ever; "delivered" means exactly one call, and that it succeeded; "failed"
      means no call that succeeded; a checkpoint means the recorder has the final outcome. */
  lemma AtMostOnce(steps: seq<Step>, id: nat)
    requires IsRun(EMPTY, steps)
    ensures var w := After(EMPTY, steps);
            && w.calls[id] <= 1
            && (id in w.rows ==>
                  && RowOk(w.rows[id])
                  && (w.rows[id].status == Delivered ==> w.calls[id] == 1 == w.successes[id])
                  && (w.rows[id].status == Failed ==> w.successes[id] == 0)
                  && (w.rows[id].auditedAt.Some? ==> AuditOf(id, w.rows[id]) in w.audits))
  {
    EveryRunKeepsInv(EMPTY, steps);
    assert DeliveryOk(After(EMPTY, steps), id);
  }

  /** Everything the recorder was ever told about a delivery is the same, and still true. */
  lemma AuditsAgree(steps: seq<Step>, a: Audit, b: Audit)
    requires IsRun(EMPTY, steps) && a in After(EMPTY, steps).audits && b in After(EMPTY, steps).audits && a.id == b.id
    ensures a == b && a.id in After(EMPTY, steps).rows && a == AuditOf(a.id, After(EMPTY, steps).rows[a.id])
  {
    EveryRunKeepsInv(EMPTY, steps);
    assert AuditOk(After(EMPTY, steps), a) && AuditOk(After(EMPTY, steps), b);
  }

  /** A row is never lost, its message never changes, and its status only moves forward. */
  predicate RowKept(r: Row, r': Row) {
    r' == r || (RowMoves(r, r') && r'.message == r.message && r'.createdAt == r.createdAt)
  }

  lemma StatusMovesForward(w: World, s: Step, id: nat)
    requires Inv(w) && Enabled(w, s) && id in w.rows
    ensures id in Next(w, s).rows && RowKept(w.rows[id], Next(w, s).rows[id])
  {
    match s
    case Checkpoint(k, _) => assert ControlOk(w, At(w, k));
    case _ =>
  }

  /** Once an outcome is known it never changes, whatever happens afterwards. */
  lemma {:induction false} OutcomesAreFinal(w: World, steps: seq<Step>, id: nat)
    requires Inv(w) && IsRun(w, steps) && id in w.rows && Terminal(w.rows[id].status)
    ensures id in After(w, steps).rows && AuditOf(id, After(w, steps).rows[id]) == AuditOf(id, w.rows[id])
    decreases |steps|
  {
    if steps != [] {
      var before := steps[..|steps| - 1];
      OutcomesAreFinal(w, before, id);
      EveryRunKeepsInv(w, before);
      StatusMovesForward(After(w, before), steps[|steps| - 1], id);
    }
  }
}
