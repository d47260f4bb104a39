/** One dispatcher as a mutable object over the table, each atomic action proved to be a step of the model. */
module NotificationDispatcher {
  import opened Options
  import opened NotificationModel
  import opened NotificationSafety
  import Sets

  const MAX_BATCH := 100

  datatype Fault = BatchSize | BadClock | ClockBehind | Concurrency | RecorderFailed

  datatype RecorderAnswer = Recorded | RecordedThenFailed | NotRecorded

  datatype DispatchOutcome = DispatchOutcome(id: nat, status: Status, error: Option<Failure>)

  // ----- Runs compose -----

  /** Some run of steps leads from one world to the other. */
  ghost predicate Reaches(w: World, w': World) { exists steps :: IsRun(w, steps) && After(w, steps) == w' }

  lemma ReachesItself(w: World)
    ensures Reaches(w, w)
  {
    assert IsRun(w, []) && After(w, []) == w;
  }

  lemma OneMoreStep(w: World, w': World, s: Step)
    requires Reaches(w, w') && Enabled(w', s)
    ensures Reaches(w, Next(w', s))
  {
    var steps :| IsRun(w, steps) && After(w, steps) == w';
    var more := steps + [s];
    assert more[..|more| - 1] == steps;
    assert IsRun(w, more) && After(w, more) == Next(w', s);
  }

  lemma {:induction false} RunsCompose(w: World, steps: seq<Step>, more: seq<Step>)
    requires IsRun(w, steps) && IsRun(After(w, steps), more)
    ensures IsRun(w, steps + more) && After(w, steps + more) == After(After(w, steps), more)
    decreases |more|
  {
    if more == [] {
      assert steps + more == steps;
    } else {
      var n := |more| - 1;
      RunsCompose(w, steps, more[..n]);
      assert (steps + more)[..|steps + more| - 1] == steps + more[..n];
    }
  }

  lemma ReachesOn(w: World, w1: World, w2: World)
    requires Reaches(w, w1) && Reaches(w1, w2)
    ensures Reaches(w, w2)
  {
    var steps :| IsRun(w, steps) && After(w, steps) == w1;
    var more :| IsRun(w1, more) && After(w1, more) == w2;
    RunsCompose(w, steps, more);
  }

  lemma ReachesKeepsInv(w: World, w': World)
    requires Reaches(w, w') && Inv(w)
    ensures Inv(w')
  {
    var steps :| IsRun(w, steps) && After(w, steps) == w';
    EveryRunKeepsInv(w, steps);
  }

  /** Whatever a dispatcher's methods do, no delivery is sent twice, and statuses tell the truth about sends. */
  lemma ReachedSendsOnce(w: World, w': World, id: nat)
    requires Reaches(w, w') && Inv(w)
    ensures w'.successes[id] <= w'.calls[id] <= 1
    ensures id in w'.rows ==>
      RowOk(w'.rows[id]) && Truthful(w'.rows[id], w'.calls[id], w'.successes[id])
  {
    ReachesKeepsInv(w, w');
    assert DeliveryOk(w', id);
  }

  // ----- Selecting rows, oldest first -----

  function PendingIds(rows: map<nat, Row>): set<nat> { set id | id in rows && rows[id].status == Pending }
  function AttemptingIds(rows: map<nat, Row>): set<nat> { set id | id in rows && rows[id].status == Attempting }

  /** Terminal rows the recorder has not confirmed. */
  function UnrecordedIds(rows: map<nat, Row>): set<nat> {
    set id | id in rows && Terminal(rows[id].status) && rows[id].auditedAt == None
  }

  datatype Order = ByCreation | ByCompletion

  function TimeOf(rows: map<nat, Row>, order: Order, id: nat): int {
    if id !in rows then 0
    else if order == ByCreation then rows[id].createdAt
    else if rows[id].completedAt.Some? then rows[id].completedAt.value
    else 0
  }

  predicate Earlier(rows: map<nat, Row>, order: Order, a: nat, b: nat) {
    TimeOf(rows, order, a) < TimeOf(rows, order, b) || (TimeOf(rows, order, a) == TimeOf(rows, order, b) && a < b)
  }

  /** `chosen` is the beginning, at most `limit` long, of `ids` in order. */
  predicate Oldest(rows: map<nat, Row>, order: Order, ids: set<nat>, limit: nat, chosen: seq<nat>) {
    && (forall i :: 0 <= i < |chosen| ==> chosen[i] in ids)
    && (forall i, j :: 0 <= i < j < |chosen| ==> Earlier(rows, order, chosen[i], chosen[j]))
    && (forall i, id :: 0 <= i < |chosen| && id in ids && id !in chosen ==> Earlier(rows, order, chosen[i], id))
    && |chosen| <= limit
    && (|chosen| < limit ==> forall id :: id in ids ==> id in chosen)
  }

  method OldestOf(rows: map<nat, Row>, order: Order, ids: set<nat>) returns (first: nat)
    requires ids != {}
    ensures first in ids && forall id :: id in ids && id != first ==> Earlier(rows, order, first, id)
  {
    first := Sets.AnyOf(ids);
    var todo := ids - {first};
    while todo != {}
      invariant first in ids && todo <= ids - {first}
      invariant forall id :: id in ids && id !in todo && id != first ==> Earlier(rows, order, first, id)
      decreases todo
    {
      var id := Sets.AnyOf(todo);
      todo := todo - {id};
      if Earlier(rows, order, id, first) { first := id; }
    }
  }

  /** `select ... order by ... limit`. */
  method SelectOldest(rows: map<nat, Row>, order: Order, ids: set<nat>, limit: nat) returns (chosen: seq<nat>)
    ensures Oldest(rows, order, ids, limit, chosen)
  {
    chosen := [];
    var rest := ids;
    while rest != {} && |chosen| < limit
      invariant |chosen| <= limit && rest <= ids
      invariant forall id :: id in ids ==> (id in rest <==> id !in chosen)
      invariant forall i :: 0 <= i < |chosen| ==> chosen[i] in ids
      invariant forall i, j :: 0 <= i < j < |chosen| ==> Earlier(rows, order, chosen[i], chosen[j])
      invariant forall i, id :: 0 <= i < |chosen| && id in rest ==> Earlier(rows, order, chosen[i], id)
      decreases rest
    {
      var first := OldestOf(rows, order, rest);
      chosen := chosen + [first];
      rest := rest - {first};
    }
  }

  /** Two tables that differ in audit checkpoints only, none of which is taken back. */
  predicate SameButAudit(rows: map<nat, Row>, rows': map<nat, Row>) {
    && rows'.Keys == rows.Keys
    && forall id :: id in rows ==>
         && rows'[id].(auditedAt := rows[id].auditedAt) == rows[id]
         && (rows[id].auditedAt.Some? || !Terminal(rows[id].status) ==> rows'[id] == rows[id])
  }

  // ----- What is sent -----

  /** A delivery whose attempt calls a notifier. */
  predicate IsSent(rows: map<nat, Row>, destinations: set<string>, id: nat) {
    id in rows && Readable(rows[id].message) && rows[id].message.destination in destinations
  }

  function SendOf(rows: map<nat, Row>, destinations: set<string>, id: nat): multiset<nat> {
    if IsSent(rows, destinations, id) then multiset{id} else multiset{}
  }

  /** The notifier calls that attempting each of `ids` once makes. */
  function SendsOf(rows: map<nat, Row>, destinations: set<string>, ids: seq<nat>): multiset<nat>
    decreases |ids|
  {
    if ids == [] then multiset{}
    else SendsOf(rows, destinations, ids[..|ids| - 1]) + SendOf(rows, destinations, ids[|ids| - 1])
  }

  lemma OneMoreSend(rows: map<nat, Row>, destinations: set<string>, batch: seq<nat>, i: nat)
    requires i < |batch|
    ensures SendsOf(rows, destinations, batch[..i + 1])
      == SendsOf(rows, destinations, batch[..i]) + SendOf(rows, destinations, batch[i])
  {
    assert batch[..i + 1][..i] == batch[..i];
  }

  lemma {:induction false} SendsAtMost(rows: map<nat, Row>, destinations: set<string>, ids: seq<nat>)
    ensures |SendsOf(rows, destinations, ids)| <= |ids|
    decreases |ids|
  {
    if ids != [] { SendsAtMost(rows, destinations, ids[..|ids| - 1]); }
  }

  predicate AnySent(rows: map<nat, Row>, destinations: set<string>, ids: seq<nat>) {
    exists i :: 0 <= i < |ids| && IsSent(rows, destinations, ids[i])
  }

  lemma OneMoreOrNone(rows: map<nat, Row>, destinations: set<string>, rest: seq<nat>, id: nat)
    ensures AnySent(rows, destinations, rest + [id])
      <==> AnySent(rows, destinations, rest) || IsSent(rows, destinations, id)
  {
    var ids := rest + [id];
    assert ids[|rest|] == id && forall i :: 0 <= i < |rest| ==> ids[i] == rest[i];
  }

  lemma {:induction false} SendsSomethingIff(rows: map<nat, Row>, destinations: set<string>, ids: seq<nat>)
    ensures |SendsOf(rows, destinations, ids)| > 0 <==> AnySent(rows, destinations, ids)
    decreases |ids|
  {
    if ids != [] {
      var n := |ids| - 1;
      SendsSomethingIff(rows, destinations, ids[..n]);
      OneMoreOrNone(rows, destinations, ids[..n], ids[n]);
      assert ids == ids[..n] + [ids[n]];
    }
  }

  lemma {:induction false} SameSends(rows: map<nat, Row>, rows': map<nat, Row>, destinations: set<string>,
      ids: seq<nat>)
    requires forall i :: 0 <= i < |ids| ==>
      ids[i] in rows && ids[i] in rows' && rows'[ids[i]].message == rows[ids[i]].message
    ensures SendsOf(rows', destinations, ids) == SendsOf(rows, destinations, ids)
    decreases |ids|
  {
    if ids != [] { SameSends(rows, rows', destinations, ids[..|ids| - 1]); }
  }

  /** The calls made for the first few of `batch`, or for all of them. */
  predicate SentFrom(rows: map<nat, Row>, destinations: set<string>, batch: seq<nat>, whole: bool,
                     calls: multiset<nat>, calls': multiset<nat>) {
    exists k :: 0 <= k <= |batch| && (whole ==> k == |batch|)
      && calls' == calls + SendsOf(rows, destinations, batch[..k])
  }

  /** The selection is determined by the table. */
  lemma OldestIsUnique(rows: map<nat, Row>, order: Order, ids: set<nat>, limit: nat, b: seq<nat>, c: seq<nat>)
    requires Oldest(rows, order, ids, limit, b) && Oldest(rows, order, ids, limit, c)
    ensures b == c
  {
    var n := if |b| < |c| then |b| else |c|;
    OldestAgree(rows, order, ids, limit, b, c, n);
    NoMore(rows, order, ids, limit, b, c);
    NoMore(rows, order, ids, limit, c, b);
  }

  lemma NoMore(rows: map<nat, Row>, order: Order, ids: set<nat>, limit: nat, b: seq<nat>, c: seq<nat>)
    requires Oldest(rows, order, ids, limit, b) && Oldest(rows, order, ids, limit, c)
    requires |b| <= |c| ==> c[..|b|] == b
    ensures |c| <= |b|
  {
    if |b| < |c| { SomeLeftOut(ids, b, c); }
  }

  lemma SomeLeftOut(ids: set<nat>, b: seq<nat>, c: seq<nat>)
    requires |b| < |c| && c[..|b|] == b
    requires forall i :: 0 <= i < |c| ==> c[i] in ids
    requires forall i, j :: 0 <= i < j < |c| ==> c[i] != c[j]
    ensures exists id :: id in ids && id !in b
  {
    assert forall i :: 0 <= i < |b| ==> c[..|b|][i] != c[|b|];
    assert c[|b|] in ids && c[|b|] !in b;
  }

  lemma {:induction false} OldestAgree(rows: map<nat, Row>, order: Order, ids: set<nat>, limit: nat, b: seq<nat>,
      c: seq<nat>, n: nat)
    requires Oldest(rows, order, ids, limit, b) && Oldest(rows, order, ids, limit, c) && n <= |b| && n <= |c|
    ensures b[..n] == c[..n]
  {
    if n > 0 {
      OldestAgree(rows, order, ids, limit, b, c, n - 1);
      assert forall j :: 0 <= j < n - 1 ==> b[j] == b[..n - 1][j] == c[..n - 1][j] == c[j];
      NextAgrees(rows, order, ids, limit, b, c, n - 1);
    }
  }

  lemma NextAgrees(rows: map<nat, Row>, order: Order, ids: set<nat>, limit: nat, b: seq<nat>, c: seq<nat>, n: nat)
    requires Oldest(rows, order, ids, limit, b) && Oldest(rows, order, ids, limit, c) && n < |b| && n < |c|
    requires forall j :: 0 <= j < n ==> b[j] == c[j]
    ensures b[n] == c[n]
  {
    LaterInOther(rows, order, ids, limit, b, c, n);
    LaterInOther(rows, order, ids, limit, c, b, n);
  }

  lemma LaterInOther(rows: map<nat, Row>, order: Order, ids: set<nat>, limit: nat, b: seq<nat>, c: seq<nat>, n: nat)
    requires Oldest(rows, order, ids, limit, b) && Oldest(rows, order, ids, limit, c) && n < |b| && n < |c|
    requires forall j :: 0 <= j < n ==> b[j] == c[j]
    ensures b[n] == c[n] || Earlier(rows, order, b[n], c[n])
  {
    if b[n] != c[n] && c[n] in b {
      var j :| 0 <= j < |b| && b[j] == c[n];
      assert j > n;
    }
  }

  // ----- The dispatcher -----

  class AlertNotificationDispatcher {
    /** Destinations with a configured notifier. */
    const destinations: set<string>
    /** The table, and what clock, notifiers and recorder will answer. */
    var rows: map<nat, Row>
    var readings: seq<int>
    var sendAnswers: seq<bool>
    var recorderAnswers: seq<RecorderAnswer>

    /** The model's view: where this dispatcher is, and what notifiers and recorder have seen. */
    ghost var control: Control
    ghost var calls: multiset<nat>
    ghost var successes: multiset<nat>
    ghost var audits: seq<Audit>

    ghost function State(): World
      reads this`rows, this`control, this`calls, this`successes, this`audits
    {
      World(rows, map[0 := control], calls, successes, audits)
    }

    ghost predicate Ready()
      reads this`rows, this`control, this`calls, this`successes, this`audits
    {
      Inv(State()) && control.Idle?
    }

    method NowMs() returns (now: int)
      modifies this`readings
    {
      if readings == [] { return 0; }
      now := readings[0];
      readings := readings[1..];
    }

    /** Extends the run by one step that has just been taken. */
    ghost method Took(w: World, s: Step)
      requires Inv(w) && Enabled(w, s) && State() == Next(w, s)
      ensures Reaches(w, State()) && Inv(State())
    {
      ReachesItself(w);
      OneMoreStep(w, w, s);
      StepKeepsInv(w, s);
    }

    /** The claim of a row read earlier, by conditional update. */
    method ClaimRow(id: nat, seen: Row, now: int) returns (claimed: bool)
      requires Ready() && id in rows && seen.updatedAt <= now
      modifies this`rows, this`control
      ensures claimed == ClaimMatches(old(rows)[id], seen)
      ensures claimed ==> control == Claimed(id, now) && rows == old(rows)[id := Started(old(rows)[id], now)]
      ensures !claimed ==> control == Idle && rows == old(rows)
      ensures Reaches(old(State()), State()) && Inv(State())
    {
      ghost var w := State();
      claimed := ClaimMatches(rows[id], seen);
      if claimed {
        rows := rows[id := Started(rows[id], now)];
        control := Claimed(id, now);
      }
      Took(w, Claim(0, id, seen, now));
    }

    method BeginSend(id: nat, startedAt: int)
      requires Inv(State()) && control == Claimed(id, startedAt) && id in rows && Readable(rows[id].message)
      modifies this`control, this`calls
      ensures control == Sending(id, startedAt) && Reaches(old(State()), State()) && Inv(State())
      ensures calls == old(calls) + multiset{id}
    {
      ghost var w := State();
      control, calls := Sending(id, startedAt), calls + multiset{id};
      Took(w, Call(0));
    }

    method EndSend(id: nat, startedAt: int) returns (ok: bool)
      requires Inv(State()) && control == Sending(id, startedAt)
      modifies this`sendAnswers, this`control, this`successes
      ensures control == Answered(id, startedAt, ok) && Reaches(old(State()), State()) && Inv(State())
    {
      ghost var w := State();
      ok := sendAnswers == [] || sendAnswers[0];
      sendAnswers := if sendAnswers == [] then [] else sendAnswers[1..];
      control, successes := Answered(id, startedAt, ok), if ok then successes + multiset{id} else successes;
      Took(w, Answer(0, ok));
    }

    method RefuseRow(id: nat, startedAt: int, failure: Failure)
      requires Inv(State()) && control == Claimed(id, startedAt) && id in rows
      requires failure == if Readable(rows[id].message) then MissingDestination else InvalidNotification
      modifies this`control
      ensures control == Refused(id, startedAt, failure)
      ensures Reaches(old(State()), State()) && Inv(State())
    {
      ghost var w := State();
      control := Refused(id, startedAt, failure);
      Took(w, Refuse(0, failure));
    }

    /** `markDelivered` and `markFailed` up to the audit: the conditional update of the attempt. */
    method FinishRow(id: nat, startedAt: int, status: Status, error: Option<Failure>) returns (fault: Option<Fault>)
      requires Inv(State()) && (control.Answered? || control.Refused?) && control.id == id
        && control.startedAt == startedAt
      requires (status, error) == Outcome(control) && id in rows
      modifies this`readings, this`rows, this`control
      ensures control == Idle && Reaches(old(State()), State()) && Inv(State())
      ensures fault == None ==> exists now :: rows == old(rows)[id := Finished(old(rows)[id], status, now, error)]
      ensures fault != None ==> rows == old(rows)
      ensures fault == Some(Concurrency) ==> !AttemptMatches(rows[id], startedAt)
      ensures fault == None || fault == Some(BadClock) || fault == Some(ClockBehind) || fault == Some(Concurrency)
    {
      ghost var w := State();
      var now := NowMs();
      control := Idle;
      if now < 0 || now < startedAt {
        Took(w, Crash(0));
        return Some(if now < 0 then BadClock else ClockBehind);
      }
      if !AttemptMatches(rows[id], startedAt) {
        Took(w, Complete(0, now));
        return Some(Concurrency);
      }
      rows := rows[id := Finished(rows[id], status, now, error)];
      Took(w, Complete(0, now));
      return None;
    }

    method GiveUp()
      requires Inv(State())
      modifies this`control
      ensures control == Idle && Reaches(old(State()), State()) && Inv(State())
    {
      ghost var w := State();
      control := Idle;
      Took(w, Crash(0));
    }

    method ReadRow(id: nat)
      requires Ready() && id in rows && Terminal(rows[id].status) && rows[id].auditedAt == None
      modifies this`control
      ensures control == Auditing(id, rows[id]) && Reaches(old(State()), State()) && Inv(State())
    {
      ghost var w := State();
      control := Auditing(id, rows[id]);
      Took(w, ReadTerminal(0, id));
    }

    method RecorderReceives(id: nat)
      requires Inv(State()) && id in rows && control == Auditing(id, rows[id])
      modifies this`control, this`audits
      ensures control == Audited(id, rows[id]) && Reaches(old(State()), State()) && Inv(State())
    {
      ghost var w := State();
      audits := audits + [AuditOf(id, rows[id])];
      control := Audited(id, rows[id]);
      Took(w, Record(0));
    }

    /** The recorder may fail before or after it has taken the outcome in. */
    method TellRecorder(id: nat) returns (ok: bool)
      requires Inv(State()) && id in rows && control == Auditing(id, rows[id])
      modifies this`recorderAnswers, this`control, this`audits
      ensures control == (if ok then Audited(id, rows[id]) else Idle)
      ensures Reaches(old(State()), State()) && Inv(State())
    {
      ghost var w := State();
      var answer := if recorderAnswers == [] then Recorded else recorderAnswers[0];
      recorderAnswers := if recorderAnswers == [] then [] else recorderAnswers[1..];
      ok := answer == Recorded;
      if answer == NotRecorded {
        GiveUp();
      } else {
        RecorderReceives(id);
        if !ok {
          ghost var w1 := State();
          GiveUp();
          ReachesOn(w, w1, State());
        }
      }
    }

    method CheckpointRow(id: nat) returns (fault: Option<Fault>)
      requires Inv(State()) && id in rows && control == Audited(id, rows[id]) && rows[id].completedAt.Some?
      modifies this`readings, this`rows, this`control
      ensures control == Idle && Reaches(old(State()), State()) && Inv(State())
      ensures fault == None ==> exists now :: rows == old(rows)[id := old(rows)[id].(auditedAt := Some(now))]
      ensures fault != None ==> rows == old(rows)
      ensures fault == None || fault == Some(BadClock) || fault == Some(ClockBehind)
    {
      ghost var w := State();
      assert ControlOk(w, At(w, 0));
      var now := NowMs();
      control := Idle;
      if now < 0 || now < rows[id].completedAt.value {
        Took(w, Crash(0));
        return Some(if now < 0 then BadClock else ClockBehind);
      }
      rows := rows[id := rows[id].(auditedAt := Some(now))];
      Took(w, Checkpoint(0, now));
      return None;
    }

    /** `recordUnrecordedTerminalOutcome`. */
    method RecordOutcome(id: nat) returns (fault: Option<Fault>)
      requires Ready() && id in rows && Terminal(rows[id].status)
      modifies this`readings, this`recorderAnswers, this`rows, this`control, this`audits
      ensures Ready() && Reaches(old(State()), State())
      ensures SameButAudit(old(rows), rows) && KeptBut(old(rows), rows, [id])
      ensures fault == None ==> rows[id].auditedAt.Some?
      ensures fault != Some(Concurrency) && fault != Some(BatchSize)
    {
      ghost var w := State();
      ReachesItself(w);
      if rows[id].auditedAt != None { return None; }
      assert DeliveryOk(w, id);
      ReadRow(id);
      ghost var w1 := State();
      var ok := TellRecorder(id);
      ghost var w2 := State();
      ReachesOn(w, w1, w2);
      if !ok { return Some(RecorderFailed); }
      fault := CheckpointRow(id);
      ReachesOn(w, w2, State());
    }

    // ----- Flushing outcomes -----

    method RecordBatch(batch: seq<nat>) returns (fault: Option<Fault>)
      requires Ready() && forall i :: 0 <= i < |batch| ==> batch[i] in UnrecordedIds(rows)
      modifies this`readings, this`recorderAnswers, this`rows, this`control, this`audits
      ensures Ready() && Reaches(old(State()), State()) && SameButAudit(old(rows), rows)
      ensures fault == None ==> AllRecorded(rows, batch)
      ensures fault != Some(Concurrency) && fault != Some(BatchSize)
    {
      ghost var w := State();
      ReachesItself(w);
      for i := 0 to |batch|
        invariant Ready() && Reaches(w, State()) && SameButAudit(w.rows, rows)
        invariant AllRecorded(rows, batch[..i])
      {
        ghost var w1 := State();
        assert batch[i] in UnrecordedIds(w.rows);
        StillTerminal(w.rows, rows, batch[i]);
        fault := RecordOutcome(batch[i]);
        ReachesOn(w, w1, State());
        SameButAuditOn(w.rows, w1.rows, rows);
        if fault != None { return; }
        OneMoreRecorded(w1.rows, rows, batch, i);
      }
      assert batch[..|batch|] == batch;
      return None;
    }

    /** `flushUnrecordedTerminalOutcomes`: with no other producer it ends, and leaves nothing unrecorded. */
    method FlushOutcomes() returns (fault: Option<Fault>)
      requires Ready()
      modifies this`readings, this`recorderAnswers, this`rows, this`control, this`audits
      ensures Ready() && Reaches(old(State()), State()) && SameButAudit(old(rows), rows)
      ensures fault == None ==> UnrecordedIds(rows) == {}
      ensures fault != Some(Concurrency) && fault != Some(BatchSize)
    {
      ghost var w := State();
      ReachesItself(w);
      while true
        invariant Ready() && Reaches(w, State()) && SameButAudit(w.rows, rows)
        decreases UnrecordedIds(rows)
      {
        ghost var w1 := State();
        var batch := SelectOldest(rows, ByCompletion, UnrecordedIds(rows), MAX_BATCH);
        fault := RecordBatch(batch);
        ReachesOn(w, w1, State());
        if fault != None { return; }
        FlushedFurther(w1.rows, rows, batch);
        if |batch| < MAX_BATCH { return; }
      }
    }

    // ----- Recovery -----

    method InterruptRow(id: nat, seen: Row, now: int)
      requires Ready() && id in rows && seen == rows[id] && seen.status == Attempting
      requires seen.attemptStartedAt.Some? && seen.attemptStartedAt.value <= now
      modifies this`rows
      ensures Ready() && Reaches(old(State()), State())
      ensures rows == old(rows)[id := Finished(old(rows)[id], OutcomeUnknown, now, Some(Interrupted))]
    {
      ghost var w := State();
      assert DeliveryOk(w, id);
      rows := rows[id := Finished(rows[id], OutcomeUnknown, now, Some(Interrupted))];
      Took(w, Interrupt(0, id, seen, now));
    }

    method InterruptAll(ids: set<nat>, now: int)
      requires Ready() && ids == AttemptingIds(rows)
      requires forall id :: id in ids ==> rows[id].attemptStartedAt.Some? && rows[id].attemptStartedAt.value <= now
      modifies this`rows
      ensures Ready() && Reaches(old(State()), State()) && AllInterrupted(old(rows), rows, ids, now)
    {
      ghost var w := State();
      ReachesItself(w);
      var todo := ids;
      while todo != {}
        invariant todo <= ids && Ready() && Reaches(w, State()) && AllInterrupted(w.rows, rows, ids - todo, now)
        decreases todo
      {
        ghost var w1 := State();
        var id := Sets.AnyOf(todo);
        InterruptRow(id, rows[id], now);
        ReachesOn(w, w1, State());
        todo := todo - {id};
      }
      assert ids - todo == ids;
    }

    /** `recoverInterrupted`: whatever an earlier process left in the middle is given up as unknown, never
        tried again; all outcomes are then recorded. */
    method RecoverInterrupted() returns (fault: Option<Fault>)
      requires Ready()
      modifies this`readings, this`recorderAnswers, this`rows, this`control, this`audits
      ensures Ready() && Reaches(old(State()), State())
      ensures calls == old(calls)
      ensures fault == None ==>
        && AttemptingIds(rows) == {} && UnrecordedIds(rows) == {} && PendingIds(rows) == PendingIds(old(rows))
        && forall id :: id in AttemptingIds(old(rows)) ==> id in rows && rows[id].status == OutcomeUnknown
      ensures fault != Some(Concurrency) && fault != Some(BatchSize)
    {
      ghost var w := State();
      ReachesItself(w);
      var now := NowMs();
      if now < 0 { return Some(BadClock); }
      var ids := AttemptingIds(rows);
      forall id | id in ids ensures rows[id].attemptStartedAt.Some? { assert DeliveryOk(w, id); }
      if exists id :: id in ids && now < rows[id].attemptStartedAt.value { return Some(ClockBehind); }
      InterruptAll(ids, now);
      ghost var w1 := State();
      fault := FlushOutcomes();
      ReachesOn(w, w1, State());
      RecoveredTable(w.rows, w1.rows, rows, now);
    }

    // ----- Dispatching -----

    /** A claimed delivery is refused or sent; `outcome` is what is to be written down. */
    method Attempt(id: nat, startedAt: int) returns (outcome: DispatchOutcome)
      requires Inv(State()) && control == Claimed(id, startedAt) && id in rows
      modifies this`sendAnswers, this`control, this`calls, this`successes
      ensures Inv(State()) && Reaches(old(State()), State())
      ensures (control.Answered? || control.Refused?) && control.id == id && control.startedAt == startedAt
      ensures outcome.id == id && (outcome.status, outcome.error) == Outcome(control)
      ensures calls == old(calls) + SendOf(rows, destinations, id)
    {
      ghost var w := State();
      if !Readable(rows[id].message) {
        RefuseRow(id, startedAt, InvalidNotification);
        return DispatchOutcome(id, Failed, Some(InvalidNotification));
      }
      if rows[id].message.destination !in destinations {
        RefuseRow(id, startedAt, MissingDestination);
        return DispatchOutcome(id, Failed, Some(MissingDestination));
      }
      BeginSend(id, startedAt);
      ghost var w1 := State();
      var ok := EndSend(id, startedAt);
      ReachesOn(w, w1, State());
      return if ok then DispatchOutcome(id, Delivered, None) else DispatchOutcome(id, Failed, Some(NotifierFailed));
    }

    /** One claimed delivery: attempted, finished and audited. */
    method Deliver(id: nat, startedAt: int) returns (outcome: DispatchOutcome, fault: Option<Fault>)
      requires Inv(State()) && control == Claimed(id, startedAt) && id in rows && rows[id].status == Attempting
      modifies this`readings, this`sendAnswers, this`recorderAnswers, this`rows, this`control, this`calls,
        this`successes
      modifies this`audits
      ensures Ready() && Reaches(old(State()), State())
      ensures KeptBut(old(rows), rows, [id]) && calls == old(calls) + SendOf(old(rows), destinations, id)
      ensures fault == None ==> Settled(rows, id, outcome)
      ensures fault != Some(Concurrency) && fault != Some(BatchSize)
    {
      ghost var w := State();
      assert ControlOk(w, At(w, 0)) && DeliveryOk(w, id);
      outcome := Attempt(id, startedAt);
      ghost var w1 := State();
      fault := FinishRow(id, startedAt, outcome.status, outcome.error);
      ghost var w2 := State();
      ReachesOn(w, w1, w2);
      if fault != None { return; }
      ghost var now :| w2.rows == w1.rows[id := Finished(w1.rows[id], outcome.status, now, outcome.error)];
      fault := RecordOutcome(id);
      ReachesOn(w, w2, State());
      FinishedAndRecorded(w1.rows, rows, id, outcome, now);
    }

    /** One selected row, as long as it is still as it was read. Its notifier is called unless the message cannot
        be read or its destination is not configured, or the clock failed before. */
    method DispatchOne(id: nat) returns (outcome: DispatchOutcome, fault: Option<Fault>)
      requires Ready() && id in PendingIds(rows)
      modifies this`readings, this`sendAnswers, this`recorderAnswers, this`rows, this`control, this`calls,
        this`successes
      modifies this`audits
      ensures Ready() && Reaches(old(State()), State())
      ensures KeptBut(old(rows), rows, [id])
      ensures calls == old(calls) + SendOf(old(rows), destinations, id) || (fault != None && calls == old(calls))
      ensures fault == None ==> Settled(rows, id, outcome)
      ensures fault != Some(Concurrency) && fault != Some(BatchSize)
    {
      ghost var w := State();
      ReachesItself(w);
      outcome := DispatchOutcome(id, Pending, None);
      var now := NowMs();
      if now < 0 { return outcome, Some(BadClock); }
      if now < rows[id].updatedAt { return outcome, Some(ClockBehind); }
      assert DeliveryOk(w, id);
      var claimed := ClaimRow(id, rows[id], now);
      ghost var w1 := State();
      outcome, fault := Deliver(id, now);
      ReachesOn(w, w1, State());
    }

    method DispatchBatch(batch: seq<nat>) returns (outcomes: seq<DispatchOutcome>, fault: Option<Fault>)
      requires Ready() && forall i :: 0 <= i < |batch| ==> batch[i] in PendingIds(rows)
      requires forall i, j :: 0 <= i < j < |batch| ==> batch[i] != batch[j]
      modifies this`readings, this`sendAnswers, this`recorderAnswers, this`rows, this`control, this`calls,
        this`successes
      modifies this`audits
      ensures Ready() && Reaches(old(State()), State())
      ensures KeptBut(old(rows), rows, batch)
      ensures SentFrom(old(rows), destinations, batch, fault == None, old(calls), calls)
      ensures fault == None ==> AllSettled(rows, batch, outcomes)
      ensures fault != Some(Concurrency) && fault != Some(BatchSize)
    {
      ghost var w := State();
      ReachesItself(w);
      outcomes := [];
      for i := 0 to |batch|
        invariant Ready() && Reaches(w, State())
        invariant BatchDone(w.rows, rows, destinations, batch[..i], outcomes, w.calls, calls)
      {
        ghost var w1 := State();
        var outcome;
        StillPending(w.rows, rows, destinations, batch, i, outcomes, w.calls, calls);
        outcome, fault := DispatchOne(batch[i]);
        ReachesOn(w, w1, State());
        if fault != None {
          BatchBrokenOff(w.rows, w1.rows, rows, destinations, batch, i, outcomes, w.calls, w1.calls, calls);
          return;
        }
        OneMoreDone(w.rows, w1.rows, rows, destinations, batch, i, outcomes, outcome, w.calls, w1.calls, calls);
        outcomes := outcomes + [outcome];
      }
      WholeBatch(w.rows, rows, destinations, batch, outcomes, w.calls, calls);
      return outcomes, None;
    }

    /** `dispatchPending`: the oldest pending deliveries, each settled once and audited; exactly those that can be
        are sent, and after a fault those of a prefix. */
    method DispatchPending(batchSize: int) returns (outcomes: seq<DispatchOutcome>, fault: Option<Fault>)
      requires Ready()
      modifies this`readings, this`sendAnswers, this`recorderAnswers, this`rows, this`control, this`calls,
        this`successes
      modifies this`audits
      ensures Ready() && Reaches(old(State()), State())
      ensures fault == Some(BatchSize) <==> !(0 < batchSize <= MAX_BATCH)
      ensures fault != Some(Concurrency)
      ensures fault != None && calls != old(calls) ==>
        0 < batchSize && exists batch :: BrokenOff(old(rows), destinations, batchSize, batch, old(calls), calls)
      ensures fault == None ==>
        exists batch :: Dispatched(old(rows), rows, destinations, batchSize, batch, outcomes, old(calls), calls)
      ensures fault == None ==> UnrecordedIds(rows) == {}
    {
      ghost var w := State();
      ReachesItself(w);
      outcomes := [];
      if batchSize <= 0 || batchSize > MAX_BATCH { return outcomes, Some(BatchSize); }
      fault := FlushOutcomes();
      if fault != None { return; }
      ghost var w1 := State();
      SamePending(w.rows, rows);
      var batch := SelectOldest(rows, ByCreation, PendingIds(rows), batchSize);
      outcomes, fault := DispatchBatch(batch);
      ReachesOn(w, w1, State());
      if fault == None {
        AllDispatched(w.rows, w1.rows, rows, destinations, batchSize, batch, outcomes, w.calls, calls);
      } else {
        SomeDispatched(w.rows, w1.rows, destinations, batchSize, batch, w.calls, calls);
      }
    }
  }

  /** What dispatching the oldest pending deliveries has done without a fault... */
  ghost predicate Dispatched(rows: map<nat, Row>, rows': map<nat, Row>, destinations: set<string>, limit: nat,
      batch: seq<nat>, outcomes: seq<DispatchOutcome>, calls: multiset<nat>, calls': multiset<nat>) {
    && Oldest(rows, ByCreation, PendingIds(rows), limit, batch) && AllSettled(rows', batch, outcomes)
    && SentFrom(rows, destinations, batch, true, calls, calls')
    && forall id :: id in PendingIds(rows') <==> id in PendingIds(rows) && id !in batch
  }

  /** ...and with one. */
  predicate BrokenOff(rows: map<nat, Row>, destinations: set<string>, limit: nat, batch: seq<nat>,
                      calls: multiset<nat>, calls': multiset<nat>) {
    Oldest(rows, ByCreation, PendingIds(rows), limit, batch)
      && SentFrom(rows, destinations, batch, false, calls, calls')
  }

  lemma AllDispatched(rows: map<nat, Row>, rows1: map<nat, Row>, rows2: map<nat, Row>, destinations: set<string>,
      limit: nat, batch: seq<nat>, outcomes: seq<DispatchOutcome>, calls: multiset<nat>, calls': multiset<nat>)
    requires SameButAudit(rows, rows1) && UnrecordedIds(rows1) == {} && PendingIds(rows1) == PendingIds(rows)
    requires Oldest(rows1, ByCreation, PendingIds(rows1), limit, batch)
    requires KeptBut(rows1, rows2, batch) && AllSettled(rows2, batch, outcomes)
    requires SentFrom(rows1, destinations, batch, true, calls, calls')
    ensures Dispatched(rows, rows2, destinations, limit, batch, outcomes, calls, calls') && UnrecordedIds(rows2) == {}
  {
    SameOldest(rows, rows1, limit, batch);
    SameSentFrom(rows, rows1, destinations, batch, true, calls, calls');
    SettledBatch(rows1, rows2, batch, outcomes);
  }

  lemma SomeDispatched(rows: map<nat, Row>, rows1: map<nat, Row>, destinations: set<string>, limit: nat,
      batch: seq<nat>, calls: multiset<nat>, calls': multiset<nat>)
    requires SameButAudit(rows, rows1) && PendingIds(rows1) == PendingIds(rows)
    requires Oldest(rows1, ByCreation, PendingIds(rows1), limit, batch)
      && SentFrom(rows1, destinations, batch, false, calls, calls')
    ensures BrokenOff(rows, destinations, limit, batch, calls, calls')
  {
    SameOldest(rows, rows1, limit, batch);
    SameSentFrom(rows, rows1, destinations, batch, false, calls, calls');
  }

  lemma SameSentFrom(rows: map<nat, Row>, rows1: map<nat, Row>, destinations: set<string>, batch: seq<nat>, whole: bool,
                     calls: multiset<nat>, calls': multiset<nat>)
    requires SameButAudit(rows, rows1) && (forall i :: 0 <= i < |batch| ==> batch[i] in rows)
    requires SentFrom(rows1, destinations, batch, whole, calls, calls')
    ensures SentFrom(rows, destinations, batch, whole, calls, calls')
  {
    var k :| 0 <= k <= |batch| && (whole ==> k == |batch|)
      && calls' == calls + SendsOf(rows1, destinations, batch[..k]);
    forall i | 0 <= i < k ensures rows1[batch[i]].message == rows[batch[i]].message {
      assert rows1[batch[i]].(auditedAt := rows[batch[i]].auditedAt) == rows[batch[i]];
    }
    SameSends(rows, rows1, destinations, batch[..k]);
  }

  lemma SameButAuditOn(rows: map<nat, Row>, rows1: map<nat, Row>, rows2: map<nat, Row>)
    requires SameButAudit(rows, rows1) && SameButAudit(rows1, rows2)
    ensures SameButAudit(rows, rows2)
  {
    forall id | id in rows
      ensures rows2[id].(auditedAt := rows[id].auditedAt) == rows[id]
      ensures rows[id].auditedAt.Some? || !Terminal(rows[id].status) ==> rows2[id] == rows[id]
    {
      assert rows1[id].(auditedAt := rows[id].auditedAt) == rows[id];
      assert rows2[id].(auditedAt := rows1[id].auditedAt) == rows1[id];
    }
  }

  predicate AllRecorded(rows: map<nat, Row>, ids: seq<nat>) {
    forall i :: 0 <= i < |ids| ==> ids[i] in rows && rows[ids[i]].auditedAt.Some?
  }

  lemma OneMoreRecorded(rows: map<nat, Row>, rows': map<nat, Row>, batch: seq<nat>, i: nat)
    requires i < |batch| && AllRecorded(rows, batch[..i]) && SameButAudit(rows, rows')
    requires batch[i] in rows' && rows'[batch[i]].auditedAt.Some?
    ensures AllRecorded(rows', batch[..i + 1])
  {
    forall j | 0 <= j < i ensures batch[j] in rows' && rows'[batch[j]] == rows[batch[j]] {
      assert batch[..i][j] == batch[j];
    }
  }

  lemma StillTerminal(rows: map<nat, Row>, rows': map<nat, Row>, id: nat)
    requires SameButAudit(rows, rows') && id in rows
    ensures rows'[id].status == rows[id].status
  {
    assert rows'[id].(auditedAt := rows[id].auditedAt) == rows[id];
  }

  /** Recording a batch takes exactly its rows off the list. */
  lemma FlushedFurther(rows: map<nat, Row>, rows': map<nat, Row>, batch: seq<nat>)
    requires SameButAudit(rows, rows') && Oldest(rows, ByCompletion, UnrecordedIds(rows), MAX_BATCH, batch)
    requires AllRecorded(rows', batch)
    ensures UnrecordedIds(rows') <= UnrecordedIds(rows)
    ensures |batch| < MAX_BATCH ==> UnrecordedIds(rows') == {}
    ensures |batch| == MAX_BATCH ==> UnrecordedIds(rows') < UnrecordedIds(rows)
  {
    forall id | id in UnrecordedIds(rows') ensures id in UnrecordedIds(rows) && id !in batch {
      assert rows'[id].(auditedAt := rows[id].auditedAt) == rows[id];
    }
    if |batch| == MAX_BATCH { assert batch[0] in UnrecordedIds(rows) && batch[0] !in UnrecordedIds(rows'); }
  }

  /** The delivery has reached the outcome reported for it, and the recorder has confirmed it. */
  predicate Settled(rows: map<nat, Row>, id: nat, outcome: DispatchOutcome) {
    && id in rows && outcome.id == id && Terminal(rows[id].status)
    && rows[id].status == outcome.status && rows[id].error == outcome.error && rows[id].auditedAt.Some?
  }

  /** Only the rows of `ids` may have changed. */
  predicate KeptBut(rows: map<nat, Row>, rows': map<nat, Row>, ids: seq<nat>) {
    rows'.Keys == rows.Keys && forall id :: id in rows && id !in ids ==> rows'[id] == rows[id]
  }

  lemma FinishedAndRecorded(rows: map<nat, Row>, rows': map<nat, Row>, id: nat, outcome: DispatchOutcome, now: int)
    requires id in rows && outcome.id == id && Terminal(outcome.status)
    requires var finished := rows[id := Finished(rows[id], outcome.status, now, outcome.error)];
             SameButAudit(finished, rows') && KeptBut(finished, rows', [id])
    ensures KeptBut(rows, rows', [id]) && (rows'[id].auditedAt.Some? ==> Settled(rows', id, outcome))
  {
    var finished := rows[id := Finished(rows[id], outcome.status, now, outcome.error)];
    assert rows'[id].(auditedAt := finished[id].auditedAt) == finished[id];
  }

  lemma OneMoreKept(rows: map<nat, Row>, rows1: map<nat, Row>, rows2: map<nat, Row>, batch: seq<nat>, i: nat)
    requires i < |batch| && KeptBut(rows, rows1, batch[..i]) && KeptBut(rows1, rows2, [batch[i]])
    ensures KeptBut(rows, rows2, batch[..i + 1]) && KeptBut(rows, rows2, batch)
    ensures batch[..i + 1] == batch[..i] + [batch[i]]
  {
  }

  predicate AllSettled(rows: map<nat, Row>, batch: seq<nat>, outcomes: seq<DispatchOutcome>) {
    |outcomes| == |batch| && forall i :: 0 <= i < |batch| ==> Settled(rows, batch[i], outcomes[i])
  }

  lemma OneMoreSettled(rows: map<nat, Row>, rows': map<nat, Row>, batch: seq<nat>, outcomes: seq<DispatchOutcome>,
                       id: nat, outcome: DispatchOutcome)
    requires AllSettled(rows, batch, outcomes) && KeptBut(rows, rows', [id]) && id !in batch
    requires Settled(rows', id, outcome)
    ensures AllSettled(rows', batch + [id], outcomes + [outcome])
  {
    forall i | 0 <= i < |batch| ensures Settled(rows', batch[i], outcomes[i]) {
      assert Settled(rows, batch[i], outcomes[i]) && batch[i] in batch;
    }
  }

  /** What dispatching `batch` without a fault has done. */
  predicate BatchDone(rows: map<nat, Row>, rows': map<nat, Row>, destinations: set<string>, batch: seq<nat>,
                      outcomes: seq<DispatchOutcome>, calls: multiset<nat>, calls': multiset<nat>) {
    KeptBut(rows, rows', batch) && AllSettled(rows', batch, outcomes)
      && calls' == calls + SendsOf(rows, destinations, batch)
  }

  lemma StillPending(rows: map<nat, Row>, rows1: map<nat, Row>, destinations: set<string>, batch: seq<nat>, i: nat,
                     outcomes: seq<DispatchOutcome>, calls: multiset<nat>, calls1: multiset<nat>)
    requires i < |batch| && BatchDone(rows, rows1, destinations, batch[..i], outcomes, calls, calls1)
    requires (forall j, k :: 0 <= j < k < |batch| ==> batch[j] != batch[k]) && batch[i] in PendingIds(rows)
    ensures batch[i] !in batch[..i] && rows1[batch[i]] == rows[batch[i]] && batch[i] in PendingIds(rows1)
  {
  }

  lemma OneMoreDone(rows: map<nat, Row>, rows1: map<nat, Row>, rows2: map<nat, Row>, destinations: set<string>,
      batch: seq<nat>, i: nat, outcomes: seq<DispatchOutcome>, outcome: DispatchOutcome,
                    calls: multiset<nat>, calls1: multiset<nat>, calls2: multiset<nat>)
    requires i < |batch| && BatchDone(rows, rows1, destinations, batch[..i], outcomes, calls, calls1)
    requires batch[i] !in batch[..i] && batch[i] in rows && rows1[batch[i]] == rows[batch[i]]
    requires KeptBut(rows1, rows2, [batch[i]]) && Settled(rows2, batch[i], outcome)
    requires calls2 == calls1 + SendOf(rows1, destinations, batch[i])
    ensures BatchDone(rows, rows2, destinations, batch[..i + 1], outcomes + [outcome], calls, calls2)
  {
    OneMoreKept(rows, rows1, rows2, batch, i);
    OneMoreSettled(rows1, rows2, batch[..i], outcomes, batch[i], outcome);
    OneMoreSend(rows, destinations, batch, i);
  }

  lemma WholeBatch(rows: map<nat, Row>, rows': map<nat, Row>, destinations: set<string>, batch: seq<nat>,
                   outcomes: seq<DispatchOutcome>, calls: multiset<nat>, calls': multiset<nat>)
    requires BatchDone(rows, rows', destinations, batch[..|batch|], outcomes, calls, calls')
    ensures KeptBut(rows, rows', batch) && AllSettled(rows', batch, outcomes)
    ensures SentFrom(rows, destinations, batch, true, calls, calls')
  {
    assert batch[..|batch|] == batch;
  }

  lemma BatchBrokenOff(rows: map<nat, Row>, rows1: map<nat, Row>, rows2: map<nat, Row>, destinations: set<string>,
      batch: seq<nat>, i: nat, outcomes: seq<DispatchOutcome>, calls: multiset<nat>, calls1: multiset<nat>,
      calls2: multiset<nat>)
    requires i < |batch| && BatchDone(rows, rows1, destinations, batch[..i], outcomes, calls, calls1)
    requires batch[i] in rows && rows1[batch[i]] == rows[batch[i]] && KeptBut(rows1, rows2, [batch[i]])
    requires calls2 == calls1 + SendOf(rows1, destinations, batch[i]) || calls2 == calls1
    ensures KeptBut(rows, rows2, batch) && SentFrom(rows, destinations, batch, false, calls, calls2)
  {
    OneMoreKept(rows, rows1, rows2, batch, i);
    OneMoreSend(rows, destinations, batch, i);
    if calls2 == calls1 {
      assert calls2 == calls + SendsOf(rows, destinations, batch[..i]);
    } else {
      assert calls2 == calls + SendsOf(rows, destinations, batch[..i + 1]);
    }
  }

  lemma SamePending(rows: map<nat, Row>, rows': map<nat, Row>)
    requires SameButAudit(rows, rows')
    ensures PendingIds(rows') == PendingIds(rows)
  {
    forall id | id in rows ensures rows'[id].status == rows[id].status {
      assert rows'[id].(auditedAt := rows[id].auditedAt) == rows[id];
    }
  }

  lemma SameOldest(rows: map<nat, Row>, rows': map<nat, Row>, limit: nat, chosen: seq<nat>)
    requires SameButAudit(rows, rows') && PendingIds(rows') == PendingIds(rows)
    requires Oldest(rows', ByCreation, PendingIds(rows'), limit, chosen)
    ensures Oldest(rows, ByCreation, PendingIds(rows), limit, chosen)
  {
    forall a, b ensures Earlier(rows, ByCreation, a, b) == Earlier(rows', ByCreation, a, b) {
      assert a in rows ==> rows'[a].(auditedAt := rows[a].auditedAt) == rows[a];
      assert b in rows ==> rows'[b].(auditedAt := rows[b].auditedAt) == rows[b];
    }
  }

  lemma SettledBatch(rows: map<nat, Row>, rows': map<nat, Row>, batch: seq<nat>, outcomes: seq<DispatchOutcome>)
    requires KeptBut(rows, rows', batch) && UnrecordedIds(rows) == {} && AllSettled(rows', batch, outcomes)
    ensures UnrecordedIds(rows') == {}
    ensures forall id :: id in PendingIds(rows') <==> id in PendingIds(rows) && id !in batch
  {
    forall id | id in rows' && id in batch ensures Terminal(rows'[id].status) && rows'[id].auditedAt.Some? {
      var i :| 0 <= i < |batch| && batch[i] == id;
      assert Settled(rows', batch[i], outcomes[i]);
    }
    forall id | id in rows' && id !in batch ensures id !in UnrecordedIds(rows') {
      assert rows'[id] == rows[id] && id !in UnrecordedIds(rows);
    }
  }

  predicate AllInterrupted(rows: map<nat, Row>, rows': map<nat, Row>, ids: set<nat>, now: int) {
    && rows'.Keys == rows.Keys
    && forall id :: id in rows ==>
         rows'[id] == if id in ids then Finished(rows[id], OutcomeUnknown, now, Some(Interrupted)) else rows[id]
  }

  lemma RecoveredTable(rows: map<nat, Row>, rows1: map<nat, Row>, rows2: map<nat, Row>, now: int)
    requires AllInterrupted(rows, rows1, AttemptingIds(rows), now) && SameButAudit(rows1, rows2)
    ensures AttemptingIds(rows2) == {} && PendingIds(rows2) == PendingIds(rows)
    ensures forall id :: id in AttemptingIds(rows) ==> id in rows2 && rows2[id].status == OutcomeUnknown
  {
    forall id | id in rows ensures rows2[id].status == rows1[id].status { StillTerminal(rows1, rows2, id); }
  }
}
