/** The runtime that drives a dispatcher: recovery at start, then polling cycles until stopped or failed. */
module NotificationRuntime {
  import opened Options
  import opened NotificationModel
  import opened NotificationSafety
  import opened NotificationDispatcher

  datatype StartResult = Resolved | AlreadyStarted | CannotRestart | StartFailed(fault: Fault)

  /** What has been sent since `w`, the state in which the dispatch began during which `stop` was called: what its
      batch holds to be sent, or after a fault the beginning of that. */
  ghost predicate SentAfterStop(destinations: set<string>, w: World, whole: bool, calls: multiset<nat>) {
    || (exists batch ::
          && Oldest(w.rows, ByCreation, PendingIds(w.rows), MAX_BATCH, batch)
          && SentFrom(w.rows, destinations, batch, whole, w.calls, calls))
    || (!whole && calls == w.calls)
  }

  /** `AlertNotificationRuntime`; `armed` says that a poll is scheduled. Of `stop`, which may be called at any
      time, `stops` tells for the recovery and each dispatch to come whether it is called during it. */
  class AlertNotificationRuntime {
    const dispatcher: AlertNotificationDispatcher
    var started: bool
    var stopping: bool
    var fatal: Option<Fault>
    var armed: bool
    var stops: seq<bool>

    /** The state in which the recovery or dispatch began during which `stop` was called. */
    ghost var atStop: Option<World>

    constructor (d: AlertNotificationDispatcher, script: seq<bool>)
      ensures dispatcher == d && stops == script && Valid() && !started && !stopping && fatal == None && atStop == None
    {
      dispatcher := d;
      started, stopping, fatal, armed := false, false, None, false;
      stops, atStop := script, None;
    }

    predicate IsReady()
      reads this
    {
      started && !stopping && fatal == None
    }

    /** A ready runtime always has its next poll scheduled, and a failed or stopped one never. */
    ghost predicate Valid()
      reads this
    {
      (armed <==> IsReady()) && (fatal != None || atStop.Some? ==> stopping)
    }

    predicate StopsNext()
      reads this`stops
    {
      stops != [] && stops[0]
    }

    method Fail(error: Fault)
      modifies this`fatal, this`stopping, this`armed
      ensures fatal == (if old(fatal) == None then Some(error) else old(fatal))
      ensures stopping == (old(stopping) || old(fatal) == None)
      ensures armed == (old(armed) && old(fatal) != None)
    {
      if fatal != None { return; }
      fatal, stopping, armed := Some(error), true, false;
    }

    method ArmPoll()
      modifies this`armed
      ensures armed == (old(armed) || !stopping)
    {
      if stopping { return; }
      armed := true;
    }

    method StopCalled() returns (called: bool)
      modifies this`stops
      ensures called == old(StopsNext())
    {
      if stops == [] { return false; }
      called := stops[0];
      stops := stops[1..];
    }

    /** The part of `stop` before it waits. */
    method BeginStop()
      modifies this`stopping, this`armed
      ensures stopping && !armed
    {
      stopping, armed := true, false;
    }

    /** A polling cycle: batches until one comes back short or the runtime is stopped. With no producer at work
        it ends. Unless it was stopped, either the outbox is drained and audited, or the runtime has failed for
        good. Once `stop` has been called, exactly what the batch in progress holds to be sent is still sent. */
    method RunCycle() returns (stopped: bool)
      requires dispatcher.Ready() && (atStop.Some? ==> stopping)
      modifies this`fatal, this`stopping, this`armed, this`stops, this`atStop, dispatcher
      ensures dispatcher.Ready() && Reaches(old(dispatcher.State()), dispatcher.State())
      ensures fatal == old(fatal) && !stopped ==> stopping == old(stopping) && armed == old(armed)
      ensures fatal != old(fatal) ==> fatal != None && stopping && !armed
      ensures stopped ==>
        && stopping && !armed && atStop.Some? && Reaches(old(dispatcher.State()), atStop.value)
        && SentAfterStop(dispatcher.destinations, atStop.value, fatal == None, dispatcher.calls)
      ensures !stopped ==> atStop == old(atStop)
      ensures old(stopping) ==> !stopped && dispatcher.calls == old(dispatcher.calls)
      ensures old(!stopping && fatal == None) && fatal == None && !stopped ==>
        !stopping && PendingIds(dispatcher.rows) == {} && UnrecordedIds(dispatcher.rows) == {}
      ensures old(fatal) != None ==> fatal == old(fatal)
    {
      ghost var w := dispatcher.State();
      ReachesItself(w);
      stopped := false;
      while !stopping
        invariant dispatcher.Ready() && Reaches(w, dispatcher.State())
        invariant old(stopping) ==> !stopped && dispatcher.calls == old(dispatcher.calls)
        invariant fatal == old(fatal)
          && (!stopped ==> stopping == old(stopping) && armed == old(armed) && atStop == old(atStop))
        invariant stopped ==>
          && stopping && !armed && atStop.Some? && Reaches(w, atStop.value)
          && SentAfterStop(dispatcher.destinations, atStop.value, true, dispatcher.calls)
        decreases !stopping, PendingIds(dispatcher.rows)
      {
        ghost var w1 := dispatcher.State();
        stopped := StopCalled();
        var outcomes, fault := dispatcher.DispatchPending(MAX_BATCH);
        ReachesOn(w, w1, dispatcher.State());
        if stopped {
          BeginStop();
          atStop := Some(w1);
        }
        if fault != None {
          Fail(fault.value);
          return;
        }
        ghost var batch :|
          Dispatched(w1.rows, dispatcher.rows, dispatcher.destinations, MAX_BATCH, batch, outcomes, w1.calls,
            dispatcher.calls);
        DispatchedFurther(w1.rows, dispatcher.rows, batch);
        if |outcomes| < MAX_BATCH { return; }
      }
    }

    /** `start`: recovery first, then a cycle, then polling. A `stop` during the recovery or this first cycle does
        not wait: it has resolved while the batch in progress is still being sent, and `start` then resolves, too. */
    method Start() returns (result: StartResult)
      requires dispatcher.Ready() && Valid()
      modifies this, dispatcher
      ensures dispatcher.Ready() && Valid() && Reaches(old(dispatcher.State()), dispatcher.State())
      ensures result == AlreadyStarted <==> old(started)
      ensures result == CannotRestart <==> old(!started && stopping)
      ensures result == AlreadyStarted || result == CannotRestart ==> dispatcher.calls == old(dispatcher.calls)
      ensures result.StartFailed? ==> fatal == Some(result.fault) && !IsReady()
      ensures result == Resolved && IsReady() ==>
        && PendingIds(dispatcher.rows) == {} && UnrecordedIds(dispatcher.rows) == {}
        && forall id :: id in AttemptingIds(old(dispatcher.rows)) ==>
             id in dispatcher.rows && dispatcher.rows[id].status == OutcomeUnknown
      ensures result == Resolved && !IsReady() ==> !started && stopping && fatal == None && atStop.Some?
      ensures (result == Resolved || result.StartFailed?) && atStop.Some? ==>
        && Reaches(old(dispatcher.State()), atStop.value)
        && if old(StopsNext()) then dispatcher.calls == atStop.value.calls
           else SentAfterStop(dispatcher.destinations, atStop.value, fatal == None, dispatcher.calls)
    {
      ghost var w := dispatcher.State();
      ReachesItself(w);
      if started { return AlreadyStarted; }
      if stopping { return CannotRestart; }
      started := true;
      var early := StopCalled();
      var fault := dispatcher.RecoverInterrupted();
      ghost var w1 := dispatcher.State();
      if early {
        BeginStop();
        started, atStop := false, Some(w);
      }
      if fault != None {
        Fail(fault.value);
        return StartFailed(fault.value);
      }
      var stopped := RunCycle();
      if stopped {
        started := false;
        ReachesOn(w, w1, atStop.value);
      }
      ReachesOn(w, w1, dispatcher.State());
      if fatal != None { return StartFailed(fatal.value); }
      ArmPoll();
      StillUnknown(w, w1, dispatcher.State());
      return Resolved;
    }

    /** The scheduled poll: another cycle, and the next poll unless that failed or was stopped. A `stop` during
        it waits for the cycle, so that nothing is sent after it has resolved. */
    method Poll()
      requires dispatcher.Ready() && Valid() && armed
      modifies this, dispatcher
      ensures dispatcher.Ready() && Valid() && Reaches(old(dispatcher.State()), dispatcher.State())
      ensures IsReady() ==> PendingIds(dispatcher.rows) == {} && UnrecordedIds(dispatcher.rows) == {}
      ensures !IsReady() && fatal == None ==> !started && stopping && atStop.Some?
      ensures atStop.Some? ==>
        && Reaches(old(dispatcher.State()), atStop.value)
        && SentAfterStop(dispatcher.destinations, atStop.value, fatal == None, dispatcher.calls)
    {
      armed := false;
      var stopped := RunCycle();
      if stopped { started := false; }
      if !stopping && fatal == None { ArmPoll(); }
    }

    /** `stop` between cycles: the error of an earlier failure is handed out. */
    method Stop() returns (error: Option<Fault>)
      requires Valid()
      modifies this
      ensures Valid() && !IsReady() && fatal == old(fatal)
      ensures stopping == old(started || stopping) && !started
      ensures error == fatal
    {
      if !started && !stopping { return fatal; }
      BeginStop();
      started := false;
      return fatal;
    }
  }

  /** Exactly when anything is sent after a stop that meets no fault: when a delivery of the batch in progress,
      which the table determines, can be read and has a configured destination. Each such delivery is sent once,
      and nothing else is. */
  lemma StopSendsIff(destinations: set<string>, w: World, calls: multiset<nat>, batch: seq<nat>)
    requires SentAfterStop(destinations, w, true, calls)
      && Oldest(w.rows, ByCreation, PendingIds(w.rows), MAX_BATCH, batch)
    ensures calls == w.calls + SendsOf(w.rows, destinations, batch)
    ensures |calls| > |w.calls| <==> AnySent(w.rows, destinations, batch)
    ensures |calls| <= |w.calls| + MAX_BATCH
  {
    var other :| Oldest(w.rows, ByCreation, PendingIds(w.rows), MAX_BATCH, other)
      && SentFrom(w.rows, destinations, other, true, w.calls, calls);
    OldestIsUnique(w.rows, ByCreation, PendingIds(w.rows), MAX_BATCH, batch, other);
    assert batch[..|batch|] == batch;
    SendsSomethingIff(w.rows, destinations, batch);
    SendsAtMost(w.rows, destinations, batch);
  }

  /** With a fault it is the same for the deliveries up to some point of that batch. */
  lemma BrokenStopSendsIff(destinations: set<string>, w: World, calls: multiset<nat>, batch: seq<nat>) returns (k: nat)
    requires SentAfterStop(destinations, w, false, calls)
      && Oldest(w.rows, ByCreation, PendingIds(w.rows), MAX_BATCH, batch)
    ensures k <= |batch| && calls == w.calls + SendsOf(w.rows, destinations, batch[..k])
    ensures |calls| > |w.calls| <==> AnySent(w.rows, destinations, batch[..k])
  {
    if calls == w.calls {
      k := 0;
    } else {
      var other :| Oldest(w.rows, ByCreation, PendingIds(w.rows), MAX_BATCH, other)
        && SentFrom(w.rows, destinations, other, false, w.calls, calls);
      OldestIsUnique(w.rows, ByCreation, PendingIds(w.rows), MAX_BATCH, batch, other);
      k :| 0 <= k <= |batch| && calls == w.calls + SendsOf(w.rows, destinations, batch[..k]);
    }
    SendsSomethingIff(w.rows, destinations, batch[..k]);
  }

  lemma StillUnknown(w: World, w1: World, w2: World)
    requires Inv(w1) && Reaches(w1, w2)
    requires forall id :: id in AttemptingIds(w.rows) ==> id in w1.rows && w1.rows[id].status == OutcomeUnknown
    ensures forall id :: id in AttemptingIds(w.rows) ==> id in w2.rows && w2.rows[id].status == OutcomeUnknown
  {
    forall id | id in AttemptingIds(w.rows) ensures id in w2.rows && w2.rows[id].status == OutcomeUnknown {
      ReachedOutcomesAreFinal(w1, w2, id);
    }
  }

  lemma ReachedOutcomesAreFinal(w: World, w': World, id: nat)
    requires Inv(w) && Reaches(w, w') && id in w.rows && Terminal(w.rows[id].status)
    ensures id in w'.rows && AuditOf(id, w'.rows[id]) == AuditOf(id, w.rows[id])
  {
    var steps :| IsRun(w, steps) && After(w, steps) == w';
    OutcomesAreFinal(w, steps, id);
  }

  /** A full batch leaves fewer pending rows; a short one leaves none. */
  lemma DispatchedFurther(rows: map<nat, Row>, rows': map<nat, Row>, batch: seq<nat>)
    requires Oldest(rows, ByCreation, PendingIds(rows), MAX_BATCH, batch)
    requires forall id :: id in PendingIds(rows') <==> id in PendingIds(rows) && id !in batch
    ensures |batch| < MAX_BATCH ==> PendingIds(rows') == {}
    ensures |batch| == MAX_BATCH ==> PendingIds(rows') < PendingIds(rows)
  {
    if |batch| == MAX_BATCH { assert batch[0] in PendingIds(rows) && batch[0] !in PendingIds(rows'); }
  }
}
