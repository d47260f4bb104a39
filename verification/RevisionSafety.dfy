/** What controller, network and browser guarantee over every run of the revision protocol. */
module RevisionSafety {
  import opened Options
  import opened StreamModel
  import opened ClientModel
  import opened RevisionProtocol

  // ----- Runs -----

  /** The states of a run: each step is enabled where it is taken. */
  predicate IsRun(body: nat -> string, s: System, steps: seq<Step>)
    decreases |steps|
  {
    steps == [] || (Enabled(s, steps[0]) && IsRun(body, Next(body, s, steps[0]), steps[1..]))
  }

  function After(body: nat -> string, s: System, steps: seq<Step>): System
    requires IsRun(body, s, steps)
    decreases |steps|
  {
    if steps == [] then s else After(body, Next(body, s, steps[0]), steps[1..])
  }

  lemma {:induction false} EveryRunKeepsInv(body: nat -> string, s: System, steps: seq<Step>)
    requires Inv(body, s) && IsRun(body, s, steps)
    ensures Inv(body, After(body, s, steps))
    decreases |steps|
  {
    if steps != [] {
      StepKeepsInv(body, s, steps[0]);
      EveryRunKeepsInv(body, Next(body, s, steps[0]), steps[1..]);
    }
  }

  // ----- The theorems -----

  /** The client never runs ahead of the controller, and what it shows as fresh is one snapshot. */
  lemma ClientNeverAhead(body: nat -> string, steps: seq<Step>)
    requires IsRun(body, BOOT, steps)
    ensures var s := After(body, BOOT, steps);
            && s.client.view.revision <= s.committed
            && (!s.client.view.dataStale ==>
                  s.client.view.snapshot.Some? && s.client.view.snapshot.value.revision == s.client.view.revision)
  {
    EveryRunKeepsInv(body, BOOT, steps);
  }

  predicate Restarts(s: System, step: Step) {
    step.Local? && (step.op == Start || step.op == Retry) && !s.client.running
  }

  lemma LocalNeverLowers(c: Client, op: Op)
    requires C.Valid(c) && IsLocal(op) && !((op == Start || op == Retry) && !c.running)
    ensures Apply(c, op).view.revision >= c.view.revision
  {
  }

  lemma AnswerNeverLowers(c: Client, op: Op, floor: nat)
    requires C.Valid(c) && (op.FetchSucceeded? || op.FetchFailed?)
      && c.view.revision <= Max(SnapshotRevision(c), c.required)
    requires op.FetchSucceeded? && op.generation == c.generation && c.running
      ==> SnapshotRevision(c) <= floor <= op.snapshot.revision
    ensures Apply(c, op).view.revision >= c.view.revision
  {
  }

  lemma RevisionStep(body: nat -> string, s: System, step: Step)
    requires Inv(body, s) && Enabled(s, step) && !Restarts(s, step)
    ensures Next(body, s, step).client.view.revision >= s.client.view.revision
  {
    match step
    case Deliver(now) =>
      NextFrame(body, s);
      MessageBounds(s.client, Incoming(s), s.lastEventId, now);
    case NetworkDrop => LocalNeverLowers(s.client, StreamErrored(s.client.stream.value));
    case Local(op) => LocalNeverLowers(s.client, op);
    case FetchDone(id, creation) =>
      AnsweredOnce(s, id);
      AnswerNeverLowers(s.client, FetchSucceeded(s.fetches[id].generation, s.fetches[id].answer.value, creation),
        s.fetches[id].floor);
    case FetchLost(id, message) =>
      AnswerNeverLowers(s.client, FetchFailed(s.fetches[id].generation, message), s.fetches[id].floor);
    case _ =>
  }

  predicate NeverRestarts(body: nat -> string, s: System, steps: seq<Step>)
    requires IsRun(body, s, steps)
    decreases |steps|
  {
    steps == [] || (!Restarts(s, steps[0]) && NeverRestarts(body, Next(body, s, steps[0]), steps[1..]))
  }

  /** Until the coordinator is started again, the revision it shows never goes down: not on
      reconnects, lost frames, forced resynchronisations, nor controller restarts. */
  lemma {:induction false} RevisionNeverDrops(body: nat -> string, s: System, steps: seq<Step>)
    requires Inv(body, s) && IsRun(body, s, steps) && NeverRestarts(body, s, steps)
    ensures After(body, s, steps).client.view.revision >= s.client.view.revision
    decreases |steps|
  {
    if steps != [] {
      StepKeepsInv(body, s, steps[0]);
      RevisionStep(body, s, steps[0]);
      RevisionNeverDrops(body, Next(body, s, steps[0]), steps[1..]);
    }
  }

  /** A delivered frame is never a gap, never a heartbeat ahead of the client, never a refusal for
      being ahead; so only a controller-forced resynchronisation (watermark, replay limit, queue
      overflow) or an invalid clock ends the stream, and a committed frame carries the committed event. */
  lemma DeliveryNeverGaps(body: nat -> string, steps: seq<Step>, now: Option<int>)
    requires IsRun(body, BOOT, steps) && Enabled(After(body, BOOT, steps), Deliver(now))
    ensures var s := After(body, BOOT, steps);
            && (Incoming(s).Committed? ==>
                  && Incoming(s).event == RevisionProtocol.Committed(body, Incoming(s).event.revision)
                  && Incoming(s).event.revision <= s.client.view.revision + 1)
            && (Incoming(s).Heartbeat? ==> Incoming(s).currentRevision <= s.client.view.revision)
            && (Incoming(s).Resync? ==> Incoming(s).reason !in {Gap, AheadOfController})
            && (Next(body, s, Deliver(now)).client.stream != s.client.stream ==> Incoming(s).Resync? || now == None)
  {
    EveryRunKeepsInv(body, BOOT, steps);
    var s := After(body, BOOT, steps);
    NextFrame(body, s);
    MessageBounds(s.client, Incoming(s), s.lastEventId, now);
  }

  /** When everything committed is published and everything sent has arrived, the client is current. */
  lemma QuiescentClientIsCurrent(body: nat -> string, steps: seq<Step>)
    requires IsRun(body, BOOT, steps)
    ensures var s := After(body, BOOT, steps);
            Live(s) && !s.link.value.conn.replaying && s.link.value.conn.queue == []
            && s.link.value.delivered == |s.link.value.conn.written| && s.published == s.committed
            ==> s.client.view.revision == s.committed
  {
    EveryRunKeepsInv(body, BOOT, steps);
    var s := After(body, BOOT, steps);
    if Live(s) && s.link.value.conn.queue == [] && s.link.value.delivered == |s.link.value.conn.written| {
      var c := s.link.value.conn;
      assert c.written[..s.link.value.delivered] == c.written == Emitted(c);
    }
  }

  /** The requests of a generation that are made and not answered. */
  function Unanswered(s: System, generation: nat): set<nat> {
    set id | id in s.fetches && id < |s.client.requests| && s.client.requests[id] == generation
  }

  lemma AtMostOne(ids: set<nat>)
    requires forall i, j :: i in ids && j in ids ==> i == j
    ensures |ids| <= 1
  {
    if id :| id in ids { assert ids == {id}; }
  }

  /** Over every run, at most one snapshot request of each generation is outstanding: of the requests made,
      all but one have been answered or lost. */
  lemma OneFetchPerGeneration(body: nat -> string, steps: seq<Step>, generation: nat)
    requires IsRun(body, BOOT, steps)
    ensures |Unanswered(After(body, BOOT, steps), generation)| <= 1
  {
    EveryRunKeepsInv(body, BOOT, steps);
    AtMostOne(Unanswered(After(body, BOOT, steps), generation));
  }

  /** What a step answers. */
  function Answered(step: Step): set<nat> { if step.FetchDone? || step.FetchLost? then {step.id} else {} }

  ghost predicate AsksProperly(s: System, s': System, step: Step) {
    && s.client.requests <= s'.client.requests && |s'.client.requests| <= |s.client.requests| + 1
    && (forall id :: id in s'.fetches <==>
          (id in s.fetches && id !in Answered(step)) || |s.client.requests| <= id < |s'.client.requests|)
    && forall id :: |s.client.requests| <= id < |s'.client.requests| ==>
         Unanswered(s, s'.client.requests[id]) <= Answered(step)
  }

  lemma MovedAsks(s: System, after: Client, step: Step)
    requires Outstanding(s, s.client.fetchInFlight) && Answered(step) <= s.fetches.Keys
    requires var answered := exists id :: id in Answered(step) && s.fetches[id].generation == s.client.generation;
             FetchDiscipline(s.client, after, answered)
    ensures AsksProperly(s, ClientMoved(s.(fetches := s.fetches - Answered(step)), after), step)
  {
    var s' := ClientMoved(s.(fetches := s.fetches - Answered(step)), after);
    if after.requests != s.client.requests {
      var id := |s.client.requests|;
      assert after.requests[id] == after.generation;
      forall i | i in Unanswered(s, after.generation) ensures i in Answered(step) {
        assert s.fetches[i].generation == after.generation;
      }
    }
  }

  lemma ClientAsks(s: System, op: Op, step: Step)
    requires C.Valid(s.client) && FetchInv(s) && Answers(s.client, op) && Answered(step) == {} && !op.FetchSucceeded?
      && !op.FetchFailed?
    ensures AsksProperly(s, ClientMoved(s, Apply(s.client, op)), step)
  {
    assert s.fetches - {} == s.fetches;
    ApplyIsDisciplined(s.client, op);
    MovedAsks(s, Apply(s.client, op), step);
  }

  lemma AnswerAsks(s: System, op: Op, step: Step)
    requires C.Valid(s.client) && FetchInv(s) && (op.FetchSucceeded? || op.FetchFailed?)
      && (step.FetchDone? || step.FetchLost?)
    requires step.id in s.fetches && op.generation == s.fetches[step.id].generation
    ensures AsksProperly(s, ClientMoved(s.(fetches := s.fetches - {step.id}), Apply(s.client, op)), step)
  {
    AnsweredOnce(s, step.id);
    FetchIsDisciplined(s.client, op);
    assert step.id in Answered(step);
    MovedAsks(s, Apply(s.client, op), step);
  }

  /** What the client did on the way is a move of the protocol; the link has no part in its requests. */
  lemma SameRequests(s: System, t: System, after: Client, step: Step)
    requires t.client == s.client && t.fetches == s.fetches && t.committed == s.committed
    requires AsksProperly(s, ClientMoved(s, after), step)
    ensures AsksProperly(s, ClientMoved(t, after), step)
  {
  }

  /** A step makes at most one request, and none of a generation of which a request is outstanding that the
      step does not answer. */
  lemma NoRequestWhileOutstanding(body: nat -> string, s: System, step: Step)
    requires Inv(body, s) && Enabled(s, step)
    ensures AsksProperly(s, Next(body, s, step), step)
  {
    match step
    case Deliver(now) => DeliveryAsks(body, s, step);
    case NetworkDrop => DropAsks(body, s, step);
    case Local(op) => ClientAsks(s, op, step);
    case FetchDone(id, creation) =>
      AnswerAsks(s, FetchSucceeded(s.fetches[id].generation, s.fetches[id].answer.value, creation), step);
    case FetchLost(id, message) => AnswerAsks(s, FetchFailed(s.fetches[id].generation, message), step);
    case _ =>
  }

  lemma DeliveryAsks(body: nat -> string, s: System, step: Step)
    requires Inv(body, s) && step.Deliver? && Enabled(s, step)
    ensures AsksProperly(s, Next(body, s, step), step)
  {
    var op := StreamMessage(s.client.stream.value, Parsed(Incoming(s)), step.now);
    ClientAsks(s, op, step);
    SameRequests(s, Received(s), Apply(s.client, op), step);
  }

  lemma DropAsks(body: nat -> string, s: System, step: Step)
    requires Inv(body, s) && step.NetworkDrop? && Enabled(s, step)
    ensures AsksProperly(s, Next(body, s, step), step)
  {
    var op := StreamErrored(s.client.stream.value);
    ClientAsks(s, op, step);
    SameRequests(s, s.(link := None), Apply(s.client, op), step);
  }
}
