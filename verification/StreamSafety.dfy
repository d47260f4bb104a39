/** What one connection guarantees over every run, whatever its sink and the order of its events. */
module StreamSafety {
  import opened StreamModel

  /** The stream contract, spelled out: revisions `requested + 1 .. current`, once each, in order. */
  lemma {:induction false} CoherentIsConsecutive(feed: Feed, after: nat, frames: seq<Frame>)
    requires Coherent(feed, after, frames)
    ensures forall i :: 0 <= i < |Revisions(frames)| ==> Revisions(frames)[i] == after + 1 + i
    ensures forall i :: 0 <= i < |frames| && frames[i].Resync? ==> i == |frames| - 1
    decreases |frames|
  {
    if frames != [] { CoherentIsConsecutive(feed, after, frames[..|frames| - 1]); }
  }

  lemma OpenStreamIsExact(feed: Feed, c: Conn)
    requires Valid(feed, c)
    ensures !c.closed ==> Revisions(c.written + c.queue) == seq(c.current - c.requested, i => c.requested + 1 + i)
    ensures c.closed ==> Revisions(c.written) <= seq(c.current - c.requested, i => c.requested + 1 + i)
    ensures !c.closed ==> forall i :: 0 <= i < |c.written + c.queue| ==> !(c.written + c.queue)[i].Resync?
    ensures forall i :: 0 <= i < |c.written| && c.written[i].Resync? ==> c.closed && i == |c.written| - 1
    ensures |c.queue| <= c.maxQueued && (c.queue != [] ==> c.blocked)
  {
    CoherentIsConsecutive(feed, c.requested, Emitted(c));
    assert forall i :: 0 <= i < |c.written| ==> Emitted(c)[i] == c.written[i];
    if c.closed { assert Emitted(c) == c.written; }
  }

  // ----- Runs -----

  datatype Op =
    | LiveEvent(event: Event)
    | LiveContact(deviceId: string, at: nat)
    | WindowRead(window: ReplayWindow, buffered: seq<Event>)
    | Beat
    | SinkDrained
    | Closed

  function Apply(c: Conn, op: Op): Conn {
    match op
    case LiveEvent(event) => AcceptCommitted(c, event)
    case LiveContact(deviceId, at) => AcceptTransient(c, Contact(deviceId, at))
    case WindowRead(window, buffered) => FinishReplay(c, window, buffered)
    case Beat => HeartbeatTick(c)
    case SinkDrained => Drain(c)
    case Closed => Close(c)
  }

  /** The window is read once, and read from a table whose newest revision it names. */
  predicate Possible(c: Conn, op: Op) {
    op.WindowRead? ==>
      && (!c.closed ==> c.replaying)
      && Lists(op.buffered, c.buffer)
      && forall i :: 0 <= i < |op.window.events| ==> op.window.events[i].revision <= op.window.current
  }

  predicate IsRun(c: Conn, ops: seq<Op>)
    decreases |ops|
  {
    ops == [] || (IsRun(c, ops[..|ops| - 1]) && Possible(After(c, ops[..|ops| - 1]), ops[|ops| - 1]))
  }

  function After(c: Conn, ops: seq<Op>): Conn
    decreases |ops|
  {
    if ops == [] then c else Apply(After(c, ops[..|ops| - 1]), ops[|ops| - 1])
  }

  lemma ApplyKeeps(c: Conn, op: Op)
    requires Valid(Unreliable, c) && Possible(c, op)
    ensures Valid(Unreliable, Apply(c, op)) && Continues(c, Apply(c, op))
  {
    match op
    case LiveEvent(event) => AcceptCommittedKeeps(Unreliable, c, event);
    case LiveContact(deviceId, at) => AcceptTransientKeeps(Unreliable, c, deviceId, at);
    case WindowRead(window, buffered) => FinishReplayKeeps(Unreliable, c, window, buffered);
    case Beat => HeartbeatKeeps(Unreliable, c);
    case SinkDrained => DrainKeeps(Unreliable, c);
    case Closed => CloseKeeps(Unreliable, c);
  }

  lemma {:induction false} EveryRunKeepsValid(c: Conn, ops: seq<Op>)
    requires Valid(Unreliable, c) && IsRun(c, ops)
    ensures Valid(Unreliable, After(c, ops)) && Continues(c, After(c, ops))
    decreases |ops|
  {
    if ops != [] {
      EveryRunKeepsValid(c, ops[..|ops| - 1]);
      ApplyKeeps(After(c, ops[..|ops| - 1]), ops[|ops| - 1]);
    }
  }

  /** For every sink, given as the script of its answers, and every order of live events, replay, heartbeats
      and drains: the revisions sent, and while the stream is open those sent and queued, are the ones after
      the requested revision, once each and in order; a resync is sent at most once, and last. */
  lemma EveryStreamIsExact(requested: nat, maxQueued: nat, script: seq<WriteOutcome>, ops: seq<Op>)
    requires maxQueued >= 1 && IsRun(Initial(requested, maxQueued, script), ops)
    ensures var c := After(Initial(requested, maxQueued, script), ops);
            && requested <= c.current
            && (!c.closed ==> Revisions(c.written + c.queue) == seq(c.current - requested, i => requested + 1 + i))
            && Revisions(c.written) <= seq(c.current - requested, i => requested + 1 + i)
            && (forall i :: 0 <= i < |c.written| && c.written[i].Resync? ==> c.closed && i == |c.written| - 1)
            && |c.queue| <= maxQueued && (c.queue != [] ==> c.blocked)
  {
    var start := Initial(requested, maxQueued, script);
    assert Emitted(start) == [];
    EveryRunKeepsValid(start, ops);
    var c := After(start, ops);
    OpenStreamIsExact(Unreliable, c);
    if !c.closed { RevisionsPrefix(c.written, c.queue); }
  }

  lemma {:induction false} RevisionsPrefix(frames: seq<Frame>, rest: seq<Frame>)
    ensures Revisions(frames) <= Revisions(frames + rest)
    decreases |rest|
  {
    if rest == [] {
      assert frames + rest == frames;
    } else {
      var n := |rest| - 1;
      RevisionsPrefix(frames, rest[..n]);
      assert (frames + rest)[..|frames + rest| - 1] == frames + rest[..n];
    }
  }
}
