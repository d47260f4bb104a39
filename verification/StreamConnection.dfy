/** `StateEventStreamConnection` as it is written: private fields updated in place, one frame at a
    time. Each method is proved to compute the corresponding function of `StreamModel` and to keep
    `StreamModel.Valid`. */
module StreamConnection {
  import M = StreamModel
  import opened StreamModel

  /** The transport behind a connection; `script` holds its future answers. */
  class Sink {
    var script: seq<WriteOutcome>
    var written: seq<Frame>
    var ended: bool

    constructor (script: seq<WriteOutcome>)
      ensures this.script == script && written == [] && !ended
    {
      this.script, written, ended := script, [], false;
    }

    method Write(f: Frame) returns (outcome: WriteOutcome)
      modifies this
      ensures outcome == if old(script) == [] then Accepted else old(script)[0]
      ensures script == if old(script) == [] then [] else old(script)[1..]
      ensures written == if outcome == Threw then old(written) else old(written) + [f]
      ensures ended == old(ended)
    {
      outcome := Accepted;
      if script != [] {
        outcome, script := script[0], script[1..];
      }
      if outcome != Threw {
        written := written + [f];
      }
    }

    method End()
      modifies this
      ensures ended && script == old(script) && written == old(written)
    {
      ended := true;
    }
  }

  /** The buffered live events in the order of their revisions. */
  method SortedEvents(buffer: map<nat, Event>) returns (events: seq<Event>)
    requires forall r :: r in buffer ==> buffer[r].revision == r
    ensures Lists(events, buffer)
  {
    events := [];
    var left := buffer.Keys;
    while left != {}
      invariant left <= buffer.Keys
      invariant Ascending(events)
      invariant forall i :: 0 <= i < |events| ==>
        events[i].revision in buffer && buffer[events[i].revision] == events[i]
      invariant forall r :: r in buffer && r !in left ==> buffer[r] in events
      invariant forall i, r :: 0 <= i < |events| && r in left ==> events[i].revision < r
      decreases left
    {
      var least := LeastOf(left);
      ghost var before := events;
      events := events + [buffer[least]];
      left := left - {least};
      assert forall e :: e in before ==> e in events;
      assert events[|events| - 1] == buffer[least];
    }
  }

  method LeastOf(revisions: set<nat>) returns (least: nat)
    requires revisions != {}
    ensures least in revisions && forall r :: r in revisions ==> least <= r
  {
    least :| least in revisions;
    var left := revisions - {least};
    while left != {}
      invariant left <= revisions && least in revisions
      invariant forall r :: r in revisions && r !in left ==> least <= r
      decreases left
    {
      var r :| r in left;
      if r < least { least := r; }
      left := left - {r};
    }
  }

  class StateEventStreamConnection {
    const sink: Sink
    const requestedRevision: nat
    const maxQueuedFrames: nat
    var liveBuffer: map<nat, Event>
    var queue: seq<Frame>
    var currentRevision: nat
    var currentServerRevision: nat
    var replaying: bool
    var blocked: bool
    var closed: bool

    ghost function State(): Conn
      reads this, sink
    {
      Conn(requestedRevision, maxQueuedFrames, currentRevision, currentServerRevision, replaying, blocked, closed,
           queue, liveBuffer, sink.written, sink.script)
    }

    constructor (sink: Sink, requestedRevision: nat, maxQueuedFrames: nat)
      requires maxQueuedFrames >= 1 && sink.written == []
      ensures this.sink == sink && State() == Initial(requestedRevision, maxQueuedFrames, sink.script)
      ensures M.Valid(Unreliable, State())
    {
      this.sink, this.requestedRevision, this.maxQueuedFrames := sink, requestedRevision, maxQueuedFrames;
      liveBuffer, queue := map[], [];
      currentRevision, currentServerRevision := requestedRevision, requestedRevision;
      replaying, blocked, closed := true, false, false;
    }

    method AcceptCommitted(event: Event)
      requires M.Valid(Unreliable, State())
      modifies this, sink
      ensures State() == M.AcceptCommitted(old(State()), event) && M.Valid(Unreliable, State())
    {
      AcceptCommittedKeeps(Unreliable, State(), event);
      if closed { return; }
      currentServerRevision := M.Max(currentServerRevision, event.revision);
      if replaying {
        liveBuffer := liveBuffer[event.revision := event];
        return;
      }
      var _ := AcceptSequentialEvent(event);
    }

    method AcceptTransient(deviceId: string, at: nat)
      requires M.Valid(Unreliable, State())
      modifies this, sink
      ensures State() == M.AcceptTransient(old(State()), Contact(deviceId, at)) && M.Valid(Unreliable, State())
    {
      AcceptTransientKeeps(Unreliable, State(), deviceId, at);
      if closed || replaying { return; }
      Enqueue(Contact(deviceId, at));
    }

    /** Called once, by the hub, when the replay window has been read. */
    method FinishReplay(replay: ReplayWindow) returns (ghost buffered: seq<Event>)
      requires M.Valid(Unreliable, State()) && (!closed ==> replaying)
      requires forall i :: 0 <= i < |replay.events| ==> replay.events[i].revision <= replay.current
      modifies this, sink
      ensures Lists(buffered, old(liveBuffer))
      ensures State() == M.FinishReplay(old(State()), replay, buffered) && M.Valid(Unreliable, State())
    {
      var sorted := SortedEvents(liveBuffer);
      buffered := sorted;
      FinishReplayKeeps(Unreliable, State(), replay, buffered);
      FinishWith(replay, sorted);
    }

    method FinishWith(replay: ReplayWindow, sorted: seq<Event>)
      modifies this, sink
      ensures State() == M.FinishReplay(old(State()), replay, sorted)
    {
      if closed { return; }
      currentServerRevision := M.Max(currentServerRevision, replay.current);
      if requestedRevision > replay.current {
        ForceResync(replay.earliest, replay.current, AheadOfController);
        return;
      }
      if requestedRevision < if replay.earliest == 0 then 0 else replay.earliest - 1 {
        ForceResync(replay.earliest, replay.current, BeforeWatermark);
        return;
      }
      if replay.limitExceeded {
        ForceResync(replay.earliest, replay.current, ReplayLimit);
        return;
      }
      ReplayAndGoLive(replay.events, sorted);
    }

    method ReplayAndGoLive(events: seq<Event>, sorted: seq<Event>)
      modifies this, sink
      ensures State() == M.Replay(old(State()), events, sorted)
    {
      var more := AcceptSequentialEvents(events);
      if !more { return; }
      liveBuffer := map[];
      replaying := false;
      more := AcceptSequentialEvents(sorted);
      if !more { return; }
      Enqueue(Ready(currentRevision, |events|));
    }

    method HeartbeatTick()
      requires M.Valid(Unreliable, State())
      modifies this, sink
      ensures State() == M.HeartbeatTick(old(State())) && M.Valid(Unreliable, State())
    {
      HeartbeatKeeps(Unreliable, State());
      if closed { return; }
      Enqueue(Heartbeat(currentServerRevision));
    }

    method Drain()
      requires M.Valid(Unreliable, State())
      modifies this, sink
      ensures State() == M.Drain(old(State())) && M.Valid(Unreliable, State())
    {
      DrainKeeps(Unreliable, State());
      if closed { return; }
      blocked := false;
      while queue != [] && !blocked
        invariant DrainQueue(State()) == M.Drain(old(State()))
        decreases |queue|
      {
        var frame := queue[0];
        queue := queue[1..];
        Write(frame);
      }
    }

    method Close()
      requires M.Valid(Unreliable, State())
      modifies this, sink
      ensures State() == M.Close(old(State())) && M.Valid(Unreliable, State())
      ensures !old(closed) ==> sink.ended
    {
      CloseKeeps(Unreliable, State());
      CloseNow();
    }

    // ----- Private methods -----

    method CloseNow()
      modifies this, sink
      ensures State() == M.Close(old(State()))
      ensures !old(closed) ==> sink.ended
    {
      if closed { return; }
      closed := true;
      queue := [];
      liveBuffer := map[];
      sink.End();
    }

    /** The loop of `finishReplay`: stops at the first event that closed the connection. */
    method AcceptSequentialEvents(events: seq<Event>) returns (more: bool)
      modifies this, sink
      ensures (State(), more) == AcceptAll(old(State()), events)
    {
      more := true;
      var i := 0;
      while i < |events| && more
        invariant 0 <= i <= |events|
        invariant AcceptAll(old(State()), events) == if more then AcceptAll(State(), events[i..]) else (State(), false)
        decreases |events| - i
      {
        assert events[i..][1..] == events[i + 1..];
        more := AcceptSequentialEvent(events[i]);
        i := i + 1;
      }
    }

    method AcceptSequentialEvent(event: Event) returns (more: bool)
      modifies this, sink
      ensures (State(), more) == AcceptSequential(old(State()), event)
    {
      if event.revision <= currentRevision { return true; }
      if event.revision != currentRevision + 1 {
        ForceResync(currentRevision + 1, currentServerRevision, Gap);
        return false;
      }
      currentRevision := event.revision;
      Enqueue(Committed(event));
      return !closed;
    }

    method Enqueue(frame: Frame)
      modifies this, sink
      ensures State() == M.Enqueue(old(State()), frame)
    {
      if closed { return; }
      if !blocked && |queue| == 0 {
        Write(frame);
        return;
      }
      if |queue| >= maxQueuedFrames {
        ForceResync(currentRevision, currentServerRevision, QueueOverflow);
        return;
      }
      queue := queue + [frame];
    }

    method Write(frame: Frame)
      modifies this, sink
      ensures State() == M.Write(old(State()), frame)
    {
      var outcome := sink.Write(frame);
      if outcome == Threw {
        CloseNow();
      } else {
        blocked := outcome == BackPressure;
      }
    }

    method ForceResync(earliest: nat, current: nat, reason: Reason)
      modifies this, sink
      ensures State() == M.ForceResync(old(State()), earliest, current, reason)
    {
      if closed { return; }
      queue := [];
      Write(Resync(requestedRevision, earliest, current, reason));
      CloseNow();
    }
  }
}
