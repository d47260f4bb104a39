/** The committed-event stream of one browser connection, as functions on its whole state.

    The sink is arbitrary: every call of `sink.write` is answered by the next entry of `script`
    (accepted, accepted with back-pressure, or thrown), so a statement about all `script`s is a
    statement about all sinks. */
module StreamModel {

  datatype Event = Event(revision: nat, body: string)

  datatype Reason = AheadOfController | BeforeWatermark | ReplayLimit | Gap | QueueOverflow

  datatype Frame =
    | Committed(event: Event)
    | Ready(currentRevision: nat, replayedCount: nat)
    | Heartbeat(currentRevision: nat)
    | Contact(deviceId: string, at: nat)
    | Resync(requested: nat, earliest: nat, current: nat, reason: Reason)

  datatype WriteOutcome = Accepted | BackPressure | Threw

  /** What one read transaction on the outbox returns. */
  datatype ReplayWindow = ReplayWindow(current: nat, earliest: nat, events: seq<Event>, limitExceeded: bool)

  datatype Conn = Conn(
    requested: nat,
    maxQueued: nat,
    current: nat,             // last revision handed to the sink or to the queue
    server: nat,              // newest revision heard of
    replaying: bool,
    blocked: bool,
    closed: bool,
    queue: seq<Frame>,
    buffer: map<nat, Event>,  // live events that arrived during the replay
    written: seq<Frame>,      // frames the sink took
    script: seq<WriteOutcome>)

  function Max(a: nat, b: nat): nat { if a < b then b else a }

  function Initial(requested: nat, maxQueued: nat, script: seq<WriteOutcome>): Conn {
    Conn(requested, maxQueued, requested, requested, true, false, false, [], map[], [], script)
  }

  // ----- The private steps -----

  function Close(c: Conn): Conn {
    if c.closed then c else c.(closed := true, queue := [], buffer := map[])
  }

  function Write(c: Conn, f: Frame): Conn {
    var outcome := if c.script == [] then Accepted else c.script[0];
    var rest := if c.script == [] then [] else c.script[1..];
    if outcome == Threw then Close(c.(script := rest))
    else c.(script := rest, written := c.written + [f], blocked := outcome == BackPressure)
  }

  function ForceResync(c: Conn, earliest: nat, current: nat, reason: Reason): Conn {
    if c.closed then c
    else Close(Write(c.(queue := []), Resync(c.requested, earliest, current, reason)))
  }

  function Enqueue(c: Conn, f: Frame): Conn {
    if c.closed then c
    else if !c.blocked && c.queue == [] then Write(c, f)
    else if |c.queue| >= c.maxQueued then ForceResync(c, c.current, c.server, QueueOverflow)
    else c.(queue := c.queue + [f])
  }

  /** The flag says whether the caller may go on with the next event. */
  function AcceptSequential(c: Conn, e: Event): (Conn, bool) {
    if e.revision <= c.current then (c, true)
    else if e.revision != c.current + 1 then (ForceResync(c, c.current + 1, c.server, Gap), false)
    else
      var c' := Enqueue(c.(current := e.revision), Committed(e));
      (c', !c'.closed)
  }

  function AcceptAll(c: Conn, events: seq<Event>): (Conn, bool)
    decreases |events|
  {
    if events == [] then (c, true)
    else
      var (c', more) := AcceptSequential(c, events[0]);
      if more then AcceptAll(c', events[1..]) else (c', false)
  }

  // ----- The public operations -----

  function AcceptCommitted(c: Conn, e: Event): Conn {
    if c.closed then c
    else
      var c' := c.(server := Max(c.server, e.revision));
      if c.replaying then c'.(buffer := c'.buffer[e.revision := e])
      else AcceptSequential(c', e).0
  }

  function AcceptTransient(c: Conn, f: Frame): Conn {
    if c.closed || c.replaying then c else Enqueue(c, f)
  }

  function HeartbeatTick(c: Conn): Conn {
    if c.closed then c else Enqueue(c, Heartbeat(c.server))
  }

  function DrainQueue(c: Conn): Conn
    decreases |c.queue|
  {
    if c.queue == [] || c.blocked then c
    else DrainQueue(Write(c.(queue := c.queue[1..]), c.queue[0]))
  }

  function Drain(c: Conn): Conn {
    if c.closed then c else DrainQueue(c.(blocked := false))
  }

  predicate Ascending(events: seq<Event>) {
    forall i, j :: 0 <= i < j < |events| ==> events[i].revision < events[j].revision
  }

  /** `events` lists the buffered events in the order of their revisions. */
  predicate Lists(events: seq<Event>, buffer: map<nat, Event>) {
    && Ascending(events)
    && (forall i :: 0 <= i < |events| ==> events[i].revision in buffer && buffer[events[i].revision] == events[i])
    && (forall r :: r in buffer ==> buffer[r] in events)
  }

  /** The part of `FinishReplay` after the three refusals. */
  function Replay(c: Conn, events: seq<Event>, buffered: seq<Event>): Conn {
    var (replayed, complete) := AcceptAll(c, events);
    if !complete then replayed
    else
      var (live, open) := AcceptAll(replayed.(buffer := map[], replaying := false), buffered);
      if !open then live else Enqueue(live, Ready(live.current, |events|))
  }

  function FinishReplay(c: Conn, w: ReplayWindow, buffered: seq<Event>): Conn {
    if c.closed then c
    else
      var c := c.(server := Max(c.server, w.current));
      if c.requested > w.current then ForceResync(c, w.earliest, w.current, AheadOfController)
      else if c.requested + 1 < w.earliest then ForceResync(c, w.earliest, w.current, BeforeWatermark)
      else if w.limitExceeded then ForceResync(c, w.earliest, w.current, ReplayLimit)
      else Replay(c, w.events, buffered)
  }

  // ----- What the stream means -----

  /** The revisions of the committed frames, in order. */
  function Revisions(frames: seq<Frame>): seq<nat>
    decreases |frames|
  {
    if frames == [] then []
    else
      var n := |frames| - 1;
      Revisions(frames[..n]) + (if frames[n].Committed? then [frames[n].event.revision] else [])
  }

  /** The revision reached by a reader that started at `after` and has read `frames`. */
  function Position(after: nat, frames: seq<Frame>): nat { after + |Revisions(frames)| }

  /** What is known of the events a connection is given: nothing, or that they are the committed
      events themselves (`body(r)` is what revision `r` committed) and that none is withheld. */
  datatype Feed = Unreliable | Lossless(body: nat -> string)

  predicate Authentic(feed: Feed, e: Event) { feed.Lossless? ==> e.body == feed.body(e.revision) }

  /** What a frame may say when it follows `before`. */
  predicate Follows(feed: Feed, after: nat, before: seq<Frame>, f: Frame) {
    && (before != [] ==> !before[|before| - 1].Resync?)
    && match f
       case Committed(e) => e.revision == Position(after, before) + 1 && Authentic(feed, e)
       case Ready(r, _) => r == Position(after, before)
       case Heartbeat(r) => r >= Position(after, before) && (feed.Lossless? ==> r == Position(after, before))
       case Contact(_, _) => true
       case Resync(_, _, r, reason) =>
         && (reason != AheadOfController ==> r >= Position(after, before))
         && (feed.Lossless? ==> reason != AheadOfController && reason != Gap)
  }

  predicate Coherent(feed: Feed, after: nat, frames: seq<Frame>)
    decreases |frames|
  {
    frames == [] ||
    (var n := |frames| - 1; Coherent(feed, after, frames[..n]) && Follows(feed, after, frames[..n], frames[n]))
  }

  predicate EndsInResync(frames: seq<Frame>) { frames != [] && frames[|frames| - 1].Resync? }

  /** Frames sent followed by frames queued. */
  function Emitted(c: Conn): seq<Frame> { c.written + c.queue }

  /** The frames that make up a stream which has reached `current`. */
  predicate Told(feed: Feed, after: nat, frames: seq<Frame>, current: nat, closed: bool) {
    && Coherent(feed, after, frames)
    && Position(after, frames) <= current
    && (!closed ==> !EndsInResync(frames))
  }

  /** What holds at every point inside an operation. */
  predicate Sound(feed: Feed, c: Conn) {
    && c.requested <= c.current <= c.server
    && c.maxQueued >= 1
    && |c.queue| <= c.maxQueued
    && (c.queue != [] ==> c.blocked)
    && (c.closed ==> c.queue == [] && c.buffer == map[])
    && (!c.replaying ==> c.buffer == map[])
    && (forall r :: r in c.buffer ==> c.buffer[r].revision == r <= c.server && Authentic(feed, c.buffer[r]))
    && Told(feed, c.requested, Emitted(c), c.current, c.closed)
  }

  /** Every revision up to `current` has been emitted. */
  predicate Exact(c: Conn) { !c.closed ==> Position(c.requested, Emitted(c)) == c.current }

  /** What holds between operations. */
  predicate Valid(feed: Feed, c: Conn) {
    Sound(feed, c) && Exact(c) && (c.replaying && !c.closed ==> c.current == c.requested)
  }

  /** What no operation takes back. */
  predicate Continues(c: Conn, c': Conn) {
    && c'.requested == c.requested && c'.maxQueued == c.maxQueued
    && c.written <= c'.written
    && c.current <= c'.current && c.server <= c'.server
    && (c.closed ==> c' == c)
  }

  // ----- One frame -----

  lemma Snoc(feed: Feed, after: nat, frames: seq<Frame>, f: Frame)
    ensures Revisions(frames + [f]) == Revisions(frames) + (if f.Committed? then [f.event.revision] else [])
    ensures Coherent(feed, after, frames + [f]) <==> Coherent(feed, after, frames) && Follows(feed, after, frames, f)
  {
    assert (frames + [f])[..|frames|] == frames;
  }

  lemma {:induction false} PrefixCoherent(feed: Feed, after: nat, frames: seq<Frame>, rest: seq<Frame>)
    requires Coherent(feed, after, frames + rest)
    ensures Coherent(feed, after, frames)
    ensures Position(after, frames) <= Position(after, frames + rest)
    ensures rest != [] ==> !EndsInResync(frames)
    decreases |rest|
  {
    if rest == [] {
      assert frames + rest == frames;
    } else {
      var n := |rest| - 1;
      assert frames + rest == (frames + rest[..n]) + [rest[n]];
      Snoc(feed, after, frames + rest[..n], rest[n]);
      PrefixCoherent(feed, after, frames, rest[..n]);
      if n == 0 { assert frames + rest[..n] == frames; }
    }
  }

  lemma {:induction false} CoherentAt(feed: Feed, after: nat, frames: seq<Frame>, i: nat)
    requires Coherent(feed, after, frames) && i < |frames|
    ensures Follows(feed, after, frames[..i], frames[i])
    ensures Position(after, frames[..i + 1]) == Position(after, frames[..i]) + (if frames[i].Committed? then 1 else 0)
    ensures Position(after, frames[..i + 1]) <= Position(after, frames)
  {
    assert frames == frames[..i + 1] + frames[i + 1..];
    PrefixCoherent(feed, after, frames[..i + 1], frames[i + 1..]);
    assert frames[..i + 1] == frames[..i] + [frames[i]];
    Snoc(feed, after, frames[..i], frames[i]);
  }

  function Advance(c: Conn, f: Frame): Conn {
    if f.Committed? then c.(current := f.event.revision) else c
  }

  predicate MaySend(feed: Feed, c: Conn, f: Frame) {
    && Sound(feed, c) && Exact(c) && !c.closed && !f.Resync?
    && Follows(feed, c.requested, Emitted(c), f)
    && (f.Committed? ==> f.event.revision <= c.server)
  }

  /** The frame was appended, or the connection has closed. */
  predicate Sent(feed: Feed, c: Conn, f: Frame, c': Conn) {
    && Sound(feed, c') && Exact(c') && Continues(c, c')
    && c'.current == Advance(c, f).current && c'.server == c.server && c'.replaying == c.replaying
    && (!c'.closed ==> Emitted(c') == Emitted(c) + [f] && c'.buffer == c.buffer)
  }

  lemma ToldSnoc(feed: Feed, c: Conn, frames: seq<Frame>, f: Frame)
    requires Told(feed, c.requested, frames, c.current, false) && Position(c.requested, frames) == c.current
    requires Follows(feed, c.requested, frames, f) && !f.Resync?
    ensures var current := Advance(c, f).current;
            Told(feed, c.requested, frames + [f], current, false) && Position(c.requested, frames + [f]) == current
  {
    Snoc(feed, c.requested, frames, f);
  }

  lemma WriteOne(feed: Feed, c: Conn, f: Frame)
    requires MaySend(feed, c, f) && c.queue == []
    ensures Sent(feed, c, f, Write(Advance(c, f), f))
  {
    assert Emitted(c) == c.written;
    ToldSnoc(feed, c, c.written, f);
    var c' := Write(Advance(c, f), f);
    if c'.closed {
      assert Emitted(c') == c.written;
    } else {
      assert Emitted(c') == c.written + [f];
    }
  }

  lemma StopsAnywhere(feed: Feed, c: Conn, f: Frame)
    requires Sound(feed, c) && !c.closed && f.Resync?
    requires f.reason != AheadOfController ==> f.current >= c.current
    requires feed.Lossless? ==> f.reason != AheadOfController && f.reason != Gap
    ensures Coherent(feed, c.requested, c.written) && Coherent(feed, c.requested, c.written + [f])
    ensures Position(c.requested, c.written) <= c.current && Position(c.requested, c.written + [f]) <= c.current
  {
    PrefixCoherent(feed, c.requested, c.written, c.queue);
    if c.queue == [] {
      assert Emitted(c) == c.written;
    }
    Snoc(feed, c.requested, c.written, f);
  }

  lemma ResyncCloses(feed: Feed, c: Conn, earliest: nat, current: nat, reason: Reason)
    requires Sound(feed, c) && !c.closed
    requires reason != AheadOfController ==> current >= c.current
    requires feed.Lossless? ==> reason != AheadOfController && reason != Gap
    ensures var c' := ForceResync(c, earliest, current, reason);
            && Sound(feed, c') && c'.closed && Continues(c, c') && c'.current == c.current
            && (c'.written == c.written || c'.written == c.written + [Resync(c.requested, earliest, current, reason)])
  {
    StopsAnywhere(feed, c, Resync(c.requested, earliest, current, reason));
    var c' := ForceResync(c, earliest, current, reason);
    assert c'.queue == [];
    assert Emitted(c') == c'.written;
  }

  lemma QueueOne(feed: Feed, c: Conn, f: Frame)
    requires MaySend(feed, c, f) && (c.blocked || c.queue != []) && |c.queue| < c.maxQueued
    ensures Sent(feed, c, f, Enqueue(Advance(c, f), f))
  {
    var c1 := Advance(c, f);
    var c' := c1.(queue := c1.queue + [f]);
    ToldSnoc(feed, c, Emitted(c), f);
    assert Enqueue(c1, f) == c';
    assert Emitted(c') == Emitted(c) + [f];
  }

  lemma Overflow(feed: Feed, c: Conn, f: Frame)
    requires MaySend(feed, c, f) && (c.blocked || c.queue != []) && |c.queue| >= c.maxQueued
    ensures Sent(feed, c, f, Enqueue(Advance(c, f), f))
  {
    var c1 := Advance(c, f);
    assert Emitted(c1) == Emitted(c);
    ResyncCloses(feed, c1, c1.current, c1.server, QueueOverflow);
  }

  lemma EnqueueSends(feed: Feed, c: Conn, f: Frame)
    requires MaySend(feed, c, f)
    ensures Sent(feed, c, f, Enqueue(Advance(c, f), f))
  {
    if !c.blocked && c.queue == [] {
      WriteOne(feed, c, f);
    } else if |c.queue| >= c.maxQueued {
      Overflow(feed, c, f);
    } else {
      QueueOne(feed, c, f);
    }
  }

  // ----- Whole operations -----

  predicate Kept(feed: Feed, c: Conn, c': Conn) { Sound(feed, c') && Exact(c') && Continues(c, c') }

  lemma AcceptSequentialKeeps(feed: Feed, c: Conn, e: Event)
    requires Sound(feed, c) && Exact(c) && !c.closed && e.revision <= c.server && Authentic(feed, e)
    requires feed.Lossless? ==> e.revision <= c.current + 1
    ensures var (c', more) := AcceptSequential(c, e);
            && Kept(feed, c, c') && more == !c'.closed && c'.replaying == c.replaying && c'.server == c.server
            && (more ==> c'.current == Max(c.current, e.revision) && c'.buffer == c.buffer)
            && (more ==> Emitted(c') == Emitted(c) + (if e.revision > c.current then [Committed(e)] else []))
            && (e.revision > c.current + 1 ==> !more)
  {
    if e.revision > c.current + 1 {
      ResyncCloses(feed, c, c.current + 1, c.server, Gap);
    } else if e.revision == c.current + 1 {
      EnqueueSends(feed, c, Committed(e));
    }
  }

  /** Where accepting `events` leads when none is refused. */
  function Reach(current: nat, events: seq<Event>): nat
    decreases |events|
  {
    if events == [] then current else Reach(Max(current, events[0].revision), events[1..])
  }

  /** No event is more than one revision ahead of what came before it. */
  predicate Gapless(current: nat, events: seq<Event>)
    decreases |events|
  {
    events == [] || (events[0].revision <= current + 1 && Gapless(Max(current, events[0].revision), events[1..]))
  }

  lemma {:induction false} ReachCovers(current: nat, events: seq<Event>)
    ensures Reach(current, events) >= current
    ensures forall i :: 0 <= i < |events| ==> events[i].revision <= Reach(current, events)
    decreases |events|
  {
    if events != [] {
      ReachCovers(Max(current, events[0].revision), events[1..]);
      assert forall i :: 1 <= i < |events| ==> events[i] == events[1..][i - 1];
    }
  }

  /** `events` may be given to a connection that stands at `current` and has heard of `server`. */
  predicate Acceptable(feed: Feed, current: nat, server: nat, events: seq<Event>) {
    && (forall i :: 0 <= i < |events| ==> events[i].revision <= server && Authentic(feed, events[i]))
    && (feed.Lossless? ==> Gapless(current, events))
  }

  lemma {:induction false} AcceptAllKeeps(feed: Feed, c: Conn, events: seq<Event>)
    requires Sound(feed, c) && Exact(c) && !c.closed && Acceptable(feed, c.current, c.server, events)
    ensures var (c', more) := AcceptAll(c, events);
            && Kept(feed, c, c') && more == !c'.closed && c'.replaying == c.replaying && c'.server == c.server
            && (more ==> c'.buffer == c.buffer && c'.current == Reach(c.current, events))
    decreases |events|
  {
    if events != [] {
      AcceptSequentialKeeps(feed, c, events[0]);
      var (c1, more) := AcceptSequential(c, events[0]);
      if more { AcceptAllKeeps(feed, c1, events[1..]); }
    }
  }

  lemma AcceptCommittedKeeps(feed: Feed, c: Conn, e: Event)
    requires Valid(feed, c) && Authentic(feed, e)
    requires feed.Lossless? && !c.closed && !c.replaying ==> e.revision <= c.current + 1
    ensures Valid(feed, AcceptCommitted(c, e)) && Continues(c, AcceptCommitted(c, e))
    ensures var c' := AcceptCommitted(c, e);
            && (!c.closed ==> c'.server == Max(c.server, e.revision))
            && (!c'.closed ==> c'.replaying == c.replaying
                               && c'.current == (if c.replaying then c.current else Max(c.current, e.revision)))
  {
    if !c.closed {
      var c1 := c.(server := Max(c.server, e.revision));
      assert Emitted(c1) == Emitted(c);
      if c.replaying {
        assert Emitted(AcceptCommitted(c, e)) == Emitted(c);
      } else {
        AcceptSequentialKeeps(feed, c1, e);
      }
    }
  }

  predicate SameCounters(c: Conn, c': Conn) {
    c'.current == c.current && c'.server == c.server && c'.replaying == c.replaying
  }

  lemma AcceptTransientKeeps(feed: Feed, c: Conn, deviceId: string, at: nat)
    requires Valid(feed, c)
    ensures Valid(feed, AcceptTransient(c, Contact(deviceId, at)))
      && Continues(c, AcceptTransient(c, Contact(deviceId, at)))
    ensures SameCounters(c, AcceptTransient(c, Contact(deviceId, at)))
  {
    if !c.closed && !c.replaying { EnqueueSends(feed, c, Contact(deviceId, at)); }
  }

  lemma HeartbeatKeeps(feed: Feed, c: Conn)
    requires Valid(feed, c) && (feed.Lossless? && !c.closed ==> c.server == c.current)
    ensures Valid(feed, HeartbeatTick(c)) && Continues(c, HeartbeatTick(c)) && SameCounters(c, HeartbeatTick(c))
  {
    if !c.closed { EnqueueSends(feed, c, Heartbeat(c.server)); }
  }

  lemma CloseKeeps(feed: Feed, c: Conn)
    requires Valid(feed, c)
    ensures Valid(feed, Close(c)) && Continues(c, Close(c))
  {
    PrefixCoherent(feed, c.requested, c.written, c.queue);
    assert Emitted(Close(c)) == if c.closed then Emitted(c) else c.written;
  }

  /** A connection in the middle of draining: as sound as if it were still blocked. */
  predicate Draining(feed: Feed, c: Conn) {
    Sound(feed, c.(blocked := true)) && Exact(c) && (c.closed ==> c.queue == [])
  }

  lemma DrainOneKeeps(feed: Feed, c: Conn)
    requires Draining(feed, c) && c.queue != []
    ensures var c1 := Write(c.(queue := c.queue[1..]), c.queue[0]);
            && Draining(feed, c1) && Continues(c, c1) && SameCounters(c, c1)
            && (!c1.closed ==> Emitted(c1) == Emitted(c) && c1.buffer == c.buffer)
  {
    var c1 := Write(c.(queue := c.queue[1..]), c.queue[0]);
    assert Emitted(c.(blocked := true)) == Emitted(c);
    if c1.closed {
      PrefixCoherent(feed, c.requested, c.written, c.queue);
      assert Emitted(c1) == c.written;
    } else {
      assert Emitted(c1) == Emitted(c);
    }
    assert Emitted(c1.(blocked := true)) == Emitted(c1);
  }

  lemma {:induction false} DrainQueueKeeps(feed: Feed, c: Conn)
    requires Draining(feed, c)
    ensures Kept(feed, c, DrainQueue(c)) && SameCounters(c, DrainQueue(c))
    ensures !DrainQueue(c).closed ==> Emitted(DrainQueue(c)) == Emitted(c) && DrainQueue(c).buffer == c.buffer
    decreases |c.queue|
  {
    assert Emitted(c.(blocked := true)) == Emitted(c);
    if c.queue != [] && !c.blocked {
      DrainOneKeeps(feed, c);
      DrainQueueKeeps(feed, Write(c.(queue := c.queue[1..]), c.queue[0]));
    }
  }

  lemma DrainKeeps(feed: Feed, c: Conn)
    requires Valid(feed, c)
    ensures Valid(feed, Drain(c)) && Continues(c, Drain(c)) && SameCounters(c, Drain(c))
    ensures !Drain(c).closed ==> Emitted(Drain(c)) == Emitted(c) && (Drain(c).blocked || Drain(c).queue == [])
  {
    if !c.closed {
      var c1 := c.(blocked := false);
      assert Emitted(c1.(blocked := true)) == Emitted(c) == Emitted(c1);
      DrainQueueKeeps(feed, c1);
    }
  }

  lemma ReplayKeeps(feed: Feed, c: Conn, events: seq<Event>, buffered: seq<Event>)
    requires Sound(feed, c) && Exact(c) && !c.closed
    requires Acceptable(feed, c.current, c.server, events)
    requires Acceptable(feed, Reach(c.current, events), c.server, buffered)
    ensures var c' := Replay(c, events, buffered);
            && Kept(feed, c, c') && c'.server == c.server
            && (!c'.closed ==> !c'.replaying && c'.current == Reach(Reach(c.current, events), buffered))
  {
    AcceptAllKeeps(feed, c, events);
    var (c1, complete) := AcceptAll(c, events);
    if complete {
      var c2 := c1.(buffer := map[], replaying := false);
      assert Emitted(c2) == Emitted(c1);
      AcceptAllKeeps(feed, c2, buffered);
      var (c3, open) := AcceptAll(c2, buffered);
      if open { EnqueueSends(feed, c3, Ready(c3.current, |events|)); }
    }
  }

  predicate Refused(c: Conn, w: ReplayWindow) {
    c.requested > w.current || c.requested + 1 < w.earliest || w.limitExceeded
  }

  /** A window of the outbox, and for a lossless feed one that leaves nothing out. */
  predicate Complete(feed: Feed, c: Conn, w: ReplayWindow, buffered: seq<Event>) {
    && (!Refused(c, w) ==>
          forall i :: 0 <= i < |w.events| ==> w.events[i].revision <= w.current && Authentic(feed, w.events[i]))
    && (feed.Lossless? ==> c.requested <= w.current)
    && (feed.Lossless? && !Refused(c, w) ==>
          Gapless(c.requested, w.events) && Gapless(Reach(c.requested, w.events), buffered))
  }

  lemma FinishReplayKeeps(feed: Feed, c: Conn, w: ReplayWindow, buffered: seq<Event>)
    requires Valid(feed, c) && (!c.closed ==> c.replaying) && Lists(buffered, c.buffer)
    requires !c.closed ==> Complete(feed, c, w, buffered)
    ensures var c' := FinishReplay(c, w, buffered);
            && Valid(feed, c') && Continues(c, c')
            && (!c'.closed && !c.closed ==>
                  !c'.replaying && c'.current == Reach(Reach(c.requested, w.events), buffered))
            && c'.server == if c.closed then c.server else Max(c.server, w.current)
  {
    if !c.closed {
      var c0 := c.(server := Max(c.server, w.current));
      assert Emitted(c0) == Emitted(c);
      if c.requested > w.current {
        ResyncCloses(feed, c0, w.earliest, w.current, AheadOfController);
      } else if c.requested + 1 < w.earliest {
        ResyncCloses(feed, c0, w.earliest, w.current, BeforeWatermark);
      } else if w.limitExceeded {
        ResyncCloses(feed, c0, w.earliest, w.current, ReplayLimit);
      } else {
        ReplayKeeps(feed, c0, w.events, buffered);
      }
    }
  }
}
