/** Controller, network and browser together: one controller, its outbox, the stream connection that
    serves the browser's current stream object, and the browser's coordinator.

    What revision `r` commits is `body(r)`, for an arbitrary `body`. Frames travel in order: the
    connection's `written` frames from `delivered` on are in flight. An `EventSource` reconnects on
    its own with the identifier of the last committed event it received. */
module RevisionProtocol {
  import opened Options
  import opened StreamModel
  import opened ClientModel
  import S = StreamModel
  import C = ClientModel

  /** An outstanding snapshot request: its generation, what was committed when it started, and its answer. */
  datatype Fetch = Fetch(generation: nat, floor: nat, answer: Option<Snapshot>)

  datatype Link = Link(conn: Conn, window: Option<ReplayWindow>, publishedAtOpen: nat, delivered: nat)

  datatype System = System(
    committed: nat,
    published: nat,           // revisions handed to the stream hub so far
    pruned: nat,              // revisions no longer in the outbox
    client: Client,
    fetches: map<nat, Fetch>, // outstanding requests, by their place among all the client has made
    lastEventId: nat,         // of the current stream object
    link: Option<Link>)

  const BOOT := System(0, 0, 0, FRESH, map[], 0, None)

  datatype Step =
    | Commit
    | Publish
    | Prune(through: nat)
    | ControllerRestart(mirrored: nat)
    | Connect(maxQueued: nat, script: seq<WriteOutcome>)
    | ReadWindow(limit: nat)
    | FinishReplay(buffered: seq<Event>)
    | Heartbeat
    | DeviceContact(deviceId: string, at: nat)
    | SinkDrained
    | ConnectionClosed
    | Deliver(now: Option<int>)
    | NetworkDrop
    | ReadSnapshot(id: nat, lastSeen: map<string, Option<int>>)
    | FetchDone(id: nat, creation: Creation)
    | FetchLost(id: nat, message: string)
    | Local(op: Op)           // start, stop, refresh, retry, timers, stream opened, garbled message

  function Committed(body: nat -> string, r: nat): Event { Event(r, body(r)) }

  /** The committed events `from + 1 .. to`. */
  function Events(body: nat -> string, from: nat, to: nat): (events: seq<Event>)
    requires from <= to
    ensures |events| == to - from
    ensures forall i :: 0 <= i < |events| ==> events[i].revision == from + 1 + i <= to
    ensures forall i :: 0 <= i < |events| ==> Authentic(Lossless(body), events[i])
  {
    if from == to then [] else Events(body, from, to - 1) + [Committed(body, to)]
  }

  /** What the read transaction finds when the outbox holds `pruned + 1 .. committed`. */
  function OutboxWindow(body: nat -> string, committed: nat, pruned: nat, after: nat, limit: nat): ReplayWindow
    requires pruned <= committed
  {
    var earliest := if pruned < committed then pruned + 1 else if committed == 0 then 0 else committed + 1;
    var from := Max(after, pruned);
    if from >= committed then ReplayWindow(committed, earliest, [], false)
    else
      var to := if committed - from > limit + 1 then from + limit + 1 else committed;
      ReplayWindow(committed, earliest, Events(body, from, to), to - from > limit)
  }

  predicate IsLocal(op: Op) {
    || op == Start || op == Stop || op == Refresh || op == Retry
    || op.StreamOpened? || op.HeartbeatTimeout? || op.StreamErrored?
    || (op.StreamMessage? && op.payload.Garbled?)
  }

  predicate Live(s: System) { s.link.Some? && !s.link.value.conn.closed }

  predicate Enabled(s: System, step: Step) {
    match step
    case Commit => true
    case Publish => s.published < s.committed
    case Prune(through) => s.pruned <= through <= s.published
    case ControllerRestart(mirrored) => s.published <= mirrored <= s.committed
    case Connect(maxQueued, script) => s.link == None && s.client.stream.Some? && maxQueued >= 1
    case ReadWindow(_) => s.pruned <= s.committed && s.link.Some? && s.link.value.window == None
    case FinishReplay(buffered) =>
      Live(s) && s.link.value.window.Some? && s.link.value.conn.replaying && Lists(buffered, s.link.value.conn.buffer)
    case Heartbeat => Live(s) && !s.link.value.conn.replaying
    case DeviceContact(_, _) => s.link.Some?
    case SinkDrained => Live(s) && !s.link.value.conn.replaying
    case ConnectionClosed => s.link.Some?
    case Deliver(_) => s.link.Some? && s.client.stream.Some? && s.link.value.delivered < |s.link.value.conn.written|
    case NetworkDrop => s.link.Some? && s.client.stream.Some?
    case ReadSnapshot(id, _) => id in s.fetches && s.fetches[id].answer == None
    case FetchDone(id, _) => id in s.fetches && s.fetches[id].answer.Some?
    case FetchLost(id, _) => id in s.fetches
    case Local(op) => IsLocal(op)
  }

  function OnConn(s: System, c: Conn): System
    requires s.link.Some?
  {
    s.(link := Some(s.link.value.(conn := c)))
  }

  /** The requests the client has made on its way to `after` are outstanding from now on. */
  function Asked(fetches: map<nat, Fetch>, before: seq<nat>, after: seq<nat>, floor: nat): map<nat, Fetch> {
    fetches + map id | |before| <= id < |after| :: Fetch(after[id], floor, None)
  }

  /** The client has moved on: its new requests start, and a stream it has closed is let go. */
  function ClientMoved(s: System, after: Client): System {
    var before := s.client;
    s.(
      client := after,
      fetches := Asked(s.fetches, before.requests, after.requests, s.committed),
      lastEventId := if after.stream != before.stream then after.view.revision else s.lastEventId,
      link := if after.stream != before.stream then None else s.link)
  }

  function Next(body: nat -> string, s: System, step: Step): System
    requires Enabled(s, step)
  {
    match step
    case Commit => s.(committed := s.committed + 1)
    case Publish =>
      var s' := s.(published := s.published + 1);
      if s.link == None then s' else OnConn(s', AcceptCommitted(s.link.value.conn, Committed(body, s.published + 1)))
    case Prune(through) => s.(pruned := through)
    case ControllerRestart(mirrored) =>
      var s' := s.(published := mirrored);
      if s.link == None then s' else OnConn(s', Close(s.link.value.conn))
    case Connect(maxQueued, script) =>
      s.(link := Some(Link(Initial(s.lastEventId, maxQueued, script), None, s.published, 0)))
    case ReadWindow(limit) =>
      s.(link := Some(s.link.value.(
        window := Some(OutboxWindow(body, s.committed, s.pruned, s.link.value.conn.requested, limit)))))
    case FinishReplay(buffered) => OnConn(s, S.FinishReplay(s.link.value.conn, s.link.value.window.value, buffered))
    case Heartbeat => OnConn(s, HeartbeatTick(s.link.value.conn))
    case DeviceContact(deviceId, at) => OnConn(s, AcceptTransient(s.link.value.conn, Contact(deviceId, at)))
    case SinkDrained => OnConn(s, Drain(s.link.value.conn))
    case ConnectionClosed => OnConn(s, Close(s.link.value.conn))
    case Deliver(now) =>
      var f := Incoming(s);
      var s' := s.(
        lastEventId := if f.Committed? then f.event.revision else s.lastEventId,
        link := Some(s.link.value.(delivered := s.link.value.delivered + 1)));
      ClientMoved(s', Apply(s.client, StreamMessage(s.client.stream.value, Parsed(f), now)))
    case NetworkDrop =>
      ClientMoved(s.(link := None), Apply(s.client, StreamErrored(s.client.stream.value)))
    case ReadSnapshot(id, lastSeen) =>
      s.(fetches := s.fetches[id := s.fetches[id].(answer := Some(Snapshot(s.committed, lastSeen)))])
    case FetchDone(id, creation) =>
      var fetch := s.fetches[id];
      ClientMoved(s.(fetches := s.fetches - {id}),
        Apply(s.client, FetchSucceeded(fetch.generation, fetch.answer.value, creation)))
    case FetchLost(id, message) =>
      ClientMoved(s.(fetches := s.fetches - {id}), Apply(s.client, FetchFailed(s.fetches[id].generation, message)))
    case Local(op) => ClientMoved(s, Apply(s.client, op))
  }

  /** The frame that arrives next. */
  function Incoming(s: System): Frame
    requires s.link.Some? && s.link.value.delivered < |s.link.value.conn.written|
  {
    s.link.value.conn.written[s.link.value.delivered]
  }

  // ----- The invariant -----

  function SnapshotRevision(c: Client): nat {
    if c.view.snapshot.Some? then c.view.snapshot.value.revision else 0
  }

  predicate ClientInv(s: System) {
    && C.Valid(s.client)
    && s.client.view.revision <= s.committed
    && s.client.view.revision <= Max(SnapshotRevision(s.client), s.client.required)
    && (s.client.stream.Some? ==> s.client.view.revision == Max(SnapshotRevision(s.client), s.lastEventId))
  }

  /** The place of the latest request. */
  function Latest(c: Client): int { |c.requests| - 1 }

  predicate FetchOk(f: Fetch, committed: nat) {
    f.floor <= committed && (f.answer.Some? ==> f.floor <= f.answer.value.revision <= committed)
  }

  /** Bookkeeping of requests: `live` says whether the current generation has one outstanding. It is then the
      latest, and all others are of earlier generations; no generation has two. */
  predicate Outstanding(s: System, live: bool) {
    && (forall id :: id in s.fetches ==>
          && id < |s.client.requests| && s.fetches[id].generation == s.client.requests[id]
          && s.fetches[id].generation <= s.client.generation && FetchOk(s.fetches[id], s.committed))
    && (forall i, j :: i in s.fetches && j in s.fetches && i != j ==>
          s.fetches[i].generation != s.fetches[j].generation)
    && (live ==>
          && Latest(s.client) in s.fetches && s.fetches[Latest(s.client)].generation == s.client.generation
          && SnapshotRevision(s.client) <= s.fetches[Latest(s.client)].floor)
    && (!live ==> forall id :: id in s.fetches ==> s.fetches[id].generation < s.client.generation)
  }

  predicate FetchInv(s: System) { Outstanding(s, s.client.fetchInFlight) }

  /** Until its replay finishes a connection has sent nothing and holds what was published since it opened. */
  ghost predicate Waiting(body: nat -> string, s: System, l: Link) {
    var c := l.conn;
    && c.written == [] && c.queue == [] && l.delivered == 0
    && c.current == c.requested
    && c.server <= Max(c.requested, s.published)
    && l.publishedAtOpen <= s.published
    && (forall r :: r in c.buffer <==> l.publishedAtOpen < r <= s.published)
    && (l.window.Some? ==>
          && l.publishedAtOpen <= l.window.value.current <= s.committed
          && c.requested <= l.window.value.current
          && (!Refused(c, l.window.value) ==>
                l.window.value.events == Events(body, c.requested, l.window.value.current)))
  }

  /** What the client has read puts it at `lastEventId`. */
  predicate Reading(feed: Feed, s: System, l: Link) {
    && S.Valid(feed, l.conn)
    && l.conn.requested <= s.committed && l.conn.server <= s.committed
    && l.delivered <= |l.conn.written|
    && s.lastEventId == Position(l.conn.requested, l.conn.written[..l.delivered])
  }

  predicate CaughtUp(s: System, l: Link) { l.conn.current == l.conn.server && s.published <= l.conn.current }

  ghost predicate LinkInv(body: nat -> string, s: System, l: Link) {
    && Reading(Lossless(body), s, l)
    && (!l.conn.closed && l.conn.replaying ==> Waiting(body, s, l))
    && (!l.conn.closed && !l.conn.replaying ==> CaughtUp(s, l))
  }

  ghost predicate Inv(body: nat -> string, s: System) {
    && s.pruned <= s.published <= s.committed
    && ClientInv(s) && FetchInv(s)
    && (s.link.Some? ==> s.client.stream.Some? && LinkInv(body, s, s.link.value))
  }

  // ----- The replay window and the live buffer fit together -----

  lemma {:induction false} ConsecutiveIsGapless(current: nat, events: seq<Event>, from: nat)
    requires from <= current && forall i :: 0 <= i < |events| ==> events[i].revision == from + 1 + i
    ensures Gapless(current, events) && Reach(current, events) == Max(current, from + |events|)
    decreases |events|
  {
    if events != [] {
      assert forall i :: 0 <= i < |events[1..]| ==> events[1..][i] == events[i + 1];
      ConsecutiveIsGapless(Max(current, events[0].revision), events[1..], from + 1);
    }
  }

  lemma {:induction false} BufferIsConsecutive(events: seq<Event>, buffer: map<nat, Event>, from: nat, to: nat, i: nat)
    requires Lists(events, buffer) && (forall r :: r in buffer <==> from < r <= to)
    requires forall r :: r in buffer ==> buffer[r].revision == r
    requires i < |events|
    ensures events[i].revision == from + 1 + i
  {
    var expected := from + 1 + i;
    assert events[i].revision in buffer;
    if i > 0 { BufferIsConsecutive(events, buffer, from, to, i - 1); }
    assert expected in buffer;
    assert buffer[expected] in events;
    var j :| 0 <= j < |events| && events[j] == buffer[expected];
  }

  lemma BufferReaches(events: seq<Event>, buffer: map<nat, Event>, from: nat, to: nat, current: nat)
    requires Lists(events, buffer) && (forall r :: r in buffer <==> from < r <= to)
    requires forall r :: r in buffer ==> buffer[r].revision == r
    requires from <= to && from <= current
    ensures Gapless(current, events) && Reach(current, events) == Max(current, to)
  {
    forall i | 0 <= i < |events| ensures events[i].revision == from + 1 + i <= to {
      BufferIsConsecutive(events, buffer, from, to, i);
      assert events[i].revision in buffer;
    }
    ConsecutiveIsGapless(current, events, from);
    if |events| > 0 { assert events[|events| - 1].revision <= to; }
    if from < to {
      assert buffer[to] in events;
      var j :| 0 <= j < |events| && events[j] == buffer[to];
    }
  }

  // ----- Controller steps -----

  /** A connection that only appends keeps what the client has already read. */
  lemma StillReading(feed: Feed, s: System, s': System, l: Link, c: Conn)
    requires Reading(feed, s, l) && S.Valid(feed, c) && Continues(l.conn, c)
    requires s'.lastEventId == s.lastEventId && s.committed <= s'.committed && c.server <= s'.committed
    ensures Reading(feed, s', l.(conn := c))
  {
    assert c.written[..l.delivered] == l.conn.written[..l.delivered];
  }

  lemma ConnMoved(body: nat -> string, s: System, c: Conn)
    requires Inv(body, s) && s.link.Some?
    requires S.Valid(Lossless(body), c) && Continues(s.link.value.conn, c) && c.server <= s.committed
    requires !c.closed && c.replaying ==> Waiting(body, s, s.link.value.(conn := c))
    requires !c.closed && !c.replaying ==> CaughtUp(s, s.link.value.(conn := c))
    ensures Inv(body, OnConn(s, c))
  {
    StillReading(Lossless(body), s, OnConn(s, c), s.link.value, c);
  }

  lemma PublishWhileWaiting(body: nat -> string, s: System, s': System, l: Link, e: Event)
    requires LinkInv(body, s, l) && !l.conn.closed && l.conn.replaying
    requires e == Committed(body, s.published + 1) && s.published < s.committed
    requires s' == s.(published := s.published + 1, link := Some(l.(conn := AcceptCommitted(l.conn, e))))
    ensures LinkInv(body, s', l.(conn := AcceptCommitted(l.conn, e)))
  {
    AcceptCommittedKeeps(Lossless(body), l.conn, e);
    StillReading(Lossless(body), s, s', l, AcceptCommitted(l.conn, e));
  }

  lemma PublishToLive(body: nat -> string, s: System, s': System, l: Link, e: Event)
    requires LinkInv(body, s, l) && !l.conn.closed && !l.conn.replaying
    requires e == Committed(body, s.published + 1) && s.published < s.committed
    requires s' == s.(published := s.published + 1, link := Some(l.(conn := AcceptCommitted(l.conn, e))))
    ensures LinkInv(body, s', l.(conn := AcceptCommitted(l.conn, e)))
  {
    AcceptCommittedKeeps(Lossless(body), l.conn, e);
    StillReading(Lossless(body), s, s', l, AcceptCommitted(l.conn, e));
  }

  lemma PublishToClosed(body: nat -> string, s: System, s': System, l: Link, e: Event)
    requires LinkInv(body, s, l) && l.conn.closed
    requires s'.lastEventId == s.lastEventId && s'.committed == s.committed
    ensures LinkInv(body, s', l.(conn := AcceptCommitted(l.conn, e)))
  {
    assert AcceptCommitted(l.conn, e) == l.conn;
    StillReading(Lossless(body), s, s', l, l.conn);
  }

  lemma PublishToLink(body: nat -> string, s: System)
    requires Inv(body, s) && Enabled(s, Publish) && s.link.Some?
    ensures LinkInv(body, Next(body, s, Publish), Next(body, s, Publish).link.value)
  {
    var l, s', e := s.link.value, Next(body, s, Publish), Committed(body, s.published + 1);
    if l.conn.closed {
      PublishToClosed(body, s, s', l, e);
    } else if l.conn.replaying {
      PublishWhileWaiting(body, s, s', l, e);
    } else {
      PublishToLive(body, s, s', l, e);
    }
  }

  lemma PublishKeepsInv(body: nat -> string, s: System)
    requires Inv(body, s) && Enabled(s, Publish)
    ensures Inv(body, Next(body, s, Publish))
  {
    if s.link.Some? { PublishToLink(body, s); }
  }

  /** The window read and the events buffered since leave nothing out. */
  lemma ReplayIsComplete(body: nat -> string, s: System, l: Link, buffered: seq<Event>)
    requires LinkInv(body, s, l) && !l.conn.closed && l.conn.replaying && l.window.Some?
    requires Lists(buffered, l.conn.buffer)
    ensures Complete(Lossless(body), l.conn, l.window.value, buffered)
    ensures !Refused(l.conn, l.window.value) ==>
      Reach(Reach(l.conn.requested, l.window.value.events), buffered) == Max(l.window.value.current, s.published)
  {
    var c, w := l.conn, l.window.value;
    if !Refused(c, w) {
      ConsecutiveIsGapless(c.requested, w.events, c.requested);
      BufferReaches(buffered, c.buffer, l.publishedAtOpen, s.published, w.current);
      assert Reach(c.requested, w.events) == w.current;
    }
  }

  lemma FinishReplayKeepsInv(body: nat -> string, s: System, buffered: seq<Event>)
    requires Inv(body, s) && Enabled(s, FinishReplay(buffered))
    ensures Inv(body, Next(body, s, FinishReplay(buffered)))
  {
    var l := s.link.value;
    ReplayIsComplete(body, s, l, buffered);
    FinishReplayKeeps(Lossless(body), l.conn, l.window.value, buffered);
    ConnMoved(body, s, S.FinishReplay(l.conn, l.window.value, buffered));
  }

  // ----- Client steps -----

  /** How an operation may change what the request bookkeeping depends on: at most one request, of the
      present generation, and none while one of that generation is in flight. */
  predicate FetchDiscipline(before: Client, after: Client, answered: bool) {
    && (after.generation == before.generation || after.generation == before.generation + 1)
    && (after.requests == before.requests || after.requests == before.requests + [after.generation])
    && (after.requests == before.requests ==>
          && (after.fetchInFlight <==> before.fetchInFlight && !answered && after.generation == before.generation)
          && (after.fetchInFlight ==> SnapshotRevision(after) == SnapshotRevision(before)))
    && (after.requests != before.requests ==>
          after.fetchInFlight && (answered || !before.fetchInFlight || after.generation != before.generation))
  }

  lemma FrameIsDisciplined(c: Client, f: Frame)
    requires C.Valid(c) && c.running && c.stream.Some?
    ensures FetchDiscipline(c, FrameArrived(c, f), false)
  {
  }

  lemma FetchIsDisciplined(c: Client, op: Op)
    requires C.Valid(c) && Answers(c, op) && (op.FetchSucceeded? || op.FetchFailed?)
    ensures FetchDiscipline(c, Apply(c, op), op.generation == c.generation)
  {
  }

  lemma ApplyIsDisciplined(c: Client, op: Op)
    requires C.Valid(c) && Answers(c, op)
    ensures FetchDiscipline(c, Apply(c, op), (op.FetchSucceeded? || op.FetchFailed?) && op.generation == c.generation)
  {
    match op
    case StreamMessage(stream, payload, now) =>
      if Current(c, stream) && payload.Parsed? && now.Some? {
        FrameIsDisciplined(c.(view := c.view.(lastMessageAt := now)), payload.frame);
      }
    case FetchSucceeded(_, _, _) => FetchIsDisciplined(c, op);
    case FetchFailed(_, _) => FetchIsDisciplined(c, op);
    case _ =>
  }

  lemma FetchesKept(s: System, after: Client, answered: bool)
    requires Outstanding(s, s.client.fetchInFlight && !answered)
    requires FetchDiscipline(s.client, after, answered) && SnapshotRevision(after) <= s.committed
    ensures FetchInv(ClientMoved(s, after))
  {
    if after.requests == s.client.requests {
      assert ClientMoved(s, after).fetches == s.fetches;
    }
  }

  /** Puts the pieces together once the client has moved to `after`. */
  lemma ClientSettled(body: nat -> string, s: System, after: Client, answered: bool)
    requires s.pruned <= s.published <= s.committed && C.Valid(after)
    requires Outstanding(s, s.client.fetchInFlight && !answered) && FetchDiscipline(s.client, after, answered)
    requires after.view.revision <= s.committed && after.view.revision <= Max(SnapshotRevision(after), after.required)
    requires after.stream.Some? && after.stream != s.client.stream ==> after.view.revision == SnapshotRevision(after)
    requires after.stream.Some? && after.stream == s.client.stream ==>
               after.view.revision == Max(SnapshotRevision(after), s.lastEventId)
    requires s.link.Some? ==> s.client.stream.Some? && LinkInv(body, s, s.link.value)
    ensures Inv(body, ClientMoved(s, after))
  {
    FetchesKept(s, after, answered);
  }

  lemma LocalBounds(c: Client, op: Op)
    requires C.Valid(c) && IsLocal(op) && c.view.revision <= Max(SnapshotRevision(c), c.required)
    ensures var after := Apply(c, op);
            && after.view.revision <= Max(SnapshotRevision(after), after.required)
            && after.view.revision <= c.view.revision && SnapshotRevision(after) <= SnapshotRevision(c)
            && (after.stream.Some? ==> after.stream == c.stream && after.view.revision == c.view.revision
                                       && after.view.snapshot == c.view.snapshot)
  {
  }

  /** What a local operation leaves the client with. */
  lemma LocalFacts(s: System, op: Op)
    requires ClientInv(s) && IsLocal(op)
    ensures var after := Apply(s.client, op);
            && C.Valid(after) && FetchDiscipline(s.client, after, false)
            && after.view.revision <= s.committed && after.view.revision <= Max(SnapshotRevision(after), after.required)
            && (after.stream.Some? ==>
                  after.stream == s.client.stream && after.view.revision == Max(SnapshotRevision(after), s.lastEventId))
  {
    ApplyKeepsValid(s.client, op);
    ApplyIsDisciplined(s.client, op);
    LocalBounds(s.client, op);
  }

  lemma LocalKeepsInv(body: nat -> string, s: System, op: Op)
    requires Inv(body, s) && IsLocal(op)
    ensures Inv(body, ClientMoved(s, Apply(s.client, op)))
      && Inv(body, ClientMoved(s.(link := None), Apply(s.client, op)))
  {
    LocalFacts(s, op);
    ClientSettled(body, s, Apply(s.client, op), false);
    ClientSettled(body, s.(link := None), Apply(s.client, op), false);
  }

  lemma FetchBounds(c: Client, op: Op, committed: nat)
    requires C.Valid(c) && Answers(c, op) && (op.FetchSucceeded? || op.FetchFailed?)
    requires c.view.revision <= Max(SnapshotRevision(c), c.required) && c.view.revision <= committed
    requires op.FetchSucceeded? ==> op.snapshot.revision <= committed
    ensures var after := Apply(c, op);
            && after.view.revision <= Max(SnapshotRevision(after), after.required)
            && after.view.revision <= committed
            && (after.stream.Some? && after.stream != c.stream ==> after.view.revision == SnapshotRevision(after))
            && (after.stream.Some? && after.stream == c.stream && after != c ==>
                  || (after.view.revision == c.view.revision && after.view.snapshot == c.view.snapshot)
                  || (after.view.revision == SnapshotRevision(after) && after.view.revision >= c.view.revision))
  {
  }

  lemma FetchEndKeepsInv(body: nat -> string, s: System, step: Step)
    requires Inv(body, s) && Enabled(s, step) && (step.FetchDone? || step.FetchLost?)
    ensures Inv(body, Next(body, s, step))
  {
    var f := s.fetches[step.id];
    var op := if step.FetchDone? then FetchSucceeded(f.generation, f.answer.value, step.creation)
              else FetchFailed(f.generation, step.message);
    AnsweredOnce(s, step.id);
    ApplyKeepsValid(s.client, op);
    ApplyIsDisciplined(s.client, op);
    FetchBounds(s.client, op, s.committed);
    ClientSettled(body, s.(fetches := s.fetches - {step.id}), Apply(s.client, op), f.generation == s.client.generation);
  }

  /** An answer of the current generation is that of the one request in flight, which is then no longer. */
  lemma AnsweredOnce(s: System, id: nat)
    requires FetchInv(s) && id in s.fetches
    ensures s.fetches[id].generation == s.client.generation ==> s.client.fetchInFlight && id == Latest(s.client)
    ensures Outstanding(s.(fetches := s.fetches - {id}),
                        s.client.fetchInFlight && s.fetches[id].generation != s.client.generation)
  {
  }

  // ----- Delivery -----

  /** What the next frame says, compared with what the client knows. */
  lemma NextFrame(body: nat -> string, s: System)
    requires Inv(body, s) && s.link.Some? && s.link.value.delivered < |s.link.value.conn.written|
    ensures match Incoming(s)
            case Committed(e) =>
              e == Committed(body, s.lastEventId + 1) && e.revision <= s.committed
                && e.revision <= s.client.view.revision + 1
            case Ready(r, _) => r == s.lastEventId <= s.client.view.revision
            case Heartbeat(r) => r == s.lastEventId <= s.client.view.revision
            case Resync(_, _, r, reason) => r >= s.lastEventId && reason != AheadOfController && reason != Gap
            case Contact(_, _) => true
    ensures Position(s.link.value.conn.requested, s.link.value.conn.written[..s.link.value.delivered + 1])
            == s.lastEventId + (if Incoming(s).Committed? then 1 else 0)
  {
    var l := s.link.value;
    PrefixCoherent(Lossless(body), l.conn.requested, l.conn.written, l.conn.queue);
    CoherentAt(Lossless(body), l.conn.requested, l.conn.written, l.delivered);
  }

  lemma MessageBounds(c: Client, f: Frame, lastEventId: nat, now: Option<int>)
    requires C.Valid(c) && c.stream.Some? && c.view.revision == Max(SnapshotRevision(c), lastEventId)
    requires match f
             case Committed(e) => e.revision == lastEventId + 1
             case Ready(r, _) => r <= c.view.revision
             case Heartbeat(r) => r <= c.view.revision
             case Resync(_, _, r, _) => r >= lastEventId
             case Contact(_, _) => true
    ensures var after := Apply(c, StreamMessage(c.stream.value, Parsed(f), now));
            && after.view.revision <= Max(SnapshotRevision(after), after.required)
            && (after.stream.Some? ==> after.stream == c.stream)
            && SnapshotRevision(after) == SnapshotRevision(c)
            && (after.stream.Some? ==>
                  after.view.revision == Max(SnapshotRevision(c), lastEventId + (if f.Committed? then 1 else 0)))
            && c.view.revision <= after.view.revision
            && (after.view.revision != c.view.revision ==> f.Committed? && after.view.revision == f.event.revision)
            && (after.stream == None ==> f.Resync? || now == None)
  {
  }

  /** The system with the next frame read off the link. */
  function Received(s: System): System
    requires s.link.Some? && s.link.value.delivered < |s.link.value.conn.written|
  {
    s.(lastEventId := if Incoming(s).Committed? then Incoming(s).event.revision else s.lastEventId,
       link := Some(s.link.value.(delivered := s.link.value.delivered + 1)))
  }

  lemma ReceivedLink(body: nat -> string, s: System)
    requires Inv(body, s) && s.link.Some? && s.link.value.delivered < |s.link.value.conn.written|
    ensures LinkInv(body, Received(s), Received(s).link.value)
  {
    NextFrame(body, s);
  }

  lemma DeliverKeepsInv(body: nat -> string, s: System, now: Option<int>)
    requires Inv(body, s) && Enabled(s, Deliver(now))
    ensures Inv(body, Next(body, s, Deliver(now)))
  {
    NextFrame(body, s);
    ReceivedLink(body, s);
    var op := StreamMessage(s.client.stream.value, Parsed(Incoming(s)), now);
    ApplyKeepsValid(s.client, op);
    ApplyIsDisciplined(s.client, op);
    MessageBounds(s.client, Incoming(s), s.lastEventId, now);
    ClientSettled(body, Received(s), Apply(s.client, op), false);
  }

  // ----- Every step -----

  lemma QuietKeepsInv(body: nat -> string, s: System, c: Conn)
    requires Inv(body, s) && s.link.Some?
    requires S.Valid(Lossless(body), c) && Continues(s.link.value.conn, c)
    requires c.closed || (!s.link.value.conn.replaying && SameCounters(s.link.value.conn, c)) || c == s.link.value.conn
    requires c.server == s.link.value.conn.server
    ensures Inv(body, OnConn(s, c))
  {
    ConnMoved(body, s, c);
  }

  lemma ConnStepKeepsInv(body: nat -> string, s: System, step: Step)
    requires Inv(body, s) && Enabled(s, step)
    requires step.Heartbeat? || step.DeviceContact? || step.SinkDrained? || step.ConnectionClosed?
    ensures Inv(body, Next(body, s, step))
  {
    var c := s.link.value.conn;
    match step
    case Heartbeat =>
      HeartbeatKeeps(Lossless(body), c);
      QuietKeepsInv(body, s, HeartbeatTick(c));
    case DeviceContact(deviceId, at) =>
      AcceptTransientKeeps(Lossless(body), c, deviceId, at);
      QuietKeepsInv(body, s, AcceptTransient(c, Contact(deviceId, at)));
    case SinkDrained =>
      DrainKeeps(Lossless(body), c);
      QuietKeepsInv(body, s, Drain(c));
    case ConnectionClosed =>
      CloseKeeps(Lossless(body), c);
      QuietKeepsInv(body, s, Close(c));
  }

  lemma RestartKeepsInv(body: nat -> string, s: System, mirrored: nat)
    requires Inv(body, s) && Enabled(s, ControllerRestart(mirrored))
    ensures Inv(body, Next(body, s, ControllerRestart(mirrored)))
  {
    if s.link.Some? {
      CloseKeeps(Lossless(body), s.link.value.conn);
      ConnMoved(body, s, Close(s.link.value.conn));
    }
  }

  lemma ConnectKeepsInv(body: nat -> string, s: System, maxQueued: nat, script: seq<WriteOutcome>)
    requires Inv(body, s) && Enabled(s, Connect(maxQueued, script))
    ensures Inv(body, Next(body, s, Connect(maxQueued, script)))
  {
    var c := Initial(s.lastEventId, maxQueued, script);
    assert Emitted(c) == [] && c.written[..0] == [];
  }

  /** A replay is refused exactly for revisions that are ahead, pruned, or too far behind; otherwise the
      window holds every revision after the requested one. */
  lemma WindowRefusedIff(body: nat -> string, committed: nat, pruned: nat, c: Conn, limit: nat)
    requires pruned <= committed
    ensures var w := OutboxWindow(body, committed, pruned, c.requested, limit);
            && w.current == committed
            && (Refused(c, w) <==> c.requested > committed || c.requested < pruned || committed - c.requested > limit)
            && (!Refused(c, w) ==> w.events == Events(body, c.requested, committed))
  {
    if pruned <= c.requested <= committed {
      assert Max(c.requested, pruned) == c.requested;
    }
  }

  lemma ReadWindowKeepsInv(body: nat -> string, s: System, limit: nat)
    requires Inv(body, s) && Enabled(s, ReadWindow(limit))
    ensures Inv(body, Next(body, s, ReadWindow(limit)))
  {
    WindowRefusedIff(body, s.committed, s.pruned, s.link.value.conn, limit);
  }

  lemma BackgroundKeepsInv(body: nat -> string, s: System, step: Step)
    requires Inv(body, s) && Enabled(s, step) && (step.Commit? || step.Prune? || step.ReadSnapshot?)
    ensures Inv(body, Next(body, s, step))
  {
  }

  predicate OfBrowser(step: Step) {
    step.Deliver? || step.NetworkDrop? || step.FetchDone? || step.FetchLost? || step.Local?
  }

  lemma BrowserStepKeepsInv(body: nat -> string, s: System, step: Step)
    requires Inv(body, s) && Enabled(s, step) && OfBrowser(step)
    ensures Inv(body, Next(body, s, step))
  {
    match step
    case Deliver(now) => DeliverKeepsInv(body, s, now);
    case NetworkDrop => LocalKeepsInv(body, s, StreamErrored(s.client.stream.value));
    case FetchDone(_, _) => FetchEndKeepsInv(body, s, step);
    case FetchLost(_, _) => FetchEndKeepsInv(body, s, step);
    case Local(op) => LocalKeepsInv(body, s, op);
  }

  lemma StepKeepsInv(body: nat -> string, s: System, step: Step)
    requires Inv(body, s) && Enabled(s, step)
    ensures Inv(body, Next(body, s, step))
  {
    if OfBrowser(step) {
      BrowserStepKeepsInv(body, s, step);
    } else {
      match step
      case Publish => PublishKeepsInv(body, s);
      case ControllerRestart(mirrored) => RestartKeepsInv(body, s, mirrored);
      case Connect(maxQueued, script) => ConnectKeepsInv(body, s, maxQueued, script);
      case ReadWindow(limit) => ReadWindowKeepsInv(body, s, limit);
      case FinishReplay(buffered) => FinishReplayKeepsInv(body, s, buffered);
      case Commit => BackgroundKeepsInv(body, s, step);
      case Prune(_) => BackgroundKeepsInv(body, s, step);
      case ReadSnapshot(_, _) => BackgroundKeepsInv(body, s, step);
      case _ => ConnStepKeepsInv(body, s, step);
    }
  }
}
