/** The browser's `ControllerStateCoordinator`, its callbacks coming in any order and at any time. */
module ClientModel {
  import opened Options
  import opened StreamModel

  datatype Status = Loading | Connected | Reconnecting | Stale | Failed

  /** The part of a controller snapshot the coordinator looks at: its revision and when each device
      was last seen. */
  datatype Snapshot = Snapshot(revision: nat, lastSeen: map<string, Option<int>>)

  datatype View = View(
    status: Status,
    snapshot: Option<Snapshot>,
    revision: nat,
    dataStale: bool,
    isRefreshing: bool,
    lastMessageAt: Option<int>,
    error: Option<string>)

  const INITIAL_VIEW := View(Loading, None, 0, true, false, None, None)

  datatype Client = Client(
    view: View,
    running: bool,
    generation: nat,
    stream: Option<nat>,     // identity of the current stream object
    streamsCreated: nat,
    streamReady: bool,
    fetchInFlight: bool,
    required: nat,           // least revision an acceptable snapshot may have
    reconnect: bool,         // open a new stream after the next accepted snapshot
    requests: seq<nat>)      // every call of `fetchSnapshot` so far, by its generation

  const FRESH := Client(INITIAL_VIEW, false, 0, None, 0, false, false, 0, false, [])

  /** How creating a stream and registering its listeners went. */
  datatype Creation = Listening | CreateThrew(message: string) | ListenThrew(message: string)

  /** A message after parsing. */
  datatype Message = Garbled | Parsed(frame: Frame)

  datatype Op =
    | Start
    | Stop
    | Refresh
    | Retry
    | FetchSucceeded(generation: nat, snapshot: Snapshot, creation: Creation)
    | FetchFailed(generation: nat, message: string)
    | StreamOpened(stream: nat, now: Option<int>)    // `None`: the clock is invalid
    | StreamErrored(stream: nat)
    | StreamMessage(stream: nat, payload: Message, now: Option<int>)
    | HeartbeatTimeout(stream: nat)

  function CloseStream(c: Client): Client { c.(stream := None, streamReady := false) }

  function Fail(c: Client, message: string): Client {
    c.(view := c.view.(status := Failed, dataStale := true, error := Some(message)))
  }

  function RequestSnapshot(c: Client): Client {
    if !c.running || c.fetchInFlight then c
    else c.(
      fetchInFlight := true,
      requests := c.requests + [c.generation],
      view := c.view.(
        status := if c.view.snapshot == None then Loading
                  else if c.reconnect then Reconnecting
                  else if c.streamReady then Connected
                  else c.view.status,
        isRefreshing := true,
        error := None))
  }

  function OpenStream(c: Client, creation: Creation): Client {
    if !c.running then c
    else
      var c := CloseStream(c);
      match creation
      case CreateThrew(message) => Fail(c, message)
      case ListenThrew(message) => Fail(c.(streamsCreated := c.streamsCreated + 1), message)
      case Listening => c.(stream := Some(c.streamsCreated), streamsCreated := c.streamsCreated + 1)
  }

  function SnapshotArrived(c: Client, generation: nat, snapshot: Snapshot, creation: Creation): Client {
    if !c.running || generation != c.generation then c
    else if snapshot.revision < c.required then RequestSnapshot(c.(fetchInFlight := false))
    else
      var accepted := c.(
        fetchInFlight := false, reconnect := false, required := snapshot.revision,
        view := c.view.(
          status := if c.reconnect then Reconnecting else c.view.status,
          snapshot := Some(snapshot), revision := snapshot.revision,
          dataStale := false, isRefreshing := false, error := None));
      if c.reconnect then OpenStream(accepted, creation) else accepted
  }

  function FetchRejected(c: Client, generation: nat, message: string): Client {
    if !c.running || generation != c.generation then c
    else
      var c := c.(fetchInFlight := false);
      Fail(c.(view := c.view.(isRefreshing := false)), message)
  }

  function Resynchronize(c: Client, revision: nat, authoritative: bool): Client {
    var c := CloseStream(c);
    RequestSnapshot(c.(
      required := if authoritative then revision else Max(c.view.revision, revision),
      reconnect := true,
      view := c.view.(status := Reconnecting, dataStale := true, error := None)))
  }

  function ApplyContact(c: Client, deviceId: string, at: int): Client {
    if c.view.snapshot == None then c
    else
      var snapshot := c.view.snapshot.value;
      if deviceId in snapshot.lastSeen &&
         (snapshot.lastSeen[deviceId] == None || snapshot.lastSeen[deviceId].value < at)
      then c.(view := c.view.(snapshot := Some(snapshot.(lastSeen := snapshot.lastSeen[deviceId := Some(at)]))))
      else c
  }

  function Behind(view: View, revision: nat): bool {
    view.snapshot == None || view.snapshot.value.revision < revision
  }

  function CommittedArrived(c: Client, revision: nat): Client {
    if revision <= c.view.revision then c
    else if revision != c.view.revision + 1 then Resynchronize(c, revision, false)
    else
      var c := c.(required := revision, view := c.view.(revision := revision, dataStale := Behind(c.view, revision)));
      if c.streamReady then RequestSnapshot(c) else c
  }

  function FrameArrived(c: Client, f: Frame): Client {
    match f
    case Committed(e) => CommittedArrived(c, e.revision)
    case Resync(_, _, current, _) => Resynchronize(c, current, true)
    case Contact(deviceId, at) => ApplyContact(c, deviceId, at)
    case Ready(current, _) =>
      if current > c.view.revision then Resynchronize(c, current, false)
      else
        var c := c.(streamReady := true, view := c.view.(status := Connected, error := None));
        if c.view.dataStale then RequestSnapshot(c) else c
    case Heartbeat(current) =>
      if current > c.view.revision then Resynchronize(c, current, false)
      else if c.streamReady && c.view.status != Failed then
        c.(view := c.view.(status := Connected, dataStale := Behind(c.view, c.view.revision)))
      else c
  }

  const INVALID_CLOCK := "Controller event clock returned an invalid time"
  const INVALID_DATA := "Controller event stream sent invalid data"

  function Current(c: Client, stream: nat): bool { c.stream == Some(stream) && c.running }

  function MessageArrived(c: Client, stream: nat, message: Message, now: Option<int>): Client {
    if !Current(c, stream) then c
    else if message.Garbled? then Fail(CloseStream(c), INVALID_DATA)
    else if now == None then Fail(CloseStream(c), INVALID_CLOCK)
    else FrameArrived(c.(view := c.view.(lastMessageAt := now)), message.frame)
  }

  function Opened(c: Client, stream: nat, now: Option<int>): Client {
    if !Current(c, stream) then c
    else if now == None then Fail(CloseStream(c), INVALID_CLOCK)
    else
      c.(view := c.view.(lastMessageAt := now, status := if c.view.status != Failed then Reconnecting else Failed))
  }

  function Errored(c: Client, stream: nat): Client {
    if !Current(c, stream) then c
    else
      var c := c.(streamReady := false);
      if c.view.status != Failed then c.(view := c.view.(status := Reconnecting, dataStale := true)) else c
  }

  function TimedOut(c: Client, stream: nat): Client {
    if Current(c, stream) && c.view.status != Failed then c.(view := c.view.(status := Stale, dataStale := true)) else c
  }

  function StartClient(c: Client): Client {
    if c.running then c
    else
      RequestSnapshot(c.(
        running := true, generation := c.generation + 1, required := 0, reconnect := true, view := INITIAL_VIEW))
  }

  function StopClient(c: Client): Client {
    if !c.running then c
    else CloseStream(c.(running := false, generation := c.generation + 1, fetchInFlight := false))
  }

  function RefreshClient(c: Client): Client {
    if !c.running then c else RequestSnapshot(c.(required := Max(c.required, c.view.revision)))
  }

  function RetryClient(c: Client): Client {
    if !c.running then StartClient(c)
    else
      var c := CloseStream(c);
      RequestSnapshot(c.(
        reconnect := true, required := Max(c.required, c.view.revision),
        view := c.view.(
          status := if c.view.snapshot == None then Loading else Reconnecting, dataStale := true, error := None)))
  }

  function Apply(c: Client, op: Op): Client {
    match op
    case Start => StartClient(c)
    case Stop => StopClient(c)
    case Refresh => RefreshClient(c)
    case Retry => RetryClient(c)
    case FetchSucceeded(generation, snapshot, creation) => SnapshotArrived(c, generation, snapshot, creation)
    case FetchFailed(generation, message) => FetchRejected(c, generation, message)
    case StreamOpened(stream, now) => Opened(c, stream, now)
    case StreamErrored(stream) => Errored(c, stream)
    case StreamMessage(stream, message, now) => MessageArrived(c, stream, message, now)
    case HeartbeatTimeout(stream) => TimedOut(c, stream)
  }

  // ----- What every operation keeps -----

  predicate Valid(c: Client) {
    && (c.view.snapshot.Some? ==> c.view.snapshot.value.revision <= c.view.revision)
    && (!c.view.dataStale ==> c.view.snapshot.Some? && c.view.snapshot.value.revision == c.view.revision)
    && (c.view.snapshot == None ==> c.view.revision == 0)
    && (c.stream.Some? ==> c.running && !c.reconnect && c.view.snapshot.Some? && c.required == c.view.revision)
    && (c.stream.Some? ==> c.stream.value < c.streamsCreated)
    && (c.streamReady ==> c.stream.Some?)
    && (c.streamReady && Behind(c.view, c.view.revision) ==> c.fetchInFlight || c.view.status == Failed)
    && (!c.running ==> !c.fetchInFlight)
    && (c.running ==> c.fetchInFlight == c.view.isRefreshing)
    && (c.running && c.view.snapshot == None ==> c.fetchInFlight || c.view.status == Failed)
  }

  /** A fetch callback of the current generation answers the one fetch that is in flight. */
  predicate Answers(c: Client, op: Op) {
    (op.FetchSucceeded? || op.FetchFailed?) && c.running && op.generation == c.generation ==> c.fetchInFlight
  }

  lemma FrameKeepsValid(c: Client, f: Frame)
    requires Valid(c) && c.running && c.stream.Some?
    ensures Valid(FrameArrived(c, f))
  {
  }

  lemma SnapshotKeepsValid(c: Client, generation: nat, snapshot: Snapshot, creation: Creation)
    requires Valid(c) && (c.running && generation == c.generation ==> c.fetchInFlight)
    ensures Valid(SnapshotArrived(c, generation, snapshot, creation))
  {
  }

  lemma ApplyKeepsValid(c: Client, op: Op)
    requires Valid(c) && Answers(c, op)
    ensures Valid(Apply(c, op))
  {
    match op
    case StreamMessage(stream, payload, now) =>
      if Current(c, stream) && payload.Parsed? && now.Some? {
        FrameKeepsValid(c.(view := c.view.(lastMessageAt := now)), payload.frame);
      }
    case FetchSucceeded(generation, snapshot, creation) => SnapshotKeepsValid(c, generation, snapshot, creation);
    case _ =>
  }

  function Run(c: Client, ops: seq<Op>): Client
    decreases |ops|
  {
    if ops == [] then c else Run(Apply(c, ops[0]), ops[1..])
  }

  predicate Admissible(c: Client, ops: seq<Op>)
    decreases |ops|
  {
    ops == [] || (Answers(c, ops[0]) && Admissible(Apply(c, ops[0]), ops[1..]))
  }

  lemma {:induction false} EveryRunIsValid(c: Client, ops: seq<Op>)
    requires Valid(c) && Admissible(c, ops)
    ensures Valid(Run(c, ops))
    decreases |ops|
  {
    if ops != [] {
      ApplyKeepsValid(c, ops[0]);
      EveryRunIsValid(Apply(c, ops[0]), ops[1..]);
    }
  }

  /** A revision changes in three ways only. */
  lemma WhyRevisionChanges(c: Client, op: Op)
    requires Valid(c) && Apply(c, op).view.revision != c.view.revision
    ensures
      || ((op == Start || op == Retry) && !c.running && Apply(c, op).view.revision == 0)
      || (op.FetchSucceeded? && c.running && op.generation == c.generation && op.snapshot.revision >= c.required
          && Apply(c, op).view.revision == op.snapshot.revision && Apply(c, op).view.snapshot == Some(op.snapshot))
      || (op.StreamMessage? && Current(c, op.stream) && op.payload.Parsed? && op.payload.frame.Committed?
          && op.payload.frame.event.revision == c.view.revision + 1
          && Apply(c, op).view.revision == c.view.revision + 1)
  {
  }

  predicate Authoritative(op: Op) { op.StreamMessage? && op.payload.Parsed? && op.payload.frame.Resync? }

  predicate Raised(c: Client, c': Client) { c'.running && c'.required >= c'.view.revision >= c.view.revision }

  lemma FrameNeverLowers(c: Client, f: Frame)
    requires Valid(c) && c.running && c.required >= c.view.revision && !f.Resync?
    ensures Raised(c, FrameArrived(c, f))
  {
  }

  lemma StepNeverLowers(c: Client, op: Op)
    requires Valid(c) && Answers(c, op) && c.running && c.required >= c.view.revision
    requires op != Stop && !Authoritative(op)
    ensures Raised(c, Apply(c, op))
  {
    match op
    case StreamMessage(stream, payload, now) =>
      if Current(c, stream) && payload.Parsed? && now.Some? {
        FrameNeverLowers(c.(view := c.view.(lastMessageAt := now)), payload.frame);
      }
    case _ =>
  }

  /** While the client runs and no authoritative resynchronisation arrives, its revision never goes down. */
  lemma {:induction false} RevisionDropsOnlyAfterResync(c: Client, ops: seq<Op>)
    requires Valid(c) && Admissible(c, ops) && c.running && c.required >= c.view.revision
    requires forall i :: 0 <= i < |ops| ==> ops[i] != Stop && !Authoritative(ops[i])
    ensures Run(c, ops).view.revision >= c.view.revision && Run(c, ops).required >= Run(c, ops).view.revision
    decreases |ops|
  {
    if ops != [] {
      ApplyKeepsValid(c, ops[0]);
      StepNeverLowers(c, ops[0]);
      RevisionDropsOnlyAfterResync(Apply(c, ops[0]), ops[1..]);
    }
  }
}
