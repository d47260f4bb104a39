/** `ControllerStateCoordinator` as it is written: private fields updated by the public methods and
    by the callbacks of fetches, streams and timers. Each method computes the corresponding function
    of `ClientModel` and keeps `ClientModel.Valid`. */
module Coordinator {
  import opened Options
  import M = ClientModel
  import opened StreamModel
  import opened ClientModel

  class ControllerStateCoordinator {
    var state: View
    var running: bool
    var generation: nat
    var stream: Option<nat>
    var streamsCreated: nat
    var streamReady: bool
    var snapshotFetchInFlight: bool
    var requiredSnapshotRevision: nat
    var reconnectAfterSnapshot: bool

    /** Every call of `fetchSnapshot` so far, by its generation; for the proofs only. */
    ghost var requests: seq<nat>

    ghost function Abs(): Client
      reads this
    {
      Client(state, running, generation, stream, streamsCreated, streamReady, snapshotFetchInFlight,
             requiredSnapshotRevision, reconnectAfterSnapshot, requests)
    }

    constructor ()
      ensures Abs() == FRESH && M.Valid(Abs())
    {
      state, running, generation := INITIAL_VIEW, false, 0;
      stream, streamsCreated, streamReady := None, 0, false;
      snapshotFetchInFlight, requiredSnapshotRevision, reconnectAfterSnapshot := false, 0, false;
      requests := [];
    }

    method Start()
      requires M.Valid(Abs())
      modifies this
      ensures Abs() == Apply(old(Abs()), Op.Start) && M.Valid(Abs())
    {
      ApplyKeepsValid(Abs(), Op.Start);
      StartIfStopped();
    }

    method Stop()
      requires M.Valid(Abs())
      modifies this
      ensures Abs() == Apply(old(Abs()), Op.Stop) && M.Valid(Abs())
    {
      ApplyKeepsValid(Abs(), Op.Stop);
      if !running { return; }
      running := false;
      generation := generation + 1;
      snapshotFetchInFlight := false;
      CloseStream();
    }

    method Refresh()
      requires M.Valid(Abs())
      modifies this
      ensures Abs() == Apply(old(Abs()), Op.Refresh) && M.Valid(Abs())
    {
      ApplyKeepsValid(Abs(), Op.Refresh);
      if !running { return; }
      requiredSnapshotRevision := Max(requiredSnapshotRevision, state.revision);
      RequestSnapshot();
    }

    method Retry()
      requires M.Valid(Abs())
      modifies this
      ensures Abs() == Apply(old(Abs()), Op.Retry) && M.Valid(Abs())
    {
      ApplyKeepsValid(Abs(), Op.Retry);
      if !running {
        StartIfStopped();
        return;
      }
      CloseStream();
      reconnectAfterSnapshot := true;
      requiredSnapshotRevision := Max(requiredSnapshotRevision, state.revision);
      state := state.(
        status := if state.snapshot == None then Loading else Reconnecting, dataStale := true, error := None);
      RequestSnapshot();
    }

    /** The `then` callback of the fetch that was started in `generation`. */
    method FetchSucceeded(fetchGeneration: nat, snapshot: Snapshot, creation: Creation)
      requires M.Valid(Abs()) && Answers(Abs(), Op.FetchSucceeded(fetchGeneration, snapshot, creation))
      modifies this
      ensures Abs() == Apply(old(Abs()), Op.FetchSucceeded(fetchGeneration, snapshot, creation)) && M.Valid(Abs())
    {
      ApplyKeepsValid(Abs(), Op.FetchSucceeded(fetchGeneration, snapshot, creation));
      if !running || fetchGeneration != generation { return; }
      snapshotFetchInFlight := false;
      if snapshot.revision < requiredSnapshotRevision {
        RequestSnapshot();
        return;
      }
      var reconnect := reconnectAfterSnapshot;
      reconnectAfterSnapshot := false;
      requiredSnapshotRevision := snapshot.revision;
      state := state.(
        status := if reconnect then Reconnecting else state.status,
        snapshot := Some(snapshot), revision := snapshot.revision,
        dataStale := false, isRefreshing := false, error := None);
      if reconnect { OpenStream(creation); }
    }

    /** The `catch` callback of the fetch that was started in `generation`. */
    method FetchFailed(fetchGeneration: nat, message: string)
      requires M.Valid(Abs()) && Answers(Abs(), Op.FetchFailed(fetchGeneration, message))
      modifies this
      ensures Abs() == Apply(old(Abs()), Op.FetchFailed(fetchGeneration, message)) && M.Valid(Abs())
    {
      ApplyKeepsValid(Abs(), Op.FetchFailed(fetchGeneration, message));
      if !running || fetchGeneration != generation { return; }
      snapshotFetchInFlight := false;
      state := state.(status := Failed, dataStale := true, isRefreshing := false, error := Some(message));
    }

    method StreamOpened(from: nat, now: Option<int>)
      requires M.Valid(Abs())
      modifies this
      ensures Abs() == Apply(old(Abs()), Op.StreamOpened(from, now)) && M.Valid(Abs())
    {
      ApplyKeepsValid(Abs(), Op.StreamOpened(from, now));
      if stream != Some(from) || !running { return; }
      var touched := TouchStream(now);
      if !touched { return; }
      if state.status != Failed { state := state.(status := Reconnecting); }
    }

    method StreamErrored(from: nat)
      requires M.Valid(Abs())
      modifies this
      ensures Abs() == Apply(old(Abs()), Op.StreamErrored(from)) && M.Valid(Abs())
    {
      ApplyKeepsValid(Abs(), Op.StreamErrored(from));
      if stream != Some(from) || !running { return; }
      streamReady := false;
      if state.status != Failed { state := state.(status := Reconnecting, dataStale := true); }
    }

    method HeartbeatTimeout(from: nat)
      requires M.Valid(Abs())
      modifies this
      ensures Abs() == Apply(old(Abs()), Op.HeartbeatTimeout(from)) && M.Valid(Abs())
    {
      ApplyKeepsValid(Abs(), Op.HeartbeatTimeout(from));
      if running && stream == Some(from) && state.status != Failed {
        state := state.(status := Stale, dataStale := true);
      }
    }

    method HandleMessage(from: nat, data: Message, now: Option<int>)
      requires M.Valid(Abs())
      modifies this
      ensures Abs() == Apply(old(Abs()), Op.StreamMessage(from, data, now)) && M.Valid(Abs())
    {
      ApplyKeepsValid(Abs(), Op.StreamMessage(from, data, now));
      if stream != Some(from) || !running { return; }
      if data.Garbled? {
        CloseStream();
        state := state.(status := Failed, dataStale := true, error := Some(INVALID_DATA));
        return;
      }
      var touched := TouchStream(now);
      if !touched { return; }
      match data.frame {
        case Committed(event) => HandleCommittedEvent(event);
        case Resync(_, _, current, _) => Resynchronize(current, true);
        case Contact(deviceId, at) => ApplyDeviceContact(deviceId, at);
        case Ready(current, _) =>
          if current > state.revision {
            Resynchronize(current, false);
            return;
          }
          streamReady := true;
          state := state.(status := Connected, error := None);
          if state.dataStale { RequestSnapshot(); }
        case Heartbeat(current) =>
          if current > state.revision {
            Resynchronize(current, false);
            return;
          }
          if streamReady && state.status != Failed {
            state := state.(status := Connected, dataStale := Behind(state, state.revision));
          }
      }
    }

    // ----- Private methods -----

    method StartIfStopped()
      modifies this
      ensures Abs() == StartClient(old(Abs()))
    {
      if running { return; }
      running := true;
      generation := generation + 1;
      requiredSnapshotRevision := 0;
      reconnectAfterSnapshot := true;
      state := INITIAL_VIEW;
      RequestSnapshot();
    }

    method RequestSnapshot()
      modifies this
      ensures Abs() == M.RequestSnapshot(old(Abs()))
    {
      if !running || snapshotFetchInFlight { return; }
      snapshotFetchInFlight := true;
      requests := requests + [generation];
      state := state.(
        status := if state.snapshot == None then Loading
                  else if reconnectAfterSnapshot then Reconnecting
                  else if streamReady then Connected
                  else state.status,
        isRefreshing := true,
        error := None);
    }

    method OpenStream(creation: Creation)
      modifies this
      ensures Abs() == M.OpenStream(old(Abs()), creation)
    {
      if !running { return; }
      CloseStream();
      if creation.CreateThrew? {
        state := state.(status := Failed, dataStale := true, error := Some(creation.message));
        return;
      }
      stream := Some(streamsCreated);
      streamsCreated := streamsCreated + 1;
      if creation.ListenThrew? {
        CloseStream();
        state := state.(status := Failed, dataStale := true, error := Some(creation.message));
      }
    }

    method HandleCommittedEvent(event: Event)
      modifies this
      ensures Abs() == CommittedArrived(old(Abs()), event.revision)
    {
      if event.revision <= state.revision { return; }
      if event.revision != state.revision + 1 {
        Resynchronize(event.revision, false);
        return;
      }
      requiredSnapshotRevision := event.revision;
      state := state.(revision := event.revision, dataStale := Behind(state, event.revision));
      if streamReady { RequestSnapshot(); }
    }

    method Resynchronize(revision: nat, authoritative: bool)
      modifies this
      ensures Abs() == M.Resynchronize(old(Abs()), revision, authoritative)
    {
      CloseStream();
      requiredSnapshotRevision := if authoritative then revision else Max(state.revision, revision);
      reconnectAfterSnapshot := true;
      state := state.(status := Reconnecting, dataStale := true, error := None);
      RequestSnapshot();
    }

    method ApplyDeviceContact(deviceId: string, at: int)
      modifies this
      ensures Abs() == ApplyContact(old(Abs()), deviceId, at)
    {
      if state.snapshot == None { return; }
      var snapshot := state.snapshot.value;
      if deviceId !in snapshot.lastSeen { return; }
      var seen := snapshot.lastSeen[deviceId];
      if seen.Some? && at <= seen.value { return; }
      state := state.(snapshot := Some(snapshot.(lastSeen := snapshot.lastSeen[deviceId := Some(at)])));
    }

    method TouchStream(now: Option<int>) returns (touched: bool)
      modifies this
      ensures touched == now.Some?
      ensures Abs() == if touched then old(Abs()).(view := old(state).(lastMessageAt := now))
                       else Fail(M.CloseStream(old(Abs())), INVALID_CLOCK)
    {
      if now == None {
        CloseStream();
        state := state.(status := Failed, dataStale := true, error := Some(INVALID_CLOCK));
        return false;
      }
      state := state.(lastMessageAt := now);
      return true;
    }

    method CloseStream()
      modifies this
      ensures Abs() == M.CloseStream(old(Abs()))
    {
      stream := None;
      streamReady := false;
    }
  }
}
