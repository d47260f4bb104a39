/** The device's epoch clock and its diagnostics as mutable objects, method by method against the model. */
module DeviceClock {
  import opened Options
  import opened DeviceTime

  class CheckpointedClock {
    const boot: int
    var initialized: bool
    var baseEpochSeconds: int
    var baseMilliseconds: int
    var pending: bool
    var immediate: bool
    var freshCommitted: bool
    var failed: bool
    var attempt: nat
    var success: nat
    var persistedTime: Option<int>
    /** What the next storage writes will do. */
    var outcomes: seq<bool>

    /** History in true time, for the proofs only. */
    ghost var attempts: seq<Attempt>
    ghost var successAt: int
    ghost var synced: (int, int)
    ghost var checkpoints: nat

    ghost function State(): Timekeeper
      reads this
    {
      Timekeeper(boot, initialized, baseEpochSeconds, baseMilliseconds, pending, immediate, freshCommitted, failed,
                 attempt, success, persistedTime, outcomes, attempts, successAt, synced, checkpoints)
    }

    function CurrentEpochSeconds(at: int): (epoch: int)
      reads this
      ensures epoch == EpochAt(State(), at)
    {
      if !initialized then 0 else baseEpochSeconds + (at - baseMilliseconds) / 1000
    }

    function CurrentMinuteOfDay(at: int): (minute: int)
      reads this
      ensures minute == MinuteAt(State(), at)
    {
      var epoch := CurrentEpochSeconds(at);
      if epoch == 0 then 0 else (epoch / 60) % 1440
    }

    method BeginAttempt(now: nat, at: int)
      modifies this
      ensures State() == Tried(old(State()), now, at)
    {
      attempts := attempts + [Attempt(at, !failed && immediate && !freshCommitted)];
      attempt := now;
      failed := true;
    }

    method WriteTime(checkpoint: int) returns (ok: bool)
      modifies this`persistedTime, this`outcomes
      ensures ok == Stores(old(outcomes)) && outcomes == Rest(old(outcomes))
      ensures persistedTime == if ok then Some(checkpoint) else old(persistedTime)
    {
      ok := Stores(outcomes);
      outcomes := Rest(outcomes);
      if ok { persistedTime := Some(checkpoint); }
    }

    method EndAttempt(now: nat, at: int, checkpoint: int)
      modifies this`baseEpochSeconds, this`baseMilliseconds, this`freshCommitted, this`pending, this`immediate,
        this`failed
      modifies this`success, this`successAt, this`checkpoints
      ensures baseEpochSeconds == checkpoint && baseMilliseconds == at
        && freshCommitted == old(freshCommitted || immediate)
      ensures !pending && !immediate && !failed && success == now
      ensures successAt == at && checkpoints == old(checkpoints) + 1
    {
      baseEpochSeconds, baseMilliseconds := checkpoint, at;
      freshCommitted := freshCommitted || immediate;
      pending, immediate, failed := false, false, false;
      success := now;
      successAt, checkpoints := at, checkpoints + 1;
    }

    /** One attempt to save the present time. */
    method SaveTime(now: nat, at: int, checkpoint: int) returns (ok: bool)
      modifies this
      ensures ok == (checkpoints > old(checkpoints))
      ensures State() == TryToSave(old(State()), now, at, checkpoint)
    {
      BeginAttempt(now, at);
      if !Restorable(checkpoint) { return false; }
      ok := WriteTime(checkpoint);
      if ok { EndAttempt(now, at, checkpoint); }
    }

    /** `serviceTimeCheckpoint`. */
    method ServiceTimeCheckpoint(at: int) returns (saved: bool)
      modifies this
      ensures saved == (checkpoints > old(checkpoints))
      ensures State() == ServiceCheckpoint(old(State()), at)
    {
      if !initialized { return false; }
      var now := Millis(at, boot);
      if !pending && Elapsed(now, success) >= HOUR { pending := true; }
      if !pending { return false; }
      var due;
      if failed {
        due := Elapsed(now, attempt) >= HOUR;
      } else {
        due := (immediate && !freshCommitted) || Elapsed(now, success) >= HOUR;
      }
      if !due { return false; }
      var checkpoint := CurrentEpochSeconds(at);
      saved := SaveTime(now, at, checkpoint);
    }

    /** `queueTimeCheckpoint(true)`. */
    method QueueTimeCheckpoint(at: int) returns (saved: bool)
      modifies this
      ensures saved == (checkpoints > old(checkpoints))
      ensures State() == QueueCheckpoint(old(State()), at)
    {
      pending := true;
      if !freshCommitted && !immediate {
        immediate := true;
        failed := false;
      }
      saved := ServiceTimeCheckpoint(at);
    }

    /** The `sync_time` command. */
    method Synchronize(epoch: int, at: int) returns (saved: bool)
      modifies this
      ensures saved == (checkpoints > 0)
      ensures State() == SyncTime(old(State()), epoch, at)
    {
      initialized, baseEpochSeconds, baseMilliseconds := true, epoch, at;
      synced, checkpoints := (epoch, at), 0;
      saved := QueueTimeCheckpoint(at);
    }

    constructor (saved: Option<int>, at: int, script: seq<bool>)
      ensures State() == BootClock(saved, at, script)
    {
      boot := at;
      attempt, success := Millis(at, at), Millis(at, at);
      pending, immediate, freshCommitted, failed := false, false, false, false;
      outcomes, attempts, successAt, checkpoints := script, [], at, 0;
      if saved.Some? && Restorable(saved.value) {
        persistedTime, initialized := saved, true;
        baseEpochSeconds, baseMilliseconds, synced := saved.value, at, (saved.value, at);
      } else {
        persistedTime, initialized := None, false;
        baseEpochSeconds, baseMilliseconds, synced := 0, 0, (0, 0);
      }
    }
  }

  class DiagnosticStore {
    const boot: int
    var lastError: Option<LastError>
    var dirty: bool
    var persisted: bool
    var failed: bool
    var attempt: nat
    var success: nat
    /** Storage: what it holds, and what its next writes will do. */
    var stored: Option<LastError>
    var outcomes: seq<bool>

    /** History in true time, for the proofs only. */
    ghost var attempts: seq<Attempt>
    ghost var successAt: int

    ghost function State(): Diagnostics
      reads this
    {
      Diagnostics(boot, lastError, dirty, persisted, failed, attempt, success, stored, outcomes, attempts, successAt)
    }

    method WriteError() returns (ok: bool)
      modifies this`stored, this`outcomes
      ensures ok == Stores(old(outcomes)) && outcomes == Rest(old(outcomes))
      ensures stored == if ok then lastError else old(stored)
    {
      ok := Stores(outcomes);
      outcomes := Rest(outcomes);
      if ok { stored := lastError; }
    }

    /** `serviceDiagnosticPersistence`. */
    method ServiceDiagnosticPersistence(at: int)
      modifies this
      ensures State() == ServiceDiagnostics(old(State()), at)
    {
      if !dirty || lastError.None? { return; }
      var now := Millis(at, boot);
      var due;
      if failed {
        due := Elapsed(now, attempt) >= HOUR;
      } else {
        due := !persisted || Elapsed(now, success) >= HOUR;
      }
      if !due { return; }
      attempts := attempts + [Attempt(at, !failed && !persisted)];
      attempt := now;
      var ok := WriteError();
      if ok {
        dirty, persisted, failed := false, true, false;
        success, successAt := now, at;
      } else {
        failed := true;
      }
    }

    /** `recordLastError`. */
    method RecordLastError(cause: Cause, epoch: int, at: int)
      modifies this
      ensures State() == RecordError(old(State()), cause, epoch, at)
    {
      if lastError.Some? && lastError.value.cause == cause && lastError.value.active { return; }
      lastError := Some(LastError(cause, NextSequence(lastError), true,
        if epoch < LATEST_SYNC then epoch else LATEST_SYNC));
      dirty := true;
      ServiceDiagnosticPersistence(at);
    }

    /** `resolveLastErrorForPin`. */
    method ResolveLastErrorForPin(pin: int, at: int)
      modifies this
      ensures State() == ResolveAttach(old(State()), pin, at)
    {
      if lastError.None? || lastError.value.cause != AttachFailure(pin) || !lastError.value.active { return; }
      lastError := Some(lastError.value.(sequence := NextSequence(lastError), active := false));
      dirty := true;
      ServiceDiagnosticPersistence(at);
    }

    constructor (error: Option<LastError>, at: int, script: seq<bool>)
      ensures State() == BootDiagnostics(error, at, script)
    {
      boot := at;
      var usable := error.Some? && 1 <= error.value.sequence <= 0xffff_ffff && 0 <= error.value.at <= LATEST_SYNC;
      lastError := if usable then error else None;
      dirty, persisted, failed := false, false, false;
      attempt, success := Millis(at, at), Millis(at, at);
      stored, outcomes, attempts, successAt := error, script, [], at;
    }
  }
}
