/** Time on the device: the wrapping millisecond counter, the epoch clock with its wear-limited
    checkpoints, and the wear-limited storage of diagnostics. */
module DeviceTime {
  import opened Options

  const MODULUS := 0x1_0000_0000
  const HOUR := 3600000
  const EARLIEST_RESTORED := 1735689600
  const LATEST_SYNC := 2147483647

  /** `toUint32`. */
  function Wrap(x: int): nat { x % MODULUS }

  /** `uint32Elapsed`. */
  function Elapsed(now: nat, previous: nat): nat { Wrap(now - previous) }

  /** `firmwareMillis`: the counter at clock time `at`, starting at 1 on boot and rolling over. */
  function Millis(at: int, boot: int): nat { Wrap(at - boot + 1) }

  /** Differences of counter values are true differences modulo the rollover: never more, and equal for
      distances below 2^32 ms. */
  lemma ElapsedIsTrue(at: int, from: int, boot: int)
    requires from <= at
    ensures Elapsed(Millis(at, boot), Millis(from, boot)) == Wrap(at - from) <= at - from
    ensures at - from < MODULUS ==> Elapsed(Millis(at, boot), Millis(from, boot)) == at - from
  {
    var x, y := at - boot + 1, from - boot + 1;
    assert x == MODULUS * (x / MODULUS) + Wrap(x) && y == MODULUS * (y / MODULUS) + Wrap(y);
    SameResidue(Wrap(x) - Wrap(y), x - y, x / MODULUS - y / MODULUS);
    BelowModulus(at - from);
  }

  lemma SameResidue(a: int, b: int, k: int)
    requires b == a + MODULUS * k
    ensures Wrap(a) == Wrap(b)
  {
    var q := a / MODULUS;
    assert b == MODULUS * (q + k) + Wrap(a);
  }

  lemma BelowModulus(x: int)
    requires x >= 0
    ensures Wrap(x) <= x && (x < MODULUS ==> Wrap(x) == x)
  {
  }

  // ----- Wear -----

  /** A write attempt at a true time; `urgent` ones were made at once rather than on schedule. */
  datatype Attempt = Attempt(at: int, urgent: bool)

  function LastAttempt(attempts: seq<Attempt>, boot: int): int {
    if attempts == [] then boot else attempts[|attempts| - 1].at
  }

  predicate NoneUrgent(attempts: seq<Attempt>) { forall i :: 0 <= i < |attempts| ==> !attempts[i].urgent }

  /** Every attempt but at most one comes at least an hour after the one before it, or after boot. */
  predicate WearLimited(attempts: seq<Attempt>, boot: int) {
    && (forall i :: 0 <= i < |attempts| ==> boot <= LastAttempt(attempts[..i], boot) <= attempts[i].at)
    && (forall i :: 0 <= i < |attempts| && !attempts[i].urgent ==>
          attempts[i].at - LastAttempt(attempts[..i], boot) >= HOUR)
    && (forall i, j :: 0 <= i < j < |attempts| ==> !(attempts[i].urgent && attempts[j].urgent))
  }

  lemma OneMoreAttempt(attempts: seq<Attempt>, boot: int, a: Attempt)
    requires WearLimited(attempts, boot) && boot <= LastAttempt(attempts, boot) <= a.at
    requires if a.urgent then NoneUrgent(attempts) else a.at - LastAttempt(attempts, boot) >= HOUR
    ensures WearLimited(attempts + [a], boot)
  {
    var more := attempts + [a];
    forall i | 0 <= i < |more| ensures LastAttempt(more[..i], boot) == LastAttempt(attempts[..i], boot) {
      assert more[..i] == attempts[..i];
    }
    assert attempts[..|attempts|] == attempts;
  }

  // ----- The epoch clock and its checkpoints -----

  /** The last four fields are history: every attempt so far, the true time of the last success, the last
      synchronisation, and how many checkpoints were taken since. */
  datatype Timekeeper = Timekeeper(
    boot: int,
    initialized: bool,
    baseEpoch: int,
    baseAt: int,
    pending: bool,
    immediate: bool,
    committed: bool,
    failed: bool,
    attempt: nat,
    success: nat,
    saved: Option<int>,
    outcomes: seq<bool>,
    attempts: seq<Attempt>,
    successAt: int,
    synced: (int, int),
    checkpoints: nat)

  /** `currentEpochSeconds`. */
  function EpochAt(t: Timekeeper, at: int): int {
    if !t.initialized then 0 else t.baseEpoch + (at - t.baseAt) / 1000
  }

  /** `currentMinuteOfDay`. */
  function MinuteAt(t: Timekeeper, at: int): (minute: int)
    ensures 0 <= minute <= 1439
  {
    (EpochAt(t, at) / 60) % 1440
  }

  predicate Restorable(epoch: int) { EARLIEST_RESTORED <= epoch <= LATEST_SYNC }

  /** What the next storage write does; unscripted writes succeed. */
  function Stores(outcomes: seq<bool>): bool { outcomes == [] || outcomes[0] }
  function Rest(outcomes: seq<bool>): seq<bool> { if outcomes == [] then [] else outcomes[1..] }

  predicate Urgent(t: Timekeeper) { !t.failed && t.immediate && !t.committed }

  predicate CheckpointDue(t: Timekeeper, now: nat) {
    if t.failed then Elapsed(now, t.attempt) >= HOUR
    else (t.immediate && !t.committed) || Elapsed(now, t.success) >= HOUR
  }

  function Tried(t: Timekeeper, now: nat, at: int): Timekeeper {
    t.(attempt := now, failed := true, attempts := t.attempts + [Attempt(at, Urgent(t))])
  }

  function Committed(t: Timekeeper, now: nat, at: int, epoch: int): Timekeeper {
    Tried(t, now, at).(saved := Some(epoch), baseEpoch := epoch, baseAt := at, pending := false, immediate := false,
                       committed := t.committed || t.immediate, failed := false, success := now, successAt := at,
                       checkpoints := t.checkpoints + 1)
  }

  /** One attempt to save the present time; it fails on an implausible time or a failing write. */
  function TryCheckpoint(t: Timekeeper, at: int): Timekeeper { TryToSave(t, Millis(at, t.boot), at, EpochAt(t, at)) }

  function TryToSave(t: Timekeeper, now: nat, at: int, epoch: int): Timekeeper {
    if !Restorable(epoch) then Tried(t, now, at)
    else
      var tried := if Stores(t.outcomes) then Committed(t, now, at, epoch) else Tried(t, now, at);
      tried.(outcomes := Rest(t.outcomes))
  }

  /** `serviceTimeCheckpoint`. */
  function ServiceCheckpoint(t: Timekeeper, at: int): Timekeeper {
    if !t.initialized then t
    else
      var now := Millis(at, t.boot);
      var p := t.(pending := t.pending || Elapsed(now, t.success) >= HOUR);
      if p.pending && CheckpointDue(p, now) then TryCheckpoint(p, at) else p
  }

  /** `queueTimeCheckpoint(true)`, its only use. */
  function QueueCheckpoint(t: Timekeeper, at: int): Timekeeper {
    var p := t.(pending := true);
    ServiceCheckpoint(if !p.committed && !p.immediate then p.(immediate := true, failed := false) else p, at)
  }

  /** The `sync_time` command. */
  function SyncTime(t: Timekeeper, epoch: int, at: int): Timekeeper {
    QueueCheckpoint(
      t.(initialized := true, baseEpoch := epoch, baseAt := at, synced := (epoch, at), checkpoints := 0), at)
  }

  /** The clock after boot, resumed from the last saved time if that is plausible. */
  function BootClock(saved: Option<int>, boot: int, outcomes: seq<bool>): Timekeeper {
    var restored := if saved.Some? && Restorable(saved.value) then saved else None;
    Timekeeper(boot, restored.Some?, if restored.Some? then restored.value else 0, if restored.Some? then boot else 0,
               false, false, false, false, Millis(boot, boot), Millis(boot, boot), restored, outcomes,
               [], boot, if restored.Some? then (restored.value, boot) else (0, 0), 0)
  }

  /** Ideal milliseconds since the epoch, from the last synchronisation. */
  function IdealAt(t: Timekeeper, at: int): int { 1000 * t.synced.0 + (at - t.synced.1) }

  /** The counters stand for the true times of the last attempt and the last success. */
  predicate CountersOk(t: Timekeeper) {
    && t.attempt == Millis(LastAttempt(t.attempts, t.boot), t.boot)
    && t.success == Millis(t.successAt, t.boot)
  }

  /** Attempts are spaced, and only a fresh time not yet committed may still be urgent. */
  predicate SpacingOk(t: Timekeeper, now: int) {
    && t.boot <= t.successAt <= LastAttempt(t.attempts, t.boot) <= now
    && WearLimited(t.attempts, t.boot)
    && (t.immediate ==> !t.committed)
    && (!t.failed && !t.immediate ==> t.successAt == LastAttempt(t.attempts, t.boot))
    && (NoneUrgent(t.attempts) || t.committed || (t.immediate && t.failed))
  }

  /** The clock has lost less than a second per checkpoint. */
  predicate DriftOk(t: Timekeeper, now: int) {
    t.initialized ==>
      && t.boot <= t.synced.1 <= t.baseAt <= now
      && 0 <= IdealAt(t, t.baseAt) - 1000 * t.baseEpoch <= 999 * t.checkpoints
  }

  predicate ValidClock(t: Timekeeper, now: int) { CountersOk(t) && SpacingOk(t, now) && DriftOk(t, now) }

  lemma DueIsSpaced(t: Timekeeper, at: int)
    requires CountersOk(t) && SpacingOk(t, at) && CheckpointDue(t, Millis(at, t.boot))
    ensures if Urgent(t) then NoneUrgent(t.attempts) else at - LastAttempt(t.attempts, t.boot) >= HOUR
  {
    ElapsedIsTrue(at, LastAttempt(t.attempts, t.boot), t.boot);
    ElapsedIsTrue(at, t.successAt, t.boot);
  }

  lemma TriedKeepsSpacing(t: Timekeeper, now: nat, at: int)
    requires SpacingOk(t, at)
    requires if Urgent(t) then NoneUrgent(t.attempts) else at - LastAttempt(t.attempts, t.boot) >= HOUR
    ensures SpacingOk(Tried(t, now, at), at) && LastAttempt(Tried(t, now, at).attempts, t.boot) == at
    ensures NoneUrgent(Tried(t, now, at).attempts) || t.committed || t.immediate
  {
    var a := Attempt(at, Urgent(t));
    OneMoreAttempt(t.attempts, t.boot, a);
    StillNoneUrgent(t.attempts, a);
  }

  lemma StillNoneUrgent(attempts: seq<Attempt>, a: Attempt)
    ensures NoneUrgent(attempts) && !a.urgent ==> NoneUrgent(attempts + [a])
    ensures LastAttempt(attempts + [a], 0) == a.at
  {
  }

  lemma CommittedKeepsSpacing(t: Timekeeper, now: nat, at: int, epoch: int)
    requires SpacingOk(t, at)
    requires if Urgent(t) then NoneUrgent(t.attempts) else at - LastAttempt(t.attempts, t.boot) >= HOUR
    ensures SpacingOk(Committed(t, now, at, epoch), at)
  {
    TriedKeepsSpacing(t, now, at);
  }

  lemma TriedKeepsCounters(t: Timekeeper, at: int, epoch: int)
    requires CountersOk(t)
    ensures CountersOk(Tried(t, Millis(at, t.boot), at)) && CountersOk(Committed(t, Millis(at, t.boot), at, epoch))
  {
  }

  lemma RoundingLoss(ideal: int, base: int, elapsed: int, n: nat)
    requires 0 <= ideal - 1000 * base <= 999 * n && elapsed >= 0
    ensures 0 <= ideal + elapsed - 1000 * (base + elapsed / 1000) <= 999 * (n + 1)
  {
    assert elapsed == 1000 * (elapsed / 1000) + elapsed % 1000;
  }

  lemma CommittedKeepsDrift(t: Timekeeper, now: nat, at: int)
    requires DriftOk(t, at) && t.initialized
    ensures DriftOk(Tried(t, now, at), at) && DriftOk(Committed(t, now, at, EpochAt(t, at)), at)
  {
    RoundingLoss(IdealAt(t, t.baseAt), t.baseEpoch, at - t.baseAt, t.checkpoints);
  }

  lemma TriedIsValid(t: Timekeeper, at: int)
    requires ValidClock(t, at) && t.initialized && CheckpointDue(t, Millis(at, t.boot))
    ensures ValidClock(Tried(t, Millis(at, t.boot), at), at)
    ensures ValidClock(Committed(t, Millis(at, t.boot), at, EpochAt(t, at)), at)
  {
    var now := Millis(at, t.boot);
    DueIsSpaced(t, at);
    TriedKeepsSpacing(t, now, at);
    CommittedKeepsSpacing(t, now, at, EpochAt(t, at));
    TriedKeepsCounters(t, at, EpochAt(t, at));
    CommittedKeepsDrift(t, now, at);
  }

  lemma OutcomesAreFree(t: Timekeeper, at: int, outcomes: seq<bool>)
    requires ValidClock(t, at)
    ensures ValidClock(t.(outcomes := outcomes), at)
    ensures EpochAt(t.(outcomes := outcomes), at) == EpochAt(t, at)
  {
  }

  lemma EpochIsKept(t: Timekeeper, now: nat, at: int)
    ensures EpochAt(Tried(t, now, at), at) == EpochAt(t, at)
    ensures t.initialized ==> EpochAt(Committed(t, now, at, EpochAt(t, at)), at) == EpochAt(t, at)
  {
  }

  lemma TryKeepsClock(t: Timekeeper, at: int)
    requires ValidClock(t, at) && t.initialized && CheckpointDue(t, Millis(at, t.boot))
    ensures ValidClock(TryCheckpoint(t, at), at)
    ensures EpochAt(TryCheckpoint(t, at), at) == EpochAt(t, at) && TryCheckpoint(t, at).synced == t.synced
    ensures TryCheckpoint(t, at).initialized && TryCheckpoint(t, at).boot == t.boot
  {
    var now := Millis(at, t.boot);
    var tried, committed := Tried(t, now, at), Committed(t, now, at, EpochAt(t, at));
    TriedIsValid(t, at);
    EpochIsKept(t, now, at);
    OutcomesAreFree(tried, at, Rest(t.outcomes));
    OutcomesAreFree(committed, at, Rest(t.outcomes));
    assert TryCheckpoint(t, at) == tried || TryCheckpoint(t, at) == tried.(outcomes := Rest(t.outcomes))
        || TryCheckpoint(t, at) == committed.(outcomes := Rest(t.outcomes));
  }

  lemma PendingIsFree(t: Timekeeper, at: int, pending: bool)
    requires ValidClock(t, at)
    ensures ValidClock(t.(pending := pending), at)
    ensures EpochAt(t.(pending := pending), at) == EpochAt(t, at)
  {
  }

  lemma ServiceKeepsClock(t: Timekeeper, at: int)
    requires ValidClock(t, at)
    ensures ValidClock(ServiceCheckpoint(t, at), at)
    ensures EpochAt(ServiceCheckpoint(t, at), at) == EpochAt(t, at)
    ensures ServiceCheckpoint(t, at).synced == t.synced && ServiceCheckpoint(t, at).initialized == t.initialized
    ensures ServiceCheckpoint(t, at).boot == t.boot
  {
    if t.initialized {
      var now := Millis(at, t.boot);
      var p := t.(pending := t.pending || Elapsed(now, t.success) >= HOUR);
      PendingIsFree(t, at, p.pending);
      if p.pending && CheckpointDue(p, now) { TryKeepsClock(p, at); }
    }
  }

  /** Synchronising keeps the wear limit, however often and whenever it happens. */
  lemma SyncKeepsClock(t: Timekeeper, epoch: int, at: int)
    requires ValidClock(t, at)
    ensures ValidClock(SyncTime(t, epoch, at), at)
    ensures EpochAt(SyncTime(t, epoch, at), at) == epoch
    ensures SyncTime(t, epoch, at).boot == t.boot && SyncTime(t, epoch, at).initialized
  {
    var s := t.(initialized := true, baseEpoch := epoch, baseAt := at, synced := (epoch, at), checkpoints := 0);
    var p := s.(pending := true);
    var q := if !p.committed && !p.immediate then p.(immediate := true, failed := false) else p;
    ServiceKeepsClock(q, at);
  }

  lemma BootIsValidClock(saved: Option<int>, boot: int, outcomes: seq<bool>)
    ensures ValidClock(BootClock(saved, boot, outcomes), boot)
  {
  }

  /** The clock lags the ideal one by at most one second per checkpoint since the last synchronisation,
      and never leads it. */
  lemma DriftIsBounded(t: Timekeeper, now: int, at: int)
    requires ValidClock(t, now) && t.initialized && now <= at
    ensures IdealAt(t, at) / 1000 - t.checkpoints <= EpochAt(t, at) <= IdealAt(t, at) / 1000
  {
    var ideal, q := IdealAt(t, at), (at - t.baseAt) / 1000;
    assert at - t.baseAt == 1000 * q + (at - t.baseAt) % 1000;
    assert ideal == 1000 * (ideal / 1000) + ideal % 1000;
  }

  /** Between synchronisations the clock never goes back. */
  lemma ClockNeverGoesBack(t: Timekeeper, before: int, at: int)
    requires ValidClock(t, before) && before <= at
    ensures EpochAt(t, before) <= EpochAt(ServiceCheckpoint(t, at), at) || !t.initialized
    ensures ServiceCheckpoint(t, at).initialized == t.initialized
  {
    ServiceKeepsClock(t, at);
  }

  // ----- Diagnostics -----

  datatype Cause = AttachFailure(pin: int) | RequestTooLarge | InvalidDiscovery | InvalidCommand

  datatype LastError = LastError(cause: Cause, sequence: nat, active: bool, at: int)

  /** The last two fields are history, as for the clock. */
  datatype Diagnostics = Diagnostics(
    boot: int,
    error: Option<LastError>,
    dirty: bool,
    written: bool,
    failed: bool,
    attempt: nat,
    success: nat,
    stored: Option<LastError>,
    outcomes: seq<bool>,
    attempts: seq<Attempt>,
    successAt: int)

  predicate DiagnosticDue(d: Diagnostics, now: nat) {
    if d.failed then Elapsed(now, d.attempt) >= HOUR
    else !d.written || Elapsed(now, d.success) >= HOUR
  }

  /** `serviceDiagnosticPersistence`. */
  function ServiceDiagnostics(d: Diagnostics, at: int): Diagnostics {
    var now := Millis(at, d.boot);
    if !d.dirty || d.error.None? || !DiagnosticDue(d, now) then d
    else
      var tried := d.(attempt := now, attempts := d.attempts + [Attempt(at, !d.failed && !d.written)],
                      outcomes := Rest(d.outcomes));
      if !Stores(d.outcomes) then tried.(failed := true)
      else tried.(stored := d.error, dirty := false, written := true, failed := false, success := now, successAt := at)
  }

  function NextSequence(error: Option<LastError>): nat {
    if error.None? then 1 else if error.value.sequence == 0xffff_ffff then 1 else error.value.sequence + 1
  }

  function Transition(d: Diagnostics, error: LastError, at: int): Diagnostics {
    ServiceDiagnostics(d.(error := Some(error), dirty := true), at)
  }

  /** `recordLastError`: repeats of the active error are not new. */
  function RecordError(d: Diagnostics, cause: Cause, epoch: int, at: int): Diagnostics {
    if d.error.Some? && d.error.value.cause == cause && d.error.value.active then d
    else
      Transition(d, LastError(cause, NextSequence(d.error), true, if epoch < LATEST_SYNC then epoch else LATEST_SYNC),
        at)
  }

  /** `resolveLastErrorForPin`. */
  function ResolveAttach(d: Diagnostics, pin: int, at: int): Diagnostics {
    if d.error.None? || d.error.value.cause != AttachFailure(pin) || !d.error.value.active then d
    else Transition(d, d.error.value.(sequence := NextSequence(d.error), active := false), at)
  }

  function BootDiagnostics(stored: Option<LastError>, boot: int, outcomes: seq<bool>): Diagnostics {
    var usable := stored.Some? && 1 <= stored.value.sequence <= 0xffff_ffff && 0 <= stored.value.at <= LATEST_SYNC;
    Diagnostics(boot, if usable then stored else None, false, false, false, Millis(boot, boot), Millis(boot, boot),
                stored, outcomes, [], boot)
  }

  predicate ValidDiagnostics(d: Diagnostics, now: int) {
    && d.boot <= d.successAt <= LastAttempt(d.attempts, d.boot) <= now
    && d.attempt == Millis(LastAttempt(d.attempts, d.boot), d.boot)
    && d.success == Millis(d.successAt, d.boot)
    && WearLimited(d.attempts, d.boot)
    && (!d.failed ==> d.successAt == LastAttempt(d.attempts, d.boot))
    && (NoneUrgent(d.attempts) || d.written || d.failed)
    && (d.error.Some? ==> 1 <= d.error.value.sequence <= 0xffff_ffff)
    && (d.error.Some? && !d.dirty ==> d.stored == d.error)
  }

  /** Servicing keeps the wear limit, and what is not dirty is what is stored. */
  lemma ServiceKeepsDiagnostics(d: Diagnostics, at: int)
    requires ValidDiagnostics(d, at)
    ensures ValidDiagnostics(ServiceDiagnostics(d, at), at) && ServiceDiagnostics(d, at).boot == d.boot
  {
    if d.dirty && d.error.Some? && DiagnosticDue(d, Millis(at, d.boot)) {
      ElapsedIsTrue(at, LastAttempt(d.attempts, d.boot), d.boot);
      ElapsedIsTrue(at, d.successAt, d.boot);
      OneMoreAttempt(d.attempts, d.boot, Attempt(at, !d.failed && !d.written));
    }
  }

  lemma RecordKeepsDiagnostics(d: Diagnostics, cause: Cause, epoch: int, at: int)
    requires ValidDiagnostics(d, at)
    ensures ValidDiagnostics(RecordError(d, cause, epoch, at), at) && RecordError(d, cause, epoch, at).boot == d.boot
  {
    var error := LastError(cause, NextSequence(d.error), true, if epoch < LATEST_SYNC then epoch else LATEST_SYNC);
    ServiceKeepsDiagnostics(d.(error := Some(error), dirty := true), at);
  }

  lemma ResolveKeepsDiagnostics(d: Diagnostics, pin: int, at: int)
    requires ValidDiagnostics(d, at)
    ensures ValidDiagnostics(ResolveAttach(d, pin, at), at) && ResolveAttach(d, pin, at).boot == d.boot
  {
    if d.error.Some? {
      var error := d.error.value.(sequence := NextSequence(d.error), active := false);
      ServiceKeepsDiagnostics(d.(error := Some(error), dirty := true), at);
    }
  }

  lemma BootIsValidDiagnostics(stored: Option<LastError>, boot: int, outcomes: seq<bool>)
    ensures ValidDiagnostics(BootDiagnostics(stored, boot, outcomes), boot)
  {
  }
}
