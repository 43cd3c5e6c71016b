/** The input backend's lifecycle: opening, retrying with backoff, and the absorbing fail-stop. */
module BackendLifecycle {
  import opened Common

  datatype BackendState = WaitingForInputAccess | Recovering | Ready

  datatype InputError =
    | KeyboardNotFound | KeyboardAccessDenied | UinputAccessDenied
    | SessionInactive | SeatMismatch | IdentityUnverified
    | DeviceLost | HandoffBusy | WorkerDisconnected
    | IoError(noSuchDevice: bool)
    | ShutdownUnresponsive(failure: Failure)
    | OtherError(code: nat)

  /** `LatchedWriterShutdownFailure` */
  datatype Failure = Failure(timeoutMs: nat, phase: string, trigger: string)

  datatype Shutdown = Stopped | Unresponsive(timeoutMs: nat)

  /** What the opener answers; a backend that is not ready is shut down at once. */
  datatype Opening = Opened(ready: bool, shutdown: Shutdown) | NotOpened(error: InputError)

  datatype Reopen = Returned | Nothing | Failed(error: InputError)

  /** What an attempt does to the world outside: call the opener, shut a backend down, hand one out. */
  datatype Effect =
    | OpenerFailed(error: InputError)
    | BackendOpened(ready: bool)
    | BackendShutDown(outcome: Shutdown)
    | BackendHandedOut

  datatype Lifecycle = Lifecycle(state: BackendState, attempt: nat, deadline: Option<nat>, failStop: Option<Failure>)

  /** `is_recoverable_input_error` */
  predicate Recoverable(e: InputError) {
    match e
    case KeyboardNotFound | KeyboardAccessDenied | UinputAccessDenied | SessionInactive | SeatMismatch
       | IdentityUnverified | DeviceLost | HandoffBusy | WorkerDisconnected => true
    case IoError(noSuchDevice) => noSuchDevice
    case _ => false
  }

  /** `runtime_failure_recovery_state` */
  function RuntimeRecovery(e: InputError): Option<BackendState> {
    match e
    case KeyboardNotFound | KeyboardAccessDenied | UinputAccessDenied | SessionInactive | SeatMismatch
       | IdentityUnverified => Some(WaitingForInputAccess)
    case DeviceLost | WorkerDisconnected => Some(Recovering)
    case IoError(noSuchDevice) => if noSuchDevice then Some(Recovering) else None
    case _ => None
  }

  /** `retry_delay_for_attempt`, in milliseconds. */
  function RetryDelay(attempt: nat): (ms: nat)
    ensures 500 <= ms <= 3000
  {
    match attempt
    case 0 => 500
    case 1 => 1000
    case 2 => 2000
    case _ => 3000
  }

  function New(now: nat): Lifecycle {
    Lifecycle(WaitingForInputAccess, 0, Some(now), None)
  }

  function ToReady(l: Lifecycle): Lifecycle {
    l.(state := Ready, attempt := 0, deadline := None)
  }

  function ScheduleRetry(l: Lifecycle, now: nat): Lifecycle {
    l.(deadline := Some(now + RetryDelay(l.attempt)), attempt := l.attempt + 1)
  }

  function Latch(l: Lifecycle, f: Failure): Lifecycle {
    l.(deadline := None, failStop := Some(f))
  }

  const READINESS_TRIGGER := "input backend readiness incomplete"

  /** `try_reopen` with the effects it performs; the opener's answer is only used when the opener is called. */
  function Reopened(l: Lifecycle, now: nat, opening: Opening): (Lifecycle, Reopen, seq<Effect>) {
    if l.failStop.Some? then (l, Failed(ShutdownUnresponsive(l.failStop.value)), [])
    else match opening
      case Opened(ready, shutdown) =>
        if ready then (ToReady(l), Returned, [BackendOpened(true), BackendHandedOut])
        else
          var effects := [BackendOpened(false), BackendShutDown(shutdown)];
          if shutdown.Stopped? then (ScheduleRetry(l, now), Nothing, effects)
          else
            var f := Failure(shutdown.timeoutMs, "backend-readiness", READINESS_TRIGGER);
            (Latch(l, f), Failed(ShutdownUnresponsive(f)), effects)
      case NotOpened(error) =>
        var effects := [OpenerFailed(error)];
        if error.ShutdownUnresponsive? then (Latch(l, error.failure), Failed(error), effects)
        else if Recoverable(error) then (ScheduleRetry(l, now), Nothing, effects)
        else (l, Failed(error), effects)
  }

  predicate RetryDue(l: Lifecycle, now: nat) {
    l.failStop.None? && l.deadline.Some? && now >= l.deadline.value
  }

  function Recovered(l: Lifecycle, now: nat, opening: Opening): (Lifecycle, Reopen, seq<Effect>) {
    if l.failStop.Some? then (l, Failed(ShutdownUnresponsive(l.failStop.value)), [])
    else if l.state == Ready || !RetryDue(l, now) then (l, Nothing, [])
    else Reopened(l, now, opening)
  }

  function RecordStartupFailure(l: Lifecycle, e: InputError, now: nat): Lifecycle {
    if l.failStop.None? && Recoverable(e) then ScheduleRetry(l.(state := WaitingForInputAccess), now) else l
  }

  function RecordRuntimeFailure(l: Lifecycle, e: InputError, now: nat): (Lifecycle, bool) {
    var next := RuntimeRecovery(e);
    if l.failStop.None? && next.Some? then (ScheduleRetry(l.(state := next.value), now), true) else (l, false)
  }

  function MarkReady(l: Lifecycle, ready: bool): Lifecycle {
    if l.failStop.None? && ready then ToReady(l) else l
  }

  // ----- runs -----

  datatype Op =
    | Initialize(now: nat, opening: Opening)
    | Recover(now: nat, opening: Opening)
    | StartupFailure(error: InputError, now: nat)
    | RuntimeFailure(error: InputError, now: nat)
    | BackendReady(ready: bool)

  /** The lifecycle with its history: every effect performed, and the retry delays set since the last readiness. */
  datatype History = History(life: Lifecycle, log: seq<Effect>, delays: seq<nat>)

  function Fresh(now: nat): History {
    History(New(now), [], [])
  }

  /** The history after an operation at `now` left the lifecycle `l`; a new attempt adds the delay actually set. */
  function After(h: History, l: Lifecycle, now: nat, effects: seq<Effect>): History {
    History(l, h.log + effects,
            if l.attempt == 0 then []
            else if l.attempt == h.life.attempt then h.delays
            else h.delays + [if l.deadline.Some? && l.deadline.value >= now then l.deadline.value - now else 0])
  }

  function Step(h: History, op: Op): History {
    match op
    case Initialize(now, opening) =>
      var (l, _, effects) := Reopened(h.life, now, opening);
      After(h, l, now, effects)
    case Recover(now, opening) =>
      var (l, _, effects) := Recovered(h.life, now, opening);
      After(h, l, now, effects)
    case StartupFailure(e, now) => After(h, RecordStartupFailure(h.life, e, now), now, [])
    case RuntimeFailure(e, now) => After(h, RecordRuntimeFailure(h.life, e, now).0, now, [])
    case BackendReady(ready) => After(h, MarkReady(h.life, ready), 0, [])
  }

  function Run(h: History, ops: seq<Op>): History
    decreases |ops|
  {
    if ops == [] then h else Run(Step(h, ops[0]), ops[1..])
  }

  /** The failure that an effect leaves behind when a writer did not stop. */
  function FatalFailure(e: Effect): Option<Failure> {
    match e
    case OpenerFailed(ShutdownUnresponsive(failure)) => Some(failure)
    case BackendShutDown(Unresponsive(timeoutMs)) => Some(Failure(timeoutMs, "backend-readiness", READINESS_TRIGGER))
    case _ => None
  }

  /** What becomes of the backend that was opened. */
  predicate Disposes(ready: bool, e: Effect) {
    if ready then e.BackendHandedOut? else e.BackendShutDown?
  }

  /** An opened backend is at once handed out when it is ready and shut down otherwise, and nothing else is. */
  predicate Paired(log: seq<Effect>) {
    && (forall i :: 0 <= i < |log| && log[i].BackendOpened? ==> i + 1 < |log| && Disposes(log[i].ready, log[i + 1]))
    && (forall i :: 0 <= i < |log| && (log[i].BackendHandedOut? || log[i].BackendShutDown?) ==>
          0 < i && log[i - 1].BackendOpened?)
  }

  /** The writer is fail-stopped exactly by the last effect, when that left a failure; no earlier effect did. */
  predicate FatalLast(log: seq<Effect>, failStop: Option<Failure>) {
    && failStop == (if log == [] then None else FatalFailure(log[|log| - 1]))
    && (forall i :: 0 <= i < |log| - 1 ==> FatalFailure(log[i]).None?)
  }

  predicate Sane(h: History) {
    && (h.life.failStop.Some? ==> h.life.deadline.None?)
    && (h.life.failStop.None? && h.life.state != Ready ==> h.life.deadline.Some?)
    && Paired(h.log)
    && FatalLast(h.log, h.life.failStop)
    && |h.delays| == h.life.attempt
    && (forall i :: 0 <= i < |h.delays| ==> h.delays[i] == RetryDelay(i))
  }

  /** A keyboard that worked is gone, as opposed to one that may not be used. */
  predicate LostDevice(e: InputError) {
    e.DeviceLost? || e.WorkerDisconnected? || (e.IoError? && e.noSuchDevice)
  }

  /** The two error tables agree except on a busy handoff, which is recoverable at opening only. */
  lemma ErrorTablesAgree(e: InputError)
    ensures Recoverable(e) <==> RuntimeRecovery(e).Some? || e.HandoffBusy?
    ensures RuntimeRecovery(e) != Some(Ready)
    ensures RuntimeRecovery(e) == Some(Recovering) <==> LostDevice(e)
  {
  }

  /** One attempt's effects keep the log paired, and only its last effect can be fatal. */
  lemma AttemptKeepsLog(h: History, now: nat, opening: Opening)
    requires Paired(h.log) && FatalLast(h.log, h.life.failStop)
    ensures var (l, r, effects) := Reopened(h.life, now, opening);
            Paired(h.log + effects) && FatalLast(h.log + effects, l.failStop)
  {
    var (l, r, effects) := Reopened(h.life, now, opening);
    var log := h.log + effects;
    assert forall i :: 0 <= i < |h.log| ==> log[i] == h.log[i];
    assert effects == [] ==> log == h.log;
  }

  lemma SameSuffix(log: seq<Effect>, a: seq<Effect>, b: seq<Effect>)
    ensures log + a == log + b <==> a == b
  {
    assert (log + a)[|log|..] == a && (log + b)[|log|..] == b;
  }

  lemma StepSane(h: History, op: Op)
    requires Sane(h)
    ensures Sane(Step(h, op))
  {
    hide Paired, FatalLast;
    match op
    case Initialize(now, opening) => AttemptKeepsLog(h, now, opening);
    case Recover(now, opening) =>
      AttemptKeepsLog(h, now, opening);
      assert h.log + [] == h.log;
    case StartupFailure(e, now) => assert h.log + [] == h.log;
    case RuntimeFailure(e, now) => assert h.log + [] == h.log;
    case BackendReady(ready) => assert h.log + [] == h.log;
  }

  /** Every run keeps: a retry is scheduled whenever the backend is not ready and not fail-stopped, every opened
      backend is at once handed out or shut down, a fail-stop is exactly a last effect that left a failure, and the
      delays since the last readiness are the backoff sequence. */
  lemma {:induction false} RunSane(h: History, ops: seq<Op>)
    requires Sane(h)
    ensures Sane(Run(h, ops))
    decreases |ops|
  {
    hide Step, Sane;
    if ops != [] {
      StepSane(h, ops[0]);
      RunSane(Step(h, ops[0]), ops[1..]);
    }
  }

  predicate IsOpening(e: Effect) { e.BackendOpened? }

  predicate IsHandOut(e: Effect) { e.BackendHandedOut? }

  predicate IsShutdown(e: Effect) { e.BackendShutDown? }

  function Count(log: seq<Effect>, kind: Effect -> bool): nat {
    if log == [] then 0 else Count(log[..|log| - 1], kind) + if kind(log[|log| - 1]) then 1 else 0
  }

  lemma {:induction false} PairedBalances(log: seq<Effect>)
    requires Paired(log)
    ensures Count(log, IsOpening) ==
            Count(log, IsHandOut) + Count(log, IsShutdown)
    decreases |log|
  {
    if log != [] {
      var rest := log[..|log| - 1];
      if log[|log| - 1].OpenerFailed? {
        PairedBalances(rest);
      } else {
        assert log[|log| - 2] == rest[|rest| - 1];
        PairedBalances(rest[..|rest| - 1]);
      }
    }
  }

  /** Hence in every run the backends opened are those handed out and those shut down. */
  lemma BackendsBalance(now: nat, ops: seq<Op>)
    ensures var log := Run(Fresh(now), ops).log;
            Count(log, IsOpening) == Count(log, IsHandOut) + Count(log, IsShutdown)
  {
    RunSane(Fresh(now), ops);
    PairedBalances(Run(Fresh(now), ops).log);
  }

  /** The backoff never shortens and stays between half a second and three seconds. */
  lemma BackoffGrows(now: nat, ops: seq<Op>, i: nat, j: nat)
    requires i <= j < |Run(Fresh(now), ops).delays|
    ensures var d := Run(Fresh(now), ops).delays; 500 <= d[i] <= d[j] <= 3000
    ensures var d := Run(Fresh(now), ops).delays; d[0] == 500 && (j >= 3 ==> d[1..4] == [1000, 2000, 3000])
  {
    RunSane(Fresh(now), ops);
  }

  /** Fail-stop is absorbing: no later call has any effect, the same error is returned, no retry is scheduled. */
  lemma {:induction false} FailStopAbsorbs(h: History, ops: seq<Op>, now: nat, opening: Opening)
    requires Sane(h) && h.life.failStop.Some?
    ensures var h' := Run(h, ops);
            && h'.life == h.life && h'.log == h.log && h'.life.deadline.None?
            && Reopened(h'.life, now, opening).1 == Failed(ShutdownUnresponsive(h.life.failStop.value))
            && Recovered(h'.life, now, opening).1 == Failed(ShutdownUnresponsive(h.life.failStop.value))
    decreases |ops|
  {
    if ops != [] {
      StepSane(h, ops[0]);
      assert h.log + [] == h.log;
      assert Step(h, ops[0]).life == h.life && Step(h, ops[0]).log == h.log;
      FailStopAbsorbs(Step(h, ops[0]), ops[1..], now, opening);
    }
  }

  /** The lifecycle object, with the log of the effects it performs. */
  class InputBackendLifecycle {
    var state: BackendState
    var attempt: nat
    var deadline: Option<nat>
    var failStop: Option<Failure>
    ghost var log: seq<Effect>
    ghost var delays: seq<nat>

    ghost function Past(): History
      reads this
    {
      History(Lifecycle(state, attempt, deadline, failStop), log, delays)
    }

    ghost predicate Valid()
      reads this
    {
      Sane(Past())
    }

    /** The next attempt is between half a second and three seconds ahead. */
    ghost predicate RetryAhead(now: nat)
      reads this
    {
      failStop.None? && deadline.Some? && now + 500 <= deadline.value <= now + 3000
    }

    constructor (now: nat)
      ensures Valid() && Past() == Fresh(now)
    {
      state, attempt, deadline, failStop := WaitingForInputAccess, 0, Some(now), None;
      log, delays := [], [];
    }

    method TransitionToReady()
      modifies this
      ensures Past() == old(Past()).(life := ToReady(old(Past()).life), delays := [])
    {
      state := Ready;
      attempt := 0;
      deadline := None;
      delays := [];
    }

    method SetRetry(now: nat)
      modifies this
      ensures Past() == old(Past()).(life := ScheduleRetry(old(Past()).life, now), delays := delays)
      ensures delays == old(delays) + [RetryDelay(old(attempt))]
    {
      deadline := Some(now + RetryDelay(attempt));
      delays := delays + [RetryDelay(attempt)];
      attempt := attempt + 1;
    }

    method LatchFailStop(f: Failure) returns (error: InputError)
      modifies this
      ensures Past() == old(Past()).(life := Latch(old(Past()).life, f)) && error == ShutdownUnresponsive(f)
    {
      error := ShutdownUnresponsive(f);
      deadline := None;
      failStop := Some(f);
    }

    /** The opener's `reopen_backend`. */
    method CallOpener(opening: Opening) returns (r: Opening)
      modifies this`log
      ensures r == opening
      ensures log == old(log) + [if r.Opened? then BackendOpened(r.ready) else OpenerFailed(r.error)]
    {
      log := log + [if opening.Opened? then BackendOpened(opening.ready) else OpenerFailed(opening.error)];
      return opening;
    }

    /** `shutdown` of an opened backend. */
    method ShutDownBackend(backend: Opening) returns (outcome: Shutdown)
      requires backend.Opened?
      modifies this`log
      ensures outcome == backend.shutdown && log == old(log) + [BackendShutDown(outcome)]
    {
      outcome := backend.shutdown;
      log := log + [BackendShutDown(outcome)];
    }

    /** `initialize` and the attempt of `try_recover`.  A backend is handed out exactly when the opener's is ready,
        and then the lifecycle is Ready; otherwise a retry is ahead, or the error is final for this call and a
        fail-stop exactly when a writer did not stop.  A fail-stopped lifecycle does nothing at all. */
    method TryReopen(now: nat, opening: Opening) returns (r: Reopen)
      requires Valid()
      modifies this
      ensures Valid() && Past() == Step(old(Past()), Initialize(now, opening))
      ensures old(failStop).Some? ==> Past() == old(Past()) && r == Failed(ShutdownUnresponsive(old(failStop).value))
      ensures r.Returned? <==> log == old(log) + [BackendOpened(true), BackendHandedOut]
      ensures r.Returned? ==> state == Ready && delays == []
      ensures r.Nothing? ==> RetryAhead(now) && state == old(state) && |delays| == |old(delays)| + 1
      ensures r.Failed? ==> state == old(state) && delays == old(delays)
      ensures failStop.Some? <==> r.Failed? && r.error.ShutdownUnresponsive?
      ensures failStop.Some? ==> r.error.failure == failStop.value
    {
      hide Paired, FatalLast;
      StepSane(Past(), Initialize(now, opening));
      assert log + [] == log && |delays| == attempt;
      hide Sane;
      if failStop.Some? {
        return Failed(ShutdownUnresponsive(failStop.value));
      }
      ghost var before := Past();
      r := Attempt(now, opening);
      SameSuffix(before.log, Reopened(before.life, now, opening).2, [BackendOpened(true), BackendHandedOut]);
    }

    /** The opener call of `try_reopen` and what follows it. */
    method Attempt(now: nat, opening: Opening) returns (r: Reopen)
      requires failStop.None?
      modifies this
      ensures Past().life == Reopened(old(Past()).life, now, opening).0
      ensures r == Reopened(old(Past()).life, now, opening).1
      ensures log == old(log) + Reopened(old(Past()).life, now, opening).2
      ensures delays == if r.Returned? then []
                        else if r.Nothing? then old(delays) + [RetryDelay(old(attempt))]
                        else old(delays)
    {
      hide Recoverable;
      var answer := CallOpener(opening);
      match answer {
        case Opened(ready, _) =>
          if ready {
            TransitionToReady();
            log := log + [BackendHandedOut];
            return Returned;
          }
          var outcome := ShutDownBackend(answer);
          match outcome {
            case Stopped =>
              SetRetry(now);
              return Nothing;
            case Unresponsive(timeoutMs) =>
              var error := LatchFailStop(Failure(timeoutMs, "backend-readiness", READINESS_TRIGGER));
              return Failed(error);
          }
        case NotOpened(error) =>
          if error.ShutdownUnresponsive? {
            var latched := LatchFailStop(error.failure);
            return Failed(latched);
          }
          if Recoverable(error) {
            SetRetry(now);
            return Nothing;
          }
          return Failed(error);
      }
    }

    /** `try_recover`: the opener is called exactly when the backend is down and its retry is due. */
    method TryRecover(now: nat, opening: Opening) returns (r: Reopen)
      requires Valid()
      modifies this
      ensures Valid() && Past() == Step(old(Past()), Recover(now, opening))
      ensures log != old(log) <==> old(failStop.None? && state != Ready && deadline.value <= now)
      ensures log == old(log) ==> Past() == old(Past()) && !r.Returned?
      ensures r.Returned? <==> log == old(log) + [BackendOpened(true), BackendHandedOut]
      ensures failStop.Some? <==> r.Failed? && r.error.ShutdownUnresponsive?
    {
      assert log + [] == log;
      if failStop.Some? {
        return Failed(ShutdownUnresponsive(failStop.value));
      }
      if state == Ready || deadline.None? || now < deadline.value {
        return Nothing;
      }
      r := TryReopen(now, opening);
    }

    /** `record_runtime_failure`: a recoverable failure takes the backend down with a retry ahead; any other
        changes nothing. */
    method RecordRuntimeFailure(e: InputError, now: nat) returns (recovering: bool)
      requires Valid()
      modifies this
      ensures Valid() && Past() == Step(old(Past()), RuntimeFailure(e, now))
      ensures recovering <==> old(failStop).None? && Recoverable(e) && !e.HandoffBusy?
      ensures if recovering then RetryAhead(now) && log == old(log) else Past() == old(Past())
      ensures recovering ==> state == if LostDevice(e) then Recovering else WaitingForInputAccess
    {
      ErrorTablesAgree(e);
      StepSane(Past(), RuntimeFailure(e, now));
      assert log + [] == log;
      if failStop.Some? {
        return false;
      }
      var next := RuntimeRecovery(e);
      if next.Some? {
        state := next.value;
        SetRetry(now);
        return true;
      }
      return false;
    }

    /** `record_startup_failure` */
    method RecordStartupFailure(e: InputError, now: nat)
      requires Valid()
      modifies this
      ensures Valid() && Past() == Step(old(Past()), StartupFailure(e, now))
      ensures if old(failStop).None? && Recoverable(e)
              then state == WaitingForInputAccess && RetryAhead(now) && log == old(log)
              else Past() == old(Past())
    {
      StepSane(Past(), StartupFailure(e, now));
      assert log + [] == log;
      if failStop.None? && Recoverable(e) {
        state := WaitingForInputAccess;
        SetRetry(now);
      }
    }

    /** `mark_backend_ready`: readiness ends the retrying, but never a fail-stop. */
    method MarkBackendReady(ready: bool)
      requires Valid()
      modifies this
      ensures Valid() && Past() == Step(old(Past()), BackendReady(ready))
      ensures failStop == old(failStop) && log == old(log)
      ensures if ready && failStop.None? then state == Ready && deadline.None? && delays == []
              else Past() == old(Past())
    {
      StepSane(Past(), BackendReady(ready));
      assert log + [] == log;
      if failStop.None? && ready {
        TransitionToReady();
      }
    }
  }
}
