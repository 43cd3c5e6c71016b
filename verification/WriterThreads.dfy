/**
 The threads that use the protocol: the waiting caller, the worker that publishes a
 deferred correction, and the writer's command loop.

 Each is the source's own sequence of reads and gate-held sections.  `Interfere`
 stands between any two of them and lets the other threads take any number of
 protocol steps.
 */
module WriterThreads {
  import opened Common
  import opened Protocol
  import opened ProtocolProofs

  const SLEEP_QUANTUM: nat := 5

  datatype Received = Got(reply: Reply) | Empty | Closed

  datatype WaitResult = Replied(reply: Reply) | WaitTimedOut(requestId: nat) | WaitDisconnected | WorkerLost

  datatype DispatchResult = Delivered | DeliveredFailure(error: Error) | Undelivered(error: Error) | NoReceiver

  datatype Attempt = Replayed | ReplayFailed(error: Error)

  /** A fast command has no control; a job is a transaction or a deferred correction with its control. */
  datatype Command = Shutdown | Fast(id: nat) | Job(control: nat)

  datatype LoopResult = LoopDone | LoopFailed

  /** `mpsc::Receiver::try_recv` after `taken` messages of the control's reply channel. */
  function TryRecv(w: World, c: nat, taken: nat): Received
    requires c < |w.controls|
  {
    if taken < |w.controls[c].sent| then Got(w.controls[c].sent[taken])
    else if w.controls[c].open then Empty
    else Closed
  }

  /** The control can no longer be changed by the waiter's own sections. */
  predicate Settled(w: World, c: nat)
    requires c < |w.controls|
  {
    w.stop || w.controls[c].state != Pending
  }

  function Rank(w: World, c: nat): nat
    requires c < |w.controls|
  {
    if Settled(w, c) then 0 else if w.failureId != 0 then 1 else 2
  }

  function Remaining(w: World, c: nat): nat
    requires c < |w.controls|
  {
    if w.now < w.controls[c].deadline then w.controls[c].deadline - w.now else 0
  }

  /** What a thread can rely on about its control `c` when the world moves from `w` to `w'`. */
  ghost predicate Seen(w: World, w': World, c: nat)
    requires c < |w.controls|
  {
    && c < |w'.controls| && FailureNamed(w')
    && w.now <= w'.now && (w.stop ==> w'.stop) && (w.failureId != 0 ==> w'.failureId == w.failureId)
    && ControlEvolves(w, w.controls[c], w'.controls[c])
    && ControlInv(w', c)
    && (w'.holder == Some(c) ==> w'.controls[c].open)
  }

  lemma StandingStill(w: World)
    requires Inv(w)
    ensures Evolves(w, w) && forall c: nat :: c < |w.controls| ==> Seen(w, w, c)
  {
    assert forall c: nat :: c < |w.controls| ==> ControlInv(w, c);
  }

  /** A reply taken from the channel is the one that was sent. */
  predicate InHand(received: Option<Reply>, w: World, c: nat)
    requires c < |w.controls|
  {
    received.Some? ==> |w.controls[c].sent| > 0 && w.controls[c].sent[0] == received.value
  }

  /**
   What each answer of the waiter means in the world it returns to.
   A reply is the one that was published, and a success only of a Completed control; a timeout is a TimedOut control
   and names one whose deadline has passed; after a worker-loss error the control can never complete; and a
   disconnect hides a reply only when the writer was stopped.
   */
  ghost predicate Truthful(r: WaitResult, w: World, c: nat)
    requires c < |w.controls|
  {
    var k := w.controls[c];
    match r
    case Replied(reply) => k.sent == [reply] && (reply == Succeeded ==> k.state == Completed)
    case WaitTimedOut(id) => k.state == TimedOut && id == w.failureId != 0 && FailureNamed(w)
    case WorkerLost => w.stop && k.state == Pending && k.sent == []
    case WaitDisconnected => w.stop || (k.state == Pending && k.sent == [] && !k.open)
  }

  /** The calls of a waiter: a turn begins with the observation of the control, with the reply then in hand, and asks
      for another one at once or goes on to a reception without waiting, a look at the input worker's health, and a
      reception that waits or the worker-loss section, with the world in which the gate was taken. */
  datatype WaiterCall =
    | Turn(now: nat, hand: Option<Reply>, again: bool)
    | Peek
    | Look(healthy: bool, hand: Option<Reply>)
    | Wait(ms: nat)
    | Loss(gate: World, stopped: bool)

  function Looks(trace: seq<WaiterCall>): nat {
    if trace == [] then 0 else Looks(trace[..|trace| - 1]) + if trace[|trace| - 1].Look? then 1 else 0
  }

  /** The turns that began at or after the deadline. */
  function LateTurns(trace: seq<WaiterCall>, deadline: nat): nat {
    if trace == [] then 0
    else
      var last := trace[|trace| - 1];
      LateTurns(trace[..|trace| - 1], deadline) + if last.Turn? && last.now >= deadline then 1 else 0
  }

  predicate ErrorInHand(hand: Option<Reply>) {
    hand.Some? && hand.value != Succeeded
  }

  /** May the waiter begin a new turn? */
  predicate TurnOver(trace: seq<WaiterCall>) {
    trace == [] ||
    var last := trace[|trace| - 1];
    last.Wait? || (last.Loss? && !last.stopped) || (last.Turn? && last.again)
  }

  /** May this call directly follow?  There is a reception without waiting unless a reply is in hand; every wait is
      short and follows a healthy look; the worker-loss section follows an unhealthy look without an error reply in
      hand, and stops the writer exactly when nothing blocks the control. */
  predicate Follows(trace: seq<WaiterCall>, e: WaiterCall, healthy: nat -> bool, c: nat) {
    match e
    case Turn(_, _, _) => TurnOver(trace)
    case Peek => trace != [] && Observed(trace[|trace| - 1]) && trace[|trace| - 1].hand.None?
    case Look(ok, _) =>
      && ok == healthy(Looks(trace)) && trace != []
      && (trace[|trace| - 1].Peek? || (Observed(trace[|trace| - 1]) && trace[|trace| - 1].hand.Some?))
    case Wait(ms) => ms <= 5 && trace != [] && trace[|trace| - 1].Look? && trace[|trace| - 1].healthy
    case Loss(gate, stopped) =>
      && trace != [] && trace[|trace| - 1].Look? && !trace[|trace| - 1].healthy && !ErrorInHand(trace[|trace| - 1].hand)
      && c < |gate.controls| && (stopped <==> !CleanupBlocked(gate, c))
  }

  predicate Observed(e: WaiterCall) {
    e.Turn? && !e.again
  }

  predicate Orderly(trace: seq<WaiterCall>, healthy: nat -> bool, c: nat) {
    trace == [] ||
    var before := trace[..|trace| - 1];
    Orderly(before, healthy, c) && Follows(before, trace[|trace| - 1], healthy, c)
  }

  /** The waiter minded the input worker to the end: it returned from an observation or a reception, or from an
      unhealthy look with the error reply in hand, or from the worker-loss section that stopped the writer. */
  predicate Vigilant(trace: seq<WaiterCall>, healthy: nat -> bool, r: WaitResult, c: nat) {
    && Orderly(trace, healthy, c) && trace != []
    && (r.WorkerLost? <==> trace[|trace| - 1].Loss?)
    && match trace[|trace| - 1]
       case Look(ok, hand) => !ok && ErrorInHand(hand) && r == Replied(hand.value)
       case Loss(_, stopped) => stopped
       case Turn(_, _, again) => !again
       case _ => true
  }

  lemma CallMore(trace: seq<WaiterCall>, e: WaiterCall, healthy: nat -> bool, c: nat, deadline: nat)
    requires Orderly(trace, healthy, c) && Follows(trace, e, healthy, c)
    ensures var more := trace + [e];
            && Orderly(more, healthy, c)
            && Looks(more) == Looks(trace) + (if e.Look? then 1 else 0)
            && LateTurns(more, deadline) ==
               LateTurns(trace, deadline) + if e.Turn? && e.now >= deadline then 1 else 0
  {
    hide Follows;
    assert (trace + [e])[..|trace|] == trace;
  }

  lemma NoCalls(healthy: nat -> bool, c: nat, deadline: nat)
    ensures Looks([]) == 0 && LateTurns([], deadline) == 0 && Orderly([], healthy, c)
  {
  }

  /** The worker-loss section stops the writer exactly when nothing blocks the control at the gate. */
  predicate LossSection(before: seq<WaiterCall>, after: seq<WaiterCall>, gate: World, r: Option<WaitResult>, c: nat) {
    && c < |gate.controls|
    && after == before + [Loss(gate, !CleanupBlocked(gate, c))]
    && r == if CleanupBlocked(gate, c) then None else Some(WorkerLost)
  }

  /** `classify_manual_current_word_result` */
  function Classify(requestId: nat, attempt: Attempt): Reply {
    match attempt
    case Replayed => Succeeded
    case ReplayFailed(error) => if error == CancelledRequest(requestId) then SoftCancelled else Failed(error)
  }

  /**
   What a deferred publication may report.  A delivered failure is the real one; a success is never
   reported for a failure and may only turn into a cancellation; and if nothing was delivered, the
   writer is stopped or failed, or the receiver is gone.
   */
  predicate Accounted(r: DispatchResult, outcome: Reply, w: World, c: nat)
    requires c < |w.controls|
  {
    var k := w.controls[c];
    match r
    case Delivered =>
      && k.state == Completed && !outcome.Failed?
      && (k.sent == [outcome] || (k.sent == [SoftCancelled] && k.softCancel))
    case DeliveredFailure(error) => k.state == Completed && outcome == Failed(error) && k.sent == [outcome]
    case Undelivered(error) =>
      k.state != Completed && k.sent == [] && (w.stop || w.failureId != 0) && Ended(error, w, c)
    case NoReceiver => k.state != Completed && k.sent == []
  }

  /** The error of a reply that was refused: the failed request, the stop, or the caller's own cancellation. */
  predicate Ended(error: Error, w: World, c: nat)
    requires c < |w.controls|
  {
    match error
    case TimedOutBy(id) => id == w.failureId != 0
    case Disconnected => w.stop && w.failureId == 0
    case CancelledRequest(id) =>
      id == w.controls[c].requestId && w.controls[c].softCancel && !w.stop && w.failureId == 0
    case _ => false
  }

  /** What the replies of a job say of its attempt: a success only of work that was done, its own cancellation as one,
      and any other failure as itself. */
  predicate Honest(attempt: Attempt, w: World, c: nat)
    requires c < |w.controls|
  {
    var k := w.controls[c];
    match attempt
    case Replayed => k.sent == [] || k.sent == [Succeeded] || (k.sent == [SoftCancelled] && k.softCancel)
    case ReplayFailed(error) =>
      || k.sent == [] || k.sent == [Failed(error)]
      || (k.manual && error == CancelledRequest(k.requestId) && k.sent == [SoftCancelled])
  }

  /** The control's sending end is still held and nothing was sent through it. */
  predicate Unanswered(w: World, c: nat) {
    c < |w.controls| && w.controls[c].open && w.controls[c].sent == []
  }

  /** What became of a dispatched control: exactly one reply, the failure if one is reported, or none. */
  predicate Resolved(r: DispatchResult, w: World, c: nat) {
    c < |w.controls| &&
    var k := w.controls[c];
    match r
    case Delivered => k.state == Completed && |k.sent| == 1
    case DeliveredFailure(error) => k.state == Completed && k.sent == [Failed(error)]
    case Undelivered(error) => k.state != Completed && k.sent == [] && Ended(error, w, c)
    case NoReceiver => k.state != Completed && k.sent == []
  }

  /** What the session lease answers before and after one checkpoint, and at the three checkpoints of a job. */
  datatype Checks = Checks(before: bool, after: bool)

  datatype SessionChecks = SessionChecks(first: Checks, work: Checks, last: Checks)

  predicate Current(s: SessionChecks) {
    s.first.before && s.first.after && s.work.before && s.work.after && s.last.before && s.last.after
  }

  /** Why a job's work may fail: the session was lost, the work itself failed, or the writer or caller ended it. */
  predicate Excused(error: Error, w: World, c: nat, session: bool, fault: Option<nat>) {
    c < |w.controls| &&
    match error
    case SessionLost => !session
    case Other(code) => fault == Some(code)
    case CancelledRequest(id) => id == w.controls[c].requestId && w.controls[c].softCancel
    case Disconnected => w.stop
    case _ => w.failureId != 0
  }

  /** The conditions of one dispatch: the answers of the session lease, the fault of the work, the receiver. */
  datatype Env = Env(session: SessionChecks, fault: Option<nat>, receiver: bool)

  /** Why a job did not succeed. */
  predicate Reason(r: DispatchResult, w: World, c: nat, env: Env) {
    match r
    case Delivered => false
    case DeliveredFailure(error) => Excused(error, w, c, Current(env.session), env.fault)
    case Undelivered(error) => c < |w.controls| && Ended(error, w, c)
    case NoReceiver => !env.receiver
  }

  /** A delivered job: one reply, which is no success if the work had a fault. */
  predicate Done(command: Command, w: World, env: Env) {
    command.Job? ==>
      Resolved(Delivered, w, command.control) && (env.fault.Some? ==> w.controls[command.control].sent != [Succeeded])
  }

  /** Replies stay what they are. */
  lemma DoneStays(command: Command, w: World, w': World, env: Env)
    requires Evolves(w, w') && Inv(w') && Done(command, w, env)
    ensures Done(command, w', env)
  {
    if command.Job? {
      var c := command.control;
      assert ControlEvolves(w, w.controls[c], w'.controls[c]) && ControlInv(w', c);
    }
  }

  lemma AllStay(dispatched: seq<Command>, w: World, w': World, env: nat -> Env)
    requires Evolves(w, w') && Inv(w')
    requires forall i :: 0 <= i < |dispatched| ==> Done(dispatched[i], w, env(i))
    ensures forall i :: 0 <= i < |dispatched| ==> Done(dispatched[i], w', env(i))
  {
    hide Inv, Evolves, Done;
    forall i | 0 <= i < |dispatched| ensures Done(dispatched[i], w', env(i)) {
      DoneStays(dispatched[i], w, w', env(i));
    }
  }

  lemma FlagsStay(w: World, w': World)
    requires Evolves(w, w')
    ensures (w.stop ==> w'.stop) && (w.failureId != 0 ==> w'.failureId != 0)
  {
  }

  /** A shutdown ends the loop, and so does a channel that closed: a job that arrives has an unanswered control. */
  predicate EndsLoop(command: Command, w: World) {
    command.Shutdown? || (command.Job? && !Unanswered(w, command.control))
  }

  /** Steps that only the worker thread takes. */
  predicate WorkerStep(a: Action) {
    a.PublishOf? || a.FinishPublication? || a.DropSender? || a.WorkerExit?
  }

  /** What steps of the other threads leave alone: replies, sending ends and a half-done publication. */
  ghost predicate NoWorkerProgress(w: World, w': World) {
    && w'.holder == w.holder && |w.controls| <= |w'.controls|
    && (forall c: nat :: c < |w.controls| ==>
          w'.controls[c].sent == w.controls[c].sent && w'.controls[c].open == w.controls[c].open)
  }

  lemma OtherStepDoesNotPublish(w: World, a: Action)
    requires !WorkerStep(a)
    ensures NoWorkerProgress(w, Step(w, a))
  {
    hide MarkTimedOut, TimedOutError;
    MarkOnlyTimesOut(w);
  }

  /** While the worker itself takes no step, nothing is published and no sending end closes. */
  lemma {:induction false} OthersDoNotPublish(w: World, acts: seq<Action>)
    requires forall i :: 0 <= i < |acts| ==> !WorkerStep(acts[i])
    ensures NoWorkerProgress(w, Run(w, acts))
    decreases |acts|
  {
    if acts != [] {
      OtherStepDoesNotPublish(w, acts[0]);
      OthersDoNotPublish(Step(w, acts[0]), acts[1..]);
    }
  }

  class SharedWriter {
    var world: World
    ghost var trace: seq<WaiterCall>   // the calls of the latest wait

    constructor ()
      ensures Inv(world) && world == INITIAL && trace == []
    {
      world := INITIAL;
      trace := [];
    }

    /** Any number of steps of the other threads. */
    method Interfere(ghost origin: World, ghost c: nat)
      requires Inv(world) && Evolves(origin, world) && c < |world.controls|
      modifies this`world
      ensures Inv(world) && Evolves(origin, world) && Seen(old(world), world, c)
    {
      var acts: seq<Action> := *;
      RunKeeps(world, acts);
      EvolvesTransitive(origin, world, Run(world, acts));
      world := Run(world, acts);
    }

    /** Waiting for the gate: other threads run until no publication is half done. */
    method Lock(ghost origin: World, ghost c: nat)
      requires Inv(world) && Evolves(origin, world) && c < |world.controls|
      modifies this`world
      ensures Inv(world) && Evolves(origin, world) && Seen(old(world), world, c) && world.holder.None?
    {
      Interfere(origin, c);
      if world.holder.Some? {
        PublishEndKeeps(world);
        EvolvesTransitive(origin, world, PublishEnd(world));
        world := PublishEnd(world);
      }
    }

    /** A gate-held step of this thread. */
    method Section(ghost origin: World, ghost c: nat, a: Action)
      requires Inv(world) && Evolves(origin, world) && world.holder.None? && c < |world.controls|
      modifies this`world
      ensures world == Step(old(world), a)
      ensures Inv(world) && Evolves(origin, world) && Seen(old(world), world, c)
    {
      StepKeeps(world, a);
      EvolvesTransitive(origin, world, Step(world, a));
      world := Step(world, a);
    }

    /** `recv_timeout`: a message, a closed channel, or at least `wait` of elapsed time. */
    method RecvTimeout(ghost origin: World, c: nat, taken: nat, wait: nat) returns (m: Received)
      requires Inv(world) && Evolves(origin, world) && c < |world.controls|
      modifies this`world
      ensures Inv(world) && Evolves(origin, world) && Seen(old(world), world, c)
      ensures m == TryRecv(world, c, taken)
      ensures m.Empty? ==> world.now >= old(world.now) + wait
    {
      var start := world.now;
      Interfere(origin, c);
      m := TryRecv(world, c, taken);
      if m.Empty? && world.now < start + wait {
        var sleep := Tick(start + wait - world.now);
        StepKeeps(world, sleep);
        EvolvesTransitive(origin, world, Step(world, sleep));
        world := Step(world, sleep);
      }
    }

    /** The head of the waiter's loop: the state, the stop flag, then the failure id and the clock. */
    method ObserveControl(ghost origin: World, c: nat, received: Option<Reply>)
      returns (r: Option<WaitResult>, again: bool)
      requires Inv(world) && Evolves(origin, world) && c < |world.controls|
      requires InHand(received, world, c)
      modifies this
      ensures Inv(world) && Evolves(origin, world) && Seen(old(world), world, c)
      ensures r.Some? ==> Truthful(r.value, world, c) && !r.value.WorkerLost?
      ensures again ==> Settled(world, c) && !old(Settled(world, c))
      ensures r.None? && !again ==>
        !old(Settled(world, c)) && old(world.failureId) == 0 && old(world.now < world.controls[c].deadline)
      ensures trace == old(trace) + [Turn(old(world.now), received, again)] && (r.Some? ==> !again)
    {
      hide Inv, Evolves, FailureNamed;
      ghost var now := world.now;
      r, again := Observe(origin, c, received);
      trace := trace + [Turn(now, received, again)];
    }

    method Observe(ghost origin: World, c: nat, received: Option<Reply>)
      returns (r: Option<WaitResult>, again: bool)
      requires Inv(world) && Evolves(origin, world) && c < |world.controls|
      requires InHand(received, world, c)
      modifies this`world
      ensures Inv(world) && Evolves(origin, world) && Seen(old(world), world, c)
      ensures r.Some? ==> Truthful(r.value, world, c) && !r.value.WorkerLost? && !again
      ensures again ==> Settled(world, c) && !old(Settled(world, c))
      ensures r.None? && !again ==>
        !old(Settled(world, c)) && old(world.failureId) == 0 && old(world.now < world.controls[c].deadline)
    {
      hide Inv, Evolves, FailureNamed;
      Interfere(origin, c);
      match world.controls[c].state {
        case Completed =>
          // if nothing was taken yet, the published reply is still in the channel
          return Some(Replied(if received.Some? then received.value else world.controls[c].sent[0])), false;
        case TimedOut =>
          return Some(WaitTimedOut(TimedOutError(world, c).requestId)), false;
        case Pending =>
      }
      Interfere(origin, c);
      if world.stop {
        return Some(WaitDisconnected), false;
      }
      Interfere(origin, c);
      var expired := world.failureId != 0;
      if !expired {
        Interfere(origin, c);
        expired := world.now >= world.controls[c].deadline;
      }
      if !expired {
        return None, false;
      }
      var marked := TryMarkTimedOut(origin, c);
      if marked {
        return Some(WaitTimedOut(TimedOutError(world, c).requestId)), false;
      }
      return None, true;
    }

    method TryMarkTimedOut(ghost origin: World, c: nat) returns (marked: bool)
      requires Inv(world) && Evolves(origin, world) && c < |world.controls| && Overdue(world, c)
      modifies this`world
      ensures Inv(world) && Evolves(origin, world) && Seen(old(world), world, c)
      ensures marked ==> world.controls[c].state == TimedOut && world.failureId != 0 && FailureNamed(world)
      ensures !marked ==> Settled(world, c)
    {
      hide Inv, Evolves, FailureNamed;
      Lock(origin, c);
      marked := MarkTimedOut(world, c).1;
      Section(origin, c, MarkOf(c));
    }

    /** `input_worker_health_error`, with the reply in hand. */
    method LookAtWorker(answer: bool, received: Option<Reply>) returns (ok: bool)
      modifies this`trace
      ensures ok == answer && trace == old(trace) + [Look(answer, received)]
    {
      trace := trace + [Look(answer, received)];
      return answer;
    }

    /** The input worker is gone: return an error reply already in hand, or stop the writer if nothing blocks that. */
    method HandleWorkerLoss(ghost origin: World, c: nat, received: Option<Reply>) returns (r: Option<WaitResult>)
      requires Inv(world) && Evolves(origin, world) && c < |world.controls|
      requires InHand(received, world, c)
      modifies this
      ensures Inv(world) && Evolves(origin, world) && Seen(old(world), world, c)
      ensures r.Some? ==> Truthful(r.value, world, c)
      ensures r.None? ==> Rank(world, c) <= 1
      ensures if ErrorInHand(received) then r == Some(Replied(received.value)) && trace == old(trace)
              else exists gate :: LossSection(old(trace), trace, gate, r, c)
    {
      hide Inv, Evolves, FailureNamed;
      StandingStill(world);
      if received.Some? && received.value != Succeeded {
        return Some(Replied(received.value));
      }
      Lock(origin, c);
      var stopped := StopForWorkerLoss(world, c).1;
      ghost var gate := world;
      Section(origin, c, WorkerLossOf(c));
      trace := trace + [Loss(gate, stopped)];
      r := if stopped then Some(WorkerLost) else None;
      assert LossSection(old(trace), trace, gate, r, c);
    }

    /** One reception, by `try_recv` (no wait) or `recv_timeout`, traced as `call`; `r` is set when the channel closed
        without a reply. */
    method Receive(ghost origin: World, c: nat, received: Option<Reply>, wait: nat, ghost call: WaiterCall)
      returns (received': Option<Reply>, r: Option<WaitResult>)
      requires Inv(world) && Evolves(origin, world) && c < |world.controls|
      requires InHand(received, world, c)
      modifies this
      ensures Inv(world) && Evolves(origin, world) && Seen(old(world), world, c)
      ensures InHand(received', world, c)
      ensures r.Some? ==> Truthful(r.value, world, c) && !r.value.WorkerLost?
      ensures received.Some? ==> received' == received
      ensures r.None? && received' == received ==> world.now >= old(world.now) + wait || Rank(world, c) <= 1
      ensures trace == old(trace) + [call]
    {
      hide Inv, Evolves, FailureNamed;
      trace := trace + [call];
      received', r := received, None;
      var m := RecvTimeout(origin, c, if received.Some? then 1 else 0, wait);
      match m {
        case Got(reply) => received' := Some(reply);
        case Empty =>
        case Closed =>
          var hidden := Hidden(origin, c);
          if !hidden {
            r := Some(WaitDisconnected);
          }
      }
    }

    /** `recv_timeout` for the rest of the time, at most one quantum. */
    method Await(ghost origin: World, c: nat, received: Option<Reply>)
      returns (received': Option<Reply>, r: Option<WaitResult>)
      requires Inv(world) && Evolves(origin, world) && c < |world.controls|
      requires InHand(received, world, c)
      modifies this
      ensures Inv(world) && Evolves(origin, world) && Seen(old(world), world, c)
      ensures InHand(received', world, c)
      ensures r.Some? ==> Truthful(r.value, world, c) && !r.value.WorkerLost?
      ensures received.Some? ==> received' == received
      ensures r.None? && received' == received ==>
        Remaining(world, c) < old(Remaining(world, c)) || Rank(world, c) <= 1 || old(Remaining(world, c)) == 0
      ensures exists ms: nat :: ms <= SLEEP_QUANTUM && trace == old(trace) + [Wait(ms)]
    {
      hide Inv, Evolves, FailureNamed;
      Interfere(origin, c);
      var ms := Min(Remaining(world, c), SLEEP_QUANTUM);
      received', r := Receive(origin, c, received, ms, Wait(ms));
    }

    /** `try_recv`, unless a reply is in hand. */
    method PeekReply(ghost origin: World, c: nat, received: Option<Reply>)
      returns (received': Option<Reply>, r: Option<WaitResult>)
      requires Inv(world) && Evolves(origin, world) && c < |world.controls|
      requires InHand(received, world, c)
      modifies this
      ensures Inv(world) && Evolves(origin, world) && Seen(old(world), world, c)
      ensures InHand(received', world, c)
      ensures r.Some? ==> Truthful(r.value, world, c) && !r.value.WorkerLost? && received.None?
      ensures received.Some? ==> received' == received
      ensures trace == old(trace) + if received.None? then [Peek] else []
    {
      hide Inv, Evolves, FailureNamed;
      StandingStill(world);
      received', r := received, None;
      if received.None? {
        received', r := Receive(origin, c, received, 0, Peek);
      }
    }

    /**
     `wait_for_reply_with_input_health`; `healthy` is what the input worker's health check answers, look by look.
     Its calls come in order, and at most two turns begin at or after the deadline.
     */
    method WaitForReply(c: nat, healthy: nat -> bool) returns (r: WaitResult)
      requires Inv(world) && c < |world.controls| && !world.controls[c].manual
      modifies this
      ensures Inv(world) && Evolves(old(world), world) && c < |world.controls|
      ensures Truthful(r, world, c)
      ensures Vigilant(trace, healthy, r, c)
      ensures LateTurns(trace, world.controls[c].deadline) <= 2
    {
      hide Inv, Evolves, FailureNamed, Looks, LateTurns, CleanupBlocked, Orderly;
      ghost var origin := world;
      ghost var deadline := world.controls[c].deadline;
      StandingStill(world);
      var received: Option<Reply> := None;
      var look: nat := 0;
      trace := [];
      NoCalls(healthy, c, deadline);
      while true
        invariant Inv(world) && Evolves(origin, world) && c < |world.controls|
        invariant InHand(received, world, c) && world.controls[c].deadline == deadline
        invariant Orderly(trace, healthy, c) && TurnOver(trace) && look == Looks(trace)
        invariant LateTurns(trace, deadline) == 0 || (LateTurns(trace, deadline) == 1 && Settled(world, c))
        decreases Rank(world, c), Remaining(world, c), received.None?
      {
        ghost var before := trace;
        ghost var now := world.now;
        var result, again := ObserveControl(origin, c, received);
        CallMore(before, Turn(now, received, again), healthy, c, deadline);
        if result.Some? {
          return result.value;
        }
        if again {
          continue;
        }
        received, result := MindWorker(origin, c, received, healthy, look, deadline);
        look := look + 1;
        if result.Some? {
          return result.value;
        }
      }
    }

    /** The rest of a turn: look at the channel and at the input worker, and wait for the reply or handle the loss. */
    method MindWorker(ghost origin: World, c: nat, received: Option<Reply>, healthy: nat -> bool, look: nat,
                      ghost deadline: nat)
      returns (received': Option<Reply>, r: Option<WaitResult>)
      requires Inv(world) && Evolves(origin, world) && c < |world.controls| && InHand(received, world, c)
      requires Orderly(trace, healthy, c) && look == Looks(trace)
      requires trace != [] && Observed(trace[|trace| - 1]) && trace[|trace| - 1].hand == received
      modifies this
      ensures Inv(world) && Evolves(origin, world) && Seen(old(world), world, c)
      ensures InHand(received', world, c) && (received.Some? ==> received' == received)
      ensures LateTurns(trace, deadline) == LateTurns(old(trace), deadline)
      ensures r.Some? ==> Truthful(r.value, world, c) && Vigilant(trace, healthy, r.value, c)
      ensures r.None? ==> Orderly(trace, healthy, c) && TurnOver(trace) && Looks(trace) == look + 1
      ensures r.None? && received' == received ==>
        Remaining(world, c) < old(Remaining(world, c)) || Rank(world, c) <= 1 || old(Remaining(world, c)) == 0
    {
      hide Inv, Evolves, FailureNamed, Looks, LateTurns, CleanupBlocked, Orderly;
      ghost var before := trace;
      received', r := PeekReply(origin, c, received);
      if received.None? {
        CallMore(before, Peek, healthy, c, deadline);
      }
      if r.Some? {
        return;
      }
      assert received.Some? ==> trace == before;
      before := trace;
      var ok := LookAtWorker(healthy(look), received');
      CallMore(before, Look(ok, received'), healthy, c, deadline);
      before := trace;
      if !ok {
        ghost var hand := received';
        r := HandleWorkerLoss(origin, c, received');
        if !ErrorInHand(hand) {
          ghost var gate :| LossSection(before, trace, gate, r, c);
          CallMore(before, Loss(gate, !CleanupBlocked(gate, c)), healthy, c, deadline);
        }
        return;
      }
      received', r := Await(origin, c, received');
      ghost var ms: nat :| ms <= SLEEP_QUANTUM && trace == before + [Wait(ms)];
      CallMore(before, Wait(ms), healthy, c, deadline);
    }

    /** After a closed channel: is the control no longer Pending, or has the writer failed?  Two separate loads. */
    method Hidden(ghost origin: World, c: nat) returns (hidden: bool)
      requires Inv(world) && Evolves(origin, world) && c < |world.controls| && !world.controls[c].open
      modifies this`world
      ensures Inv(world) && Evolves(origin, world) && Seen(old(world), world, c)
      ensures !hidden ==> world.controls[c].state == Pending && world.controls[c].sent == []
      ensures hidden ==> Rank(world, c) <= 1
    {
      hide Inv, Evolves, FailureNamed;
      Interfere(origin, c);
      if world.controls[c].state != Pending {
        return true;
      }
      Interfere(origin, c);
      return world.failureId != 0;
    }

    // ----- the worker: deferred manual corrections -----

    /** Steps of every thread except the worker, which is this one. */
    method OthersInterfere(ghost origin: World, c: nat)
      requires Inv(world) && Evolves(origin, world) && c < |world.controls|
      modifies this`world
      ensures Inv(world) && Evolves(origin, world) && Seen(old(world), world, c) && world.holder == old(world.holder)
      ensures world.controls[c].sent == old(world.controls[c].sent)
      ensures world.controls[c].open == old(world.controls[c].open)
    {
      var acts: seq<Action> := *;
      StandingStill(world);
      if forall i :: 0 <= i < |acts| ==> !WorkerStep(acts[i]) {
        RunKeeps(world, acts);
        OthersDoNotPublish(world, acts);
        EvolvesTransitive(origin, world, Run(world, acts));
        world := Run(world, acts);
      }
    }

    /** One of the three `publish_*_with` functions, with the send and the completion as separate steps. */
    method Publish(ghost origin: World, c: nat, how: Channel, reply: Reply, receiverOpen: bool) returns (p: Publication)
      requires Inv(world) && Evolves(origin, world) && world.holder.None?
      requires c < |world.controls| && world.controls[c].open && world.controls[c].sent == []
      requires Publishable(world.controls[c], how, reply)
      modifies this`world
      ensures Inv(world) && Evolves(origin, world) && world.holder.None? && Seen(old(world), world, c)
      ensures p.InFlight? ==> world.controls[c].state == Completed && world.controls[c].sent == [reply]
      ensures (p.ReceiverGone? ==> !receiverOpen) && (p.InFlight? ==> receiverOpen)
      ensures !p.InFlight? ==> world.controls[c].sent == [] && world.controls[c].open
      ensures p.Refused? ==>
        || world.stop || world.failureId != 0
        || (how == AsCompleted && world.controls[c].softCancel)
        || (how == AsSoftCancelled && !world.controls[c].softCancel)
    {
      hide Inv, Evolves, FailureNamed;
      OthersInterfere(origin, c);
      p := PublishBegin(world, c, how, reply, receiverOpen).1;
      Section(origin, c, PublishOf(c, how, reply, receiverOpen));
      if p.InFlight? {
        OthersInterfere(origin, c);
        Complete(origin, c);
      }
    }

    /** The second half of a publication. */
    method Complete(ghost origin: World, c: nat)
      requires Inv(world) && Evolves(origin, world) && world.holder == Some(c)
      modifies this`world
      ensures Inv(world) && Evolves(origin, world) && world == PublishEnd(old(world))
      ensures c < |old(world).controls| && Seen(old(world), world, c)
      ensures world.holder.None? && world.controls[c].state == Completed
    {
      PublishEndKeeps(world);
      EvolvesTransitive(origin, world, PublishEnd(world));
      world := PublishEnd(world);
    }

    /**
     `publish_deferred_manual_completion`.  The gate is released between the refused publication, the
     `cancellation_error` read and the second publication, and the receiver may go in between; still no
     completion is lost unless the writer stopped or failed, or the receiver is gone.
     */
    method PublishDeferred(ghost origin: World, c: nat, outcome: Reply, receiverOpen: bool, receiverStays: bool)
      returns (r: DispatchResult)
      requires Inv(world) && Evolves(origin, world) && world.holder.None?
      requires Unanswered(world, c) && world.controls[c].manual
      requires outcome == SoftCancelled ==> world.controls[c].softCancel
      modifies this`world
      ensures Inv(world) && Evolves(origin, world) && Seen(old(world), world, c) && world.holder.None?
      ensures Accounted(r, outcome, world, c)
      ensures r.NoReceiver? ==> !(receiverOpen && receiverStays)
      ensures r.Delivered? || r.DeliveredFailure? ==>
        receiverOpen && (world.controls[c].sent == [outcome] || receiverStays)
    {
      hide Inv, Evolves, FailureNamed;
      var p;
      if outcome == SoftCancelled {
        p := Publish(origin, c, AsSoftCancelled, outcome, receiverOpen);
      } else if outcome.Failed? {
        p := Publish(origin, c, AsFailed, outcome, receiverOpen);
      } else {
        p := Publish(origin, c, AsCompleted, outcome, receiverOpen);
        if p.Refused? {
          OthersInterfere(origin, c);
          if CancellationError(world, c) == CancelledRequest(world.controls[c].requestId) {
            p := Publish(origin, c, AsSoftCancelled, SoftCancelled, receiverOpen && receiverStays);
          }
        }
      }
      match p {
        case InFlight => r := if outcome.Failed? then DeliveredFailure(outcome.error) else Delivered;
        case Refused =>
          OthersInterfere(origin, c);
          r := Undelivered(CancellationError(world, c));
        case ReceiverGone => r := NoReceiver;
      }
    }

    /** `ensure_active`, by the worker; the session is checked before and after the flags. */
    method CheckActive(ghost origin: World, c: nat, session: Checks) returns (permit: Permit)
      requires Inv(world) && Evolves(origin, world) && world.holder.None? && Unanswered(world, c)
      modifies this`world
      ensures Inv(world) && Evolves(origin, world) && world.holder.None? && Seen(old(world), world, c)
      ensures Unanswered(world, c)
      ensures permit.Denied? ==> Excused(permit.error, world, c, session.before && session.after, None)
      ensures old(Blocked(world, c)) || !session.before || !session.after ==> permit.Denied?
    {
      hide Inv, Evolves, FailureNamed;
      OthersInterfere(origin, c);
      permit := EnsureActive(world, c, session.before, session.after).1;
      Section(origin, c, EnsureOf(c, session.before, session.after));
    }

    /** The transaction's work as the dispatcher sees it: it is denied a permit, or fails in the way `fault` says. */
    method AttemptWork(ghost origin: World, c: nat, session: Checks, fault: Option<nat>) returns (r: Attempt)
      requires Inv(world) && Evolves(origin, world) && world.holder.None? && Unanswered(world, c)
      modifies this`world
      ensures Inv(world) && Evolves(origin, world) && world.holder.None? && Seen(old(world), world, c)
      ensures Unanswered(world, c)
      ensures r.ReplayFailed? ==> Excused(r.error, world, c, session.before && session.after, fault)
      ensures old(Blocked(world, c)) || !session.before || !session.after || fault.Some? ==> r.ReplayFailed?
    {
      hide Inv, Evolves, FailureNamed;
      var permit := CheckActive(origin, c, session);
      r := if permit.Denied? then ReplayFailed(permit.error)
           else if fault.Some? then ReplayFailed(Other(fault.value))
           else Replayed;
    }

    /** `ensure_active`, the work, `ensure_active`: what both kinds of jobs do before they publish. */
    method Perform(ghost origin: World, c: nat, session: SessionChecks, fault: Option<nat>) returns (attempt: Attempt)
      requires Inv(world) && Evolves(origin, world) && world.holder.None? && Unanswered(world, c)
      modifies this`world
      ensures Inv(world) && Evolves(origin, world) && world.holder.None? && Seen(old(world), world, c)
      ensures Unanswered(world, c)
      ensures attempt.ReplayFailed? ==> Excused(attempt.error, world, c, Current(session), fault)
      ensures old(Blocked(world, c)) || !Current(session) || fault.Some? ==> attempt.ReplayFailed?
    {
      hide Inv, Evolves, FailureNamed;
      var permit := CheckActive(origin, c, session.first);
      if permit.Granted? {
        attempt := AttemptWork(origin, c, session.work, fault);
        if attempt.Replayed? {
          permit := CheckActive(origin, c, session.last);
        }
      }
      if permit.Denied? {
        attempt := ReplayFailed(permit.error);
      }
    }

    /** The writer loop's handling of one deferred manual correction. */
    method DispatchDeferred(c: nat, session: SessionChecks, fault: Option<nat>, receiverOpen: bool, receiverStays: bool)
      returns (attempt: Attempt, r: DispatchResult)
      requires Inv(world) && world.holder.None? && Unanswered(world, c) && world.controls[c].manual
      modifies this`world
      ensures Inv(world) && Evolves(old(world), world) && c < |world.controls| && world.holder.None?
      ensures Accounted(r, Classify(world.controls[c].requestId, attempt), world, c)
      ensures Honest(attempt, world, c) && (r.Delivered? || r.DeliveredFailure? <==> world.controls[c].sent != [])
      ensures r.Delivered? ==>
        attempt.Replayed? || attempt == ReplayFailed(CancelledRequest(world.controls[c].requestId))
      ensures r.NoReceiver? ==> !(receiverOpen && receiverStays)
      ensures attempt.ReplayFailed? ==> Excused(attempt.error, world, c, Current(session), fault)
      ensures old(Blocked(world, c)) || !Current(session) || fault.Some? ==> attempt.ReplayFailed?
    {
      hide Inv, Evolves, FailureNamed;
      ghost var origin := world;
      StandingStill(world);
      attempt := Perform(origin, c, session, fault);
      var outcome := Classify(world.controls[c].requestId, attempt);
      r := PublishDeferred(origin, c, outcome, receiverOpen, receiverStays);
    }

    /** `publish_writer_transaction_result` */
    method PublishTransaction(ghost origin: World, c: nat, result: Reply, receiverOpen: bool)
      returns (r: DispatchResult)
      requires Inv(world) && Evolves(origin, world) && world.holder.None? && !result.SoftCancelled?
      requires Unanswered(world, c) && !world.controls[c].manual
      modifies this`world
      ensures Inv(world) && Evolves(origin, world) && Seen(old(world), world, c) && world.holder.None?
      ensures Resolved(r, world, c)
      ensures r.Delivered? ==> result == Succeeded && world.controls[c].sent == [Succeeded]
      ensures r.DeliveredFailure? ==> result == Failed(r.error)
      ensures r.NoReceiver? ==> !receiverOpen
    {
      hide Inv, Evolves, FailureNamed;
      var p := Publish(origin, c, AsCompleted, result, receiverOpen);
      match p {
        case InFlight => r := if result.Failed? then DeliveredFailure(result.error) else Delivered;
        case Refused =>
          OthersInterfere(origin, c);
          r := Undelivered(CancellationError(world, c));
        case ReceiverGone => r := NoReceiver;
      }
    }

    /** The writer loop's handling of one transaction; its reply sender is dropped at the end. */
    method ExecuteTransaction(c: nat, session: SessionChecks, fault: Option<nat>, receiverOpen: bool)
      returns (attempt: Attempt, r: DispatchResult)
      requires Inv(world) && world.holder.None? && Unanswered(world, c) && !world.controls[c].manual
      modifies this`world
      ensures Inv(world) && Evolves(old(world), world) && world.holder.None?
      ensures Resolved(r, world, c) && Honest(attempt, world, c) && !world.controls[c].open
      ensures r.Delivered? ==> attempt.Replayed? && world.controls[c].sent == [Succeeded]
      ensures r.DeliveredFailure? ==> attempt == ReplayFailed(r.error)
      ensures r.NoReceiver? ==> !receiverOpen
      ensures attempt.ReplayFailed? ==> Excused(attempt.error, world, c, Current(session), fault)
      ensures old(Blocked(world, c)) || !Current(session) || fault.Some? ==> attempt.ReplayFailed?
    {
      hide Inv, Evolves, FailureNamed;
      ghost var origin := world;
      StandingStill(world);
      attempt := Perform(origin, c, session, fault);
      var result := if attempt.Replayed? then Succeeded else Failed(attempt.error);
      r := PublishTransaction(origin, c, result, receiverOpen);
      Section(origin, c, DropSender(c));
    }

    // ----- the writer's command loop -----

    /** Steps of every thread except the worker, which is this one. */
    method OthersRun()
      requires Inv(world) && world.holder.None?
      modifies this`world
      ensures Inv(world) && Evolves(old(world), world) && world.holder.None?
    {
      StandingStill(world);
      var acts: seq<Action> := *;
      if forall i :: 0 <= i < |acts| ==> !WorkerStep(acts[i]) {
        RunKeeps(world, acts);
        OthersDoNotPublish(world, acts);
        world := Run(world, acts);
      }
    }

    /** One command: a job goes to its publication, a fast command ends as `fault` says. */
    method Dispatch(command: Command, env: Env) returns (r: DispatchResult)
      requires Inv(world) && world.holder.None? && !command.Shutdown?
      requires command.Job? ==> Unanswered(world, command.control)
      modifies this`world
      ensures Inv(world) && Evolves(old(world), world) && world.holder.None?
      ensures command.Job? ==> Resolved(r, world, command.control)
      ensures command.Job? && !r.Delivered? ==> Reason(r, world, command.control, env)
      ensures command.Fast? ==> (r.Delivered? <==> env.fault.None?)
      ensures command.Job? && env.fault.Some? ==> world.controls[command.control].sent != [Succeeded]
    {
      hide Inv, Evolves, FailureNamed;
      match command {
        case Fast(_) =>
          OthersRun();
          r := if env.fault.Some? then Undelivered(Other(env.fault.value)) else Delivered;
        case Job(c) =>
          var attempt;
          if world.controls[c].manual {
            var early: bool := *;
            attempt, r := DispatchDeferred(c, env.session, env.fault, env.receiver || early, env.receiver);
          } else {
            attempt, r := ExecuteTransaction(c, env.session, env.fault, env.receiver);
          }
      }
    }

    /**
     `run_writer_command_loop_with_stop` over the commands in their order of arrival; a job arrives with an
     unanswered control, created by then.  `ready` is the answer of the readiness publication, `env` the conditions
     of every dispatch; `results` holds its result, `starts` and `after` the worlds in which it began and ended.
     Every dispatched control has exactly one reply, but the last one may have none, and then the loop has failed for
     a reason; no dispatch begins in a stopped or failed writer, and none follows a dispatch error.
     */
    method RunCommandLoop(queue: seq<Command>, ready: bool, env: nat -> Env)
      returns (r: LoopResult, dispatched: seq<Command>, results: seq<DispatchResult>,
               ghost starts: seq<World>, ghost after: seq<World>)
      requires Inv(world) && world.holder.None?
      modifies this`world
      ensures Inv(world)
      ensures dispatched <= queue && Shutdown !in dispatched && |results| == |starts| == |after| == |dispatched|
      ensures forall i :: 0 <= i < |dispatched| && dispatched[i].Job? ==>
        && Resolved(results[i], world, dispatched[i].control)
        && (env(i).fault.Some? ==> world.controls[dispatched[i].control].sent != [Succeeded])
      ensures forall i :: 0 <= i < |starts| ==> !starts[i].stop && starts[i].failureId == 0
      ensures forall i :: 0 <= i < |after| - 1 ==> results[i].Delivered? && !after[i].stop && after[i].failureId == 0
      ensures forall i :: 0 <= i < |dispatched| && dispatched[i].Job? && !results[i].Delivered? ==>
        Reason(results[i], world, dispatched[i].control, env(i))
      ensures old(world.stop || world.failureId != 0) ==> dispatched == []
      ensures r.LoopDone? ==>
        && (dispatched == queue || EndsLoop(queue[|dispatched|], world))
        && (forall i :: 0 <= i < |results| ==> results[i].Delivered?)
      ensures r.LoopFailed? ==>
        || !ready || world.stop || world.failureId != 0
        || (results != [] && !results[|results| - 1].Delivered?)
    {
      hide Inv, Evolves, Unanswered, Reason;
      r, dispatched, results, starts, after := LoopFailed, [], [], [], [];
      StandingStill(world);
      OthersRun();
      FlagsStay(old(world), world);
      if world.stop || world.failureId != 0 {
        return;
      }
      if !ready {
        return;
      }
      for i := 0 to |queue|
        invariant Inv(world) && world.holder.None? && dispatched == queue[..i]
        invariant |results| == |starts| == |after| == i && Shutdown !in dispatched
        invariant r == LoopFailed && old(!world.stop && world.failureId == 0)
        invariant forall j :: 0 <= j < i ==> results[j].Delivered?
        invariant forall j :: 0 <= j < i ==> Done(dispatched[j], world, env(j))
        invariant forall j :: 0 <= j < i ==> !starts[j].stop && starts[j].failureId == 0
        invariant forall j :: 0 <= j < i - 1 ==> !after[j].stop && after[j].failureId == 0
        invariant i > 0 ==> after[i - 1] == world
      {
        ghost var before := world;
        OthersRun();
        FlagsStay(before, world);
        AllStay(dispatched, before, world, env);
        if EndsLoop(queue[i], world) {
          return LoopDone, dispatched, results, starts, after;
        }
        if world.stop || world.failureId != 0 {
          return;
        }
        before := world;
        starts := starts + [world];
        var result := Dispatch(queue[i], env(i));
        AllStay(dispatched, before, world, env);
        dispatched, results, after := dispatched + [queue[i]], results + [result], after + [world];
        if !result.Delivered? {
          return;
        }
      }
      r := LoopDone;
    }
  }
}
