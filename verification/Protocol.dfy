/**
 The transaction protocol of the virtual-keyboard writer.

 Any number of transaction controls share one stop flag, one failure id and one
 terminal gate.  Every write to these flags happens while the gate is held, so a
 gate-held section is one atomic step.  The one exception is a publication: it
 sends the reply and then marks the control Completed, and threads that do not
 take the gate can see the moment in between.  That section is therefore two
 steps, with `holder` naming the control whose publication is half done.
 */
module Protocol {
  import opened Common

  datatype TxState = Pending | Completed | TimedOut

  datatype Error =
    | Disconnected
    | TimedOutBy(requestId: nat)
    | CancelledRequest(requestId: nat)
    | AlreadyCompleted(requestId: nat)
    | SessionLost
    | Other(code: nat)

  datatype Reply = Succeeded | SoftCancelled | Failed(error: Error)

  /** One `WriterTransactionControl`, with the history of the replies sent for it. */
  datatype Control = Control(
    requestId: nat,
    deadline: nat,
    manual: bool,        // deferred manual correction: replies go to the completion channel
    state: TxState,
    softCancel: bool,
    authorized: bool,
    sent: seq<Reply>,    // replies sent so far, oldest first
    open: bool)          // the worker still holds the sending end

  /** A message in the completion channel; `control` is the identity of its sender. */
  datatype Completion = Completion(control: nat, requestId: nat, reply: Reply)

  datatype World = World(
    now: nat,
    stop: bool,
    failureId: nat,
    holder: Option<nat>,
    workerGone: bool,
    controls: seq<Control>,
    completions: seq<Completion>)

  datatype Permit = Granted | Denied(error: Error)

  datatype SoftCancelAnswer = Requested | AlreadyRequested | AlreadyDone | Terminal

  /** The three ways to publish: `publish_completed_with`, `publish_soft_cancelled_with`, `publish_failed_with`. */
  datatype Channel = AsCompleted | AsSoftCancelled | AsFailed

  /** Result of the first half of a publication; `InFlight` means the reply is sent and the gate still held. */
  datatype Publication = InFlight | Refused | ReceiverGone

  function SetControl(w: World, c: nat, k: Control): World
    requires c < |w.controls|
  {
    w.(controls := w.controls[c := k])
  }

  // ----- gate-held sections -----

  /** `try_mark_timed_out_while_terminal_gate_is_held` */
  function MarkTimedOut(w: World, c: nat): (r: (World, bool))
    requires c < |w.controls|
  {
    var k := w.controls[c];
    if w.stop || k.state != Pending then (w, false)
    else
      var failureId := if w.failureId == 0 then k.requestId else w.failureId;
      (SetControl(w, c, k.(state := TimedOut)).(failureId := failureId), true)
  }

  function TimedOutError(w: World, c: nat): Error
    requires c < |w.controls|
  {
    TimedOutBy(if w.failureId == 0 then w.controls[c].requestId else w.failureId)
  }

  function CancellationError(w: World, c: nat): Error
    requires c < |w.controls|
  {
    var k := w.controls[c];
    if k.state == TimedOut || w.failureId != 0 then TimedOutError(w, c)
    else if w.stop then Disconnected
    else if k.softCancel then CancelledRequest(k.requestId)
    else TimedOutError(w, c)
  }

  function RequestSoftCancel(w: World, c: nat): (r: (World, SoftCancelAnswer))
    requires c < |w.controls|
  {
    var k := w.controls[c];
    if w.stop || w.failureId != 0 then (w, Terminal)
    else if k.state == Completed then (w, AlreadyDone)
    else if k.state == TimedOut then (w, Terminal)
    else if w.now >= k.deadline then (MarkTimedOut(w, c).0, Terminal)
    else if k.softCancel then (w, AlreadyRequested)
    else (SetControl(w, c, k.(softCancel := true)), Requested)
  }

  /** The first half of the three publish sections: the checks, then sending the reply. */
  function PublishBegin(w: World, c: nat, how: Channel, reply: Reply, receiverOpen: bool): (r: (World, Publication))
    requires c < |w.controls|
  {
    var k := w.controls[c];
    if w.stop || w.failureId != 0 || k.state != Pending then (w, Refused)
    else if w.now >= k.deadline then (MarkTimedOut(w, c).0, Refused)
    else if (how == AsCompleted && k.softCancel) || (how == AsSoftCancelled && !k.softCancel) then (w, Refused)
    else if !receiverOpen then (w, ReceiverGone)
    else
      var sent := SetControl(w, c, k.(sent := k.sent + [reply])).(holder := Some(c));
      (if k.manual then sent.(completions := w.completions + [Completion(c, k.requestId, reply)]) else sent, InFlight)
  }

  /** The second half: the control becomes Completed and the gate is released. */
  function PublishEnd(w: World): World
    requires w.holder.Some? ==> w.holder.value < |w.controls|
  {
    if w.holder.None? then w
    else
      var k := w.controls[w.holder.value];
      SetControl(w, w.holder.value, if k.state == Pending then k.(state := Completed) else k).(holder := None)
  }

  /** `ensure_active_while_terminal_gate_is_held`; the two session checks are oracles. */
  function EnsureActive(w: World, c: nat, sessionBefore: bool, sessionAfter: bool): (r: (World, Permit))
    requires c < |w.controls|
  {
    var k := w.controls[c];
    if !sessionBefore then (w, Denied(SessionLost))
    else if w.stop then (w, Denied(Disconnected))
    else if w.failureId != 0 then
      var w' := MarkTimedOut(w, c).0;
      (w', Denied(TimedOutError(w', c)))
    else if k.state == TimedOut then (w, Denied(TimedOutError(w, c)))
    else if k.state == Completed then (w, Denied(AlreadyCompleted(k.requestId)))
    else if w.now >= k.deadline then
      var w' := MarkTimedOut(w, c).0;
      (w', Denied(TimedOutError(w', c)))
    else if k.softCancel then (w, Denied(CancelledRequest(k.requestId)))
    else if !sessionAfter then (w, Denied(SessionLost))
    else (w, Granted)
  }

  function AuthorizeMutation(w: World, c: nat, sessionBefore: bool, sessionAfter: bool): (r: (World, Permit))
    requires c < |w.controls|
  {
    var (w', p) := EnsureActive(w, c, sessionBefore, sessionAfter);
    if p.Granted? then (SetControl(w', c, w'.controls[c].(authorized := true)), p) else (w', p)
  }

  function AuthorizeCleanup(w: World, c: nat): (r: (World, Permit))
    requires c < |w.controls|
  {
    var k := w.controls[c];
    if w.stop then (w, Denied(Disconnected))
    else if w.failureId != 0 then
      var w' := MarkTimedOut(w, c).0;
      (w', Denied(TimedOutError(w', c)))
    else if k.state == TimedOut then (w, Denied(TimedOutError(w, c)))
    else if k.state == Completed then (w, Denied(AlreadyCompleted(k.requestId)))
    else if w.now >= k.deadline then
      var w' := MarkTimedOut(w, c).0;
      (w', Denied(TimedOutError(w', c)))
    else (w, Granted)
  }

  /** `try_request_stop_for_input_worker_loss` */
  function StopForWorkerLoss(w: World, c: nat): (r: (World, bool))
    requires c < |w.controls|
  {
    var k := w.controls[c];
    if w.stop || w.failureId != 0 || k.state != Pending then (w, false)
    else if w.now >= k.deadline then (MarkTimedOut(w, c).0, false)
    else (w.(stop := true), true)
  }

  // ----- runs -----

  datatype Action =
    | Tick(elapsed: nat)
    | Create(requestId: nat, timeout: nat, manual: bool, enqueued: bool)
    | Stop
    | SoftCancelOf(c: nat)
    | MarkOf(c: nat)
    | EnsureOf(c: nat, before: bool, after: bool)
    | AuthorizeOf(c: nat, before: bool, after: bool)
    | CleanupOf(c: nat)
    | WorkerLossOf(c: nat)
    | PublishOf(c: nat, how: Channel, reply: Reply, receiverOpen: bool)
    | FinishPublication
    | DropSender(c: nat)
    | WorkerExit

  /** Which replies the source publishes through which function. */
  predicate Publishable(k: Control, how: Channel, reply: Reply) {
    match how
    case AsCompleted => !reply.SoftCancelled? && (k.manual ==> reply == Succeeded)
    case AsSoftCancelled => k.manual && reply == SoftCancelled
    case AsFailed => k.manual && reply.Failed?
  }

  /** The guard of every timeout mark: the writer has failed or the control's deadline has passed. */
  predicate Overdue(w: World, c: nat)
    requires c < |w.controls|
  {
    w.failureId != 0 || w.now >= w.controls[c].deadline
  }

  predicate Enabled(w: World, a: Action) {
    match a
    case Tick(_) => true
    case Create(id, _, _, enqueued) => id != 0 && (enqueued ==> !w.workerGone)
    case FinishPublication => w.holder.Some? && w.holder.value < |w.controls|
    case Stop => w.holder.None?
    case WorkerExit => w.holder.None?
    case PublishOf(c, how, reply, _) =>
      w.holder.None? && c < |w.controls| && w.controls[c].open && Publishable(w.controls[c], how, reply)
    case MarkOf(c) => w.holder.None? && c < |w.controls| && Overdue(w, c)
    case DropSender(c) => w.holder.None? && c < |w.controls| && !w.controls[c].manual
    case _ => w.holder.None? && a.c < |w.controls|
  }

  function Step(w: World, a: Action): World {
    if !Enabled(w, a) then w else
    match a
    case Tick(d) => w.(now := w.now + d)
    case Create(id, timeout, manual, enqueued) =>
      w.(controls := w.controls + [Control(id, w.now + timeout, manual, Pending, false, false, [], enqueued)])
    case Stop => w.(stop := true)
    case SoftCancelOf(c) => RequestSoftCancel(w, c).0
    case MarkOf(c) => MarkTimedOut(w, c).0
    case EnsureOf(c, before, after) => EnsureActive(w, c, before, after).0
    case AuthorizeOf(c, before, after) => AuthorizeMutation(w, c, before, after).0
    case CleanupOf(c) => AuthorizeCleanup(w, c).0
    case WorkerLossOf(c) => StopForWorkerLoss(w, c).0
    case PublishOf(c, how, reply, receiverOpen) => PublishBegin(w, c, how, reply, receiverOpen).0
    case FinishPublication => PublishEnd(w)
    case DropSender(c) => SetControl(w, c, w.controls[c].(open := false))
    case WorkerExit =>
      w.(workerGone := true,
         controls := seq(|w.controls|, i requires 0 <= i < |w.controls| => w.controls[i].(open := false)))
  }

  function Run(w: World, acts: seq<Action>): World
    decreases |acts|
  {
    if acts == [] then w else Run(Step(w, acts[0]), acts[1..])
  }

  const INITIAL: World := World(0, false, 0, None, false, [], [])

  // ----- invariant and evolution -----

  predicate ControlInv(w: World, c: nat)
    requires c < |w.controls|
  {
    var k := w.controls[c];
    && k.requestId != 0
    && |k.sent| <= 1
    && (|k.sent| == 1 <==> k.state == Completed || w.holder == Some(c))
    && (k.state == TimedOut ==> w.failureId != 0)
    && (k.softCancel ==> Succeeded !in k.sent)
    && (SoftCancelled in k.sent ==> k.softCancel)
  }

  predicate HolderInv(w: World) {
    w.holder.Some? ==>
      && w.holder.value < |w.controls|
      && w.controls[w.holder.value].state == Pending
      && w.controls[w.holder.value].open
      && !w.stop && w.failureId == 0
  }

  /** The control that failed the writer: it timed out after its deadline had passed. */
  predicate FailedBy(w: World, c: nat) {
    && c < |w.controls| && w.controls[c].state == TimedOut && w.controls[c].requestId == w.failureId
    && w.controls[c].deadline <= w.now
  }

  ghost predicate FailureNamed(w: World) {
    w.failureId != 0 ==> exists c: nat :: FailedBy(w, c)
  }

  predicate CompletionOf(w: World, m: Completion) {
    && m.control < |w.controls|
    && w.controls[m.control].manual
    && w.controls[m.control].requestId == m.requestId
    && w.controls[m.control].sent == [m.reply]
  }

  /** The completion channel carries exactly the replies of the manual controls, once each. */
  ghost predicate CompletionsInv(w: World) {
    && (forall i {:trigger CompletionOf(w, w.completions[i])} :: 0 <= i < |w.completions| ==>
        CompletionOf(w, w.completions[i]))
    && (forall i, j :: 0 <= i < j < |w.completions| ==> w.completions[i].control != w.completions[j].control)
    && (forall c: nat {:trigger Announced(w, c)} ::
          c < |w.controls| && w.controls[c].manual && w.controls[c].sent != [] ==> Announced(w, c))
  }

  ghost predicate Announced(w: World, c: nat) {
    exists i :: 0 <= i < |w.completions| && w.completions[i].control == c
  }

  ghost predicate Inv(w: World) {
    && HolderInv(w)
    && (forall c: nat :: c < |w.controls| ==> ControlInv(w, c))
    && FailureNamed(w)
    && CompletionsInv(w)
    && (forall c: nat :: c < |w.controls| && w.workerGone ==> !w.controls[c].open)
  }

  /** What may happen to one control, given the flags before. */
  predicate ControlEvolves(w: World, a: Control, b: Control) {
    && b.requestId == a.requestId && b.deadline == a.deadline && b.manual == a.manual
    && (a.state != Pending ==> b.state == a.state)
    && (a.softCancel ==> b.softCancel)
    && (a.authorized ==> b.authorized)
    && a.sent <= b.sent
    && (b.open ==> a.open)
    && (!a.open ==> b.sent == a.sent)
    && (w.stop ==>
        b.state == a.state && b.sent == a.sent && b.softCancel == a.softCancel && b.authorized == a.authorized)
    && (w.failureId != 0 ==>
        && (b.state == Completed ==> a.state == Completed)
        && b.sent == a.sent && b.softCancel == a.softCancel && b.authorized == a.authorized)
  }

  ghost predicate Evolves(w: World, w': World) {
    && w.now <= w'.now
    && (w.stop ==> w'.stop)
    && (w.failureId != 0 ==> w'.failureId == w.failureId)
    && (w.workerGone ==> w'.workerGone)
    && |w.controls| <= |w'.controls|
    && (forall c: nat :: c < |w.controls| ==> ControlEvolves(w, w.controls[c], w'.controls[c]))
    && w.completions <= w'.completions
  }

  lemma EvolvesTransitive(a: World, b: World, c: World)
    requires Evolves(a, b) && Evolves(b, c)
    ensures Evolves(a, c)
  {
    forall i: nat | i < |a.controls|
      ensures ControlEvolves(a, a.controls[i], c.controls[i])
    {
      assert ControlEvolves(a, a.controls[i], b.controls[i]);
      assert ControlEvolves(b, b.controls[i], c.controls[i]);
    }
  }
}
