/**
 The deferred manual-correction handshake of `VirtualKeyboardWriter`: `begin` queues a
 correction and remembers it as pending, the worker publishes its completion, `poll` hands
 the completion to the caller.
 */
module ManualCorrections {
  import opened Common
  import opened Protocol
  import opened ProtocolProofs

  const U64: nat := 0x1_0000_0000_0000_0000
  const MAX_TRANSACTION_MS: nat := 5000

  datatype PendingCorrection = PendingCorrection(control: nat, completion: Option<Completion>)

  datatype StartResult = Started(requestId: nat) | RejectedBeforeMutation | StartFailed(error: Error)

  datatype PollResult = NoCompletion | Polled(completion: Completion) | PollFailed(error: Error)

  datatype SendOutcome = Sent | QueueFull | QueueClosed

  /** `take_next_nonzero_request_id`, in 64 bits: the counter's own value, or the next one when that is zero. */
  method TakeNextNonzero(counter: nat) returns (id: nat, next: nat)
    requires counter < U64
    ensures id == if counter == 0 then 1 else counter
    ensures next == (id + 1) % U64
  {
    next := counter;
    while true
      invariant next == counter || (counter == 0 && next == 1)
      decreases next == 0
    {
      id := next;
      next := (next + 1) % U64;
      if id != 0 {
        return;
      }
    }
  }

  /** The id of the k-th draw from a counter that starts at 1, and the counter after k draws. */
  function IdAt(k: nat): nat {
    k % (U64 - 1) + 1
  }

  function CounterAt(k: nat): nat {
    if k == 0 then 1 else (IdAt(k - 1) + 1) % U64
  }

  lemma DrawsInOrder(k: nat)
    ensures CounterAt(k) < U64 && IdAt(k) == if CounterAt(k) == 0 then 1 else CounterAt(k)
  {
    if k > 0 {
      Successor(k - 1, U64 - 1);
    }
  }

  lemma NextCounter(k: nat)
    ensures CounterAt(k + 1) == (IdAt(k) + 1) % U64
  {
  }

  lemma Successor(k: nat, m: nat)
    requires m > 1
    ensures (k + 1) % m == if k % m == m - 1 then 0 else k % m + 1
  {
    var q, r := k / m, k % m;
    if r == m - 1 {
      assert k + 1 == (q + 1) * m;
      ModOf(q + 1, 0, m);
    } else {
      assert k + 1 == q * m + (r + 1);
      ModOf(q, r + 1, m);
    }
  }

  lemma ModOf(q: nat, r: nat, m: nat)
    requires r < m
    ensures (q * m + r) % m == r
  {
    var k := q * m + r;
    var d := q - k / m;
    assert d * m == k % m - r;
    AtLeastOnce(d, m);
  }

  lemma AtLeastOnce(d: int, m: nat)
    ensures (d >= 1 ==> d * m >= m) && (d <= -1 ==> d * m <= -(m as int))
  {
  }

  /** Two draws give the same id exactly when they are a multiple of 2^64 - 1 apart. */
  lemma SameIdIff(i: nat, j: nat)
    requires i <= j
    ensures IdAt(i) == IdAt(j) <==> (j - i) % (U64 - 1) == 0
  {
    var m := U64 - 1;
    var a, b := i / m, j / m;
    assert j - i == (b - a) * m + (j % m - i % m);
    if i % m == j % m {
      assert j - i == (b - a) * m;
      assert b >= a;
      ModOf(b - a, 0, m);
    } else if (j - i) % m == 0 {
      var d := (j - i) / m;
      assert j == (a + d) * m + i % m;
      ModOf(a + d, i % m, m);
    }
  }

  /** The started corrections carry the ids of their draws, and so do the polled completions. */
  ghost predicate IdsMatch(w: World, started: seq<nat>, polled: seq<Completion>, draws: seq<nat>, drawn: nat) {
    && |draws| == |started| && |polled| <= |started|
    && (forall i :: 0 <= i < |started| ==>
          && started[i] < |w.controls| && w.controls[started[i]].requestId == IdAt(draws[i]) && draws[i] < drawn)
    && (forall i, j :: 0 <= i < j < |draws| ==> draws[i] < draws[j])
    && (forall i :: 0 <= i < |polled| ==> polled[i].requestId == IdAt(draws[i]))
  }

  lemma IdsStay(w: World, w': World, started: seq<nat>, polled: seq<Completion>, draws: seq<nat>, drawn: nat)
    requires IdsMatch(w, started, polled, draws, drawn) && Evolves(w, w')
    ensures IdsMatch(w', started, polled, draws, drawn)
  {
    hide IdAt;
    forall i | 0 <= i < |started|
      ensures started[i] < |w'.controls| && w'.controls[started[i]].requestId == IdAt(draws[i])
    {
      assert ControlEvolves(w, w.controls[started[i]], w'.controls[started[i]]);
    }
  }

  /** A draw without a start, and a start with its draw. */
  lemma IdsGrow(w: World, started: seq<nat>, polled: seq<Completion>, draws: seq<nat>, drawn: nat, c: nat)
    requires IdsMatch(w, started, polled, draws, drawn)
    ensures IdsMatch(w, started, polled, draws, drawn + 1)
    ensures c < |w.controls| && w.controls[c].requestId == IdAt(drawn) ==>
              IdsMatch(w, started + [c], polled, draws + [drawn], drawn + 1)
  {
    hide IdAt;
  }

  /** Only `begin` makes manual controls, so the other threads never do. */
  predicate OtherThread(a: Action) {
    a.Create? ==> !a.manual
  }

  /** Every manual control except the pending one has had its reply, or can never have one. */
  ghost predicate OnlyPendingCanPublish(w: World, pending: Option<nat>) {
    forall c: nat :: c < |w.controls| && w.controls[c].manual && pending != Some(c) ==>
      !w.controls[c].open || w.controls[c].sent != []
  }

  ghost function Unread(w: World, taken: nat): seq<Completion>
    requires taken <= |w.completions|
  {
    w.completions[taken..]
  }

  /** The channel holds the pending control's reply, if it has one, and nothing else. */
  ghost predicate ChannelMatches(w: World, taken: nat, pending: Option<PendingCorrection>) {
    && taken <= |w.completions|
    && match pending
       case None => Unread(w, taken) == []
       case Some(p) =>
         && p.control < |w.controls| && w.controls[p.control].manual
         && match p.completion
            case Some(m) => m.control == p.control && CompletionOf(w, m) && Unread(w, taken) == []
            case None =>
              if w.controls[p.control].sent == [] then Unread(w, taken) == []
              else |Unread(w, taken)| == 1 && Unread(w, taken)[0].control == p.control
  }

  function PendingControl(pending: Option<PendingCorrection>): Option<nat> {
    if pending.Some? then Some(pending.value.control) else None
  }

  predicate StateKept(w: World, w': World, c: nat) {
    && (w.stop ==> w'.stop) && (w.failureId != 0 ==> w'.failureId == w.failureId) && (w.workerGone ==> w'.workerGone)
    && (c < |w.controls| ==>
        && c < |w'.controls| && w'.controls[c].requestId == w.controls[c].requestId
        && (w.controls[c].softCancel ==> w'.controls[c].softCancel)
        && (w.controls[c].state != Pending ==> w'.controls[c].state == w.controls[c].state))
  }

  lemma {:induction false} NoNewManual(w: World, acts: seq<Action>)
    requires Inv(w) && forall i :: 0 <= i < |acts| ==> OtherThread(acts[i])
    ensures |w.controls| <= |Run(w, acts).controls|
    ensures forall c: nat :: |w.controls| <= c < |Run(w, acts).controls| ==> !Run(w, acts).controls[c].manual
    ensures forall c: nat :: c < |w.controls| ==> Run(w, acts).controls[c].manual == w.controls[c].manual
    decreases |acts|
  {
    hide Inv, Step;
    RunKeeps(w, acts);
    if acts != [] {
      var w1, w' := Step(w, acts[0]), Run(w, acts);
      StepKeeps(w, acts[0]);
      StepAddsNoManual(w, acts[0]);
      NoNewManual(w1, acts[1..]);
    }
  }

  lemma StepAddsNoManual(w: World, a: Action)
    requires OtherThread(a)
    ensures forall c: nat :: |w.controls| <= c < |Step(w, a).controls| ==> !Step(w, a).controls[c].manual
  {
  }

  /** Why a poll may fail for a pending control. */
  predicate PollExcuse(error: Error, w: World, session: bool, health: Option<Error>) {
    health == Some(error) ||
    match error
    case SessionLost => !session
    case Disconnected => w.stop || w.workerGone
    case TimedOutBy(id) => id == w.failureId != 0
    case _ => false
  }

  /** When a poll reports no completion: the control is pending, the channel open, and everything healthy. */
  predicate Unfinished(k: Control, closed: bool, before: bool, after: bool, health: Option<Error>) {
    k.state == Pending && !closed && health.None? && before && (after || k.softCancel)
  }

  lemma TimedOutNames(w: World, c: nat)
    requires Inv(w) && c < |w.controls| && w.controls[c].state == TimedOut
    ensures w.failureId != 0 && TimedOutError(w, c) == TimedOutBy(w.failureId)
  {
    assert ControlInv(w, c);
  }

  /** A new manual control: pending it is the one that can publish, without a sender it never does. */
  lemma NewControlKeepsChannel(w: World, k: Control, taken: nat)
    requires ChannelMatches(w, taken, None) && OnlyPendingCanPublish(w, None) && k.manual && k.sent == []
    ensures var w' := w.(controls := w.controls + [k]); var c := |w.controls|;
            && ChannelMatches(w', taken, Some(PendingCorrection(c, None))) && OnlyPendingCanPublish(w', Some(c))
            && (!k.open ==> ChannelMatches(w', taken, None) && OnlyPendingCanPublish(w', None))
  {
    var w' := w.(controls := w.controls + [k]);
    assert forall c: nat :: c < |w.controls| ==> w'.controls[c] == w.controls[c];
  }

  lemma HolderExists(w: World)
    requires Inv(w) && w.holder.Some?
    ensures w.holder.value < |w.controls|
  {
  }

  lemma EvolvesKeepsState(w: World, w': World, c: nat)
    requires Evolves(w, w')
    ensures StateKept(w, w', c)
  {
  }

  /** A message that was not in the channel before belongs to the pending control, which had no reply before. */
  lemma NewMessageIsPending(w: World, w': World, pending: Option<nat>, i: nat)
    requires Inv(w) && Inv(w') && Evolves(w, w') && OnlyPendingCanPublish(w, pending)
    requires forall c: nat :: |w.controls| <= c < |w'.controls| ==> !w'.controls[c].manual
    requires |w.completions| <= i < |w'.completions|
    ensures pending == Some(w'.completions[i].control)
    ensures pending.value < |w.controls| && w.controls[pending.value].sent == []
  {
    var m := w'.completions[i];
    assert CompletionOf(w', m);
    assert ControlEvolves(w, w.controls[m.control], w'.controls[m.control]);
    assert forall k :: 0 <= k < |w.completions| ==> w.completions[k] == w'.completions[k];
    assert !Announced(w, m.control);
  }

  /** The channel grows by the pending control's reply when it is published, and by nothing else. */
  lemma ChannelGrowth(w: World, w': World, c: nat)
    requires Inv(w) && Inv(w') && Evolves(w, w') && OnlyPendingCanPublish(w, Some(c))
    requires forall k: nat :: |w.controls| <= k < |w'.controls| ==> !w'.controls[k].manual
    requires c < |w.controls| && w.controls[c].manual
    ensures if w.controls[c].sent == [] && w'.controls[c].sent != []
            then |w'.completions| == |w.completions| + 1 && w'.completions[|w.completions|].control == c
            else w'.completions == w.completions
  {
    var n := |w.completions|;
    assert ControlEvolves(w, w.controls[c], w'.controls[c]);
    if |w'.completions| == n {
      if w'.controls[c].sent != [] {
        assert Announced(w', c);
        var i :| 0 <= i < n && w'.completions[i].control == c;
        assert CompletionOf(w, w.completions[i]);
      }
    } else {
      NewMessageIsPending(w, w', Some(c), n);
      assert CompletionOf(w', w'.completions[n]);
      if |w'.completions| > n + 1 {
        NewMessageIsPending(w, w', Some(c), n + 1);
        assert false;
      }
    }
  }

  /** The other threads keep the handshake's view of the channel. */
  lemma OthersKeepChannel(w: World, acts: seq<Action>, taken: nat, pending: Option<PendingCorrection>)
    requires Inv(w) && ChannelMatches(w, taken, pending) && OnlyPendingCanPublish(w, PendingControl(pending))
    requires forall i :: 0 <= i < |acts| ==> OtherThread(acts[i])
    ensures var w' := Run(w, acts);
            && Inv(w') && Evolves(w, w')
            && ChannelMatches(w', taken, pending) && OnlyPendingCanPublish(w', PendingControl(pending))
  {
    var w' := Run(w, acts);
    RunKeeps(w, acts);
    NoNewManual(w, acts);
    ChannelFollows(w, w', taken, pending);
    assert forall c: nat :: c < |w.controls| ==> ControlEvolves(w, w.controls[c], w'.controls[c]);
  }

  lemma ChannelFollows(w: World, w': World, taken: nat, pending: Option<PendingCorrection>)
    requires Inv(w) && Inv(w') && Evolves(w, w')
    requires ChannelMatches(w, taken, pending) && OnlyPendingCanPublish(w, PendingControl(pending))
    requires forall k: nat :: |w.controls| <= k < |w'.controls| ==> !w'.controls[k].manual
    ensures ChannelMatches(w', taken, pending)
  {
    if pending.None? {
      if |w'.completions| > |w.completions| {
        NewMessageIsPending(w, w', None, |w.completions|);
        assert false;
      }
    } else {
      var c := pending.value.control;
      assert ControlInv(w', c) && ControlEvolves(w, w.controls[c], w'.controls[c]);
      ChannelGrowth(w, w', c);
      if |w'.completions| > |w.completions| {
        assert Unread(w', taken) == Unread(w, taken) + [w'.completions[|w.completions|]];
      }
    }
  }

  /** Every started correction but the pending one has been polled, once, in the order of starting. */
  ghost predicate InOrder(started: seq<nat>, polled: seq<Completion>, pending: Option<nat>) {
    && |started| == |polled| + (if pending.Some? then 1 else 0)
    && (forall i :: 0 <= i < |polled| ==> polled[i].control == started[i])
    && (pending.Some? ==> started[|polled|] == pending.value)
  }

  lemma StartsInOrder(started: seq<nat>, polled: seq<Completion>, c: nat)
    requires InOrder(started, polled, None)
    ensures InOrder(started + [c], polled, Some(c))
  {
  }

  class ManualWriter {
    var world: World
    var pending: Option<PendingCorrection>
    var taken: nat
    var nextRequestId: nat
    ghost var started: seq<nat>         // controls for which `begin` answered Started, in order
    ghost var polled: seq<Completion>   // completions handed out by `poll`, in order
    ghost var drawn: nat                // ids drawn from the counter
    ghost var draws: seq<nat>           // the draw of each started correction

    ghost predicate Valid()
      reads this
    {
      && Inv(world)
      && ChannelMatches(world, taken, pending)
      && OnlyPendingCanPublish(world, PendingControl(pending))
      && nextRequestId == CounterAt(drawn)
      && IdsMatch(world, started, polled, draws, drawn)
      && InOrder(started, polled, PendingControl(pending))
    }

    constructor ()
      ensures Valid() && world == INITIAL && pending.None? && started == [] && polled == [] && drawn == 0
    {
      world := INITIAL;
      pending := None;
      taken := 0;
      nextRequestId := 1;
      started, polled, drawn, draws := [], [], 0, [];
    }

    /** As long as fewer than 2^64 ids were drawn, no id is given to two corrections or handed out with two
        completions. */
    lemma OneCompletionPerId(i: nat, j: nat)
      requires Valid() && drawn < U64 && i < j < |started|
      ensures started[i] < |world.controls| && started[j] < |world.controls|
      ensures world.controls[started[i]].requestId != world.controls[started[j]].requestId
      ensures j < |polled| ==> polled[i].requestId != polled[j].requestId
    {
      SameIdIff(draws[i], draws[j]);
    }

    /** Any number of steps of the other threads; `gate` asks to wait until no publication is half done. */
    method Interfere(gate: bool, ghost origin: World)
      requires Valid() && Evolves(origin, world)
      modifies this`world
      ensures Valid() && Evolves(origin, world) && (gate ==> world.holder.None?)
      ensures pending.Some? ==> StateKept(old(world), world, pending.value.control)
    {
      hide Inv, Evolves, ChannelMatches, OnlyPendingCanPublish, IdsMatch, CounterAt;
      var acts: seq<Action> := *;
      if exists i :: 0 <= i < |acts| && !OtherThread(acts[i]) {
        acts := [];
      }
      OthersKeepChannel(world, acts, taken, pending);
      IdsStay(world, Run(world, acts), started, polled, draws, drawn);
      EvolvesTransitive(origin, world, Run(world, acts));
      if pending.Some? {
        EvolvesKeepsState(world, Run(world, acts), pending.value.control);
      }
      world := Run(world, acts);
      if gate && world.holder.Some? {
        HolderExists(world);
        Section(FinishPublication, origin);
      }
    }

    /** A gate-held section of this thread, on the pending control. */
    method Section(a: Action, ghost origin: World)
      requires Valid() && Evolves(origin, world) && OtherThread(a)
      modifies this`world
      ensures world == Step(old(world), a)
      ensures Valid() && Evolves(origin, world)
      ensures pending.Some? ==> StateKept(old(world), world, pending.value.control)
    {
      hide Inv, Evolves, ChannelMatches, OnlyPendingCanPublish, IdsMatch, CounterAt, Step;
      assert Run(world, [a]) == Run(Step(world, a), [a][1..]);
      OthersKeepChannel(world, [a], taken, pending);
      IdsStay(world, Step(world, a), started, polled, draws, drawn);
      if pending.Some? {
        EvolvesKeepsState(world, Step(world, a), pending.value.control);
      }
      EvolvesTransitive(origin, world, Step(world, a));
      world := Step(world, a);
    }

    /** `begin_manual_current_word_correction_with_timeout`; `alive` and `sent` are what the handle reports. */
    method Begin(timeout: nat, alive: Option<Error>, sent: SendOutcome) returns (r: StartResult)
      requires Valid() && (sent.Sent? ==> !world.workerGone)
      modifies this
      ensures Valid() && polled == old(polled)
      ensures r.Started? ==>
        && old(pending).None? && r.requestId != 0
        && pending == Some(PendingCorrection(|old(world).controls|, None))
        && started == old(started) + [|old(world).controls|]
        && pending.value.control < |world.controls|
        && world.controls[pending.value.control] ==
           Control(r.requestId, world.now + Min(timeout, 5000), true, Pending, false, false, [], true)
      ensures !r.Started? ==> pending == old(pending) && started == old(started)
      ensures r.Started? <==> alive.None? && old(pending).None? && sent.Sent?
      ensures r.StartFailed? <==> alive.Some? || (old(pending).None? && sent.QueueClosed?)
      ensures r.StartFailed? ==> r.error == if alive.Some? then alive.value else Disconnected
      // an id is drawn for every command that is offered to the queue
      ensures drawn == old(drawn) + if alive.None? && old(pending).None? then 1 else 0
      ensures r.Started? ==>
        && r.requestId == (if old(nextRequestId) == 0 then 1 else old(nextRequestId))
        && nextRequestId == (r.requestId + 1) % U64 && draws == old(draws) + [old(drawn)]
    {
      hide Inv, Evolves, IdsMatch, IdAt, CounterAt, ChannelMatches, OnlyPendingCanPublish, InOrder;
      if alive.Some? {
        return StartFailed(alive.value);
      }
      if pending.Some? {
        return RejectedBeforeMutation;
      }
      DrawsInOrder(drawn);
      NextCounter(drawn);
      var id;
      id, nextRequestId := TakeNextNonzero(nextRequestId);
      var control := Control(id, world.now + Min(timeout, MAX_TRANSACTION_MS), true, Pending, false, false, [],
                             sent.Sent?);
      CreateKeeps(world, control);
      NewControlKeepsChannel(world, control, taken);
      StartsInOrder(started, polled, |world.controls|);
      ghost var before := world;
      world := world.(controls := world.controls + [control]);
      IdsStay(before, world, started, polled, draws, drawn);
      IdsGrow(world, started, polled, draws, drawn, |before.controls|);
      drawn := drawn + 1;
      match sent {
        case Sent =>
          pending := Some(PendingCorrection(|world.controls| - 1, None));
          started, draws := started + [|before.controls|], draws + [drawn - 1];
          return Started(id);
        case QueueClosed => return StartFailed(Disconnected);
        case QueueFull => return RejectedBeforeMutation;
      }
    }

    /** `request_manual_current_word_cancel` */
    method RequestCancel(requestId: nat) returns (answer: SoftCancelAnswer)
      requires Valid()
      modifies this`world
      ensures Valid() && Evolves(old(world), world)
      ensures pending.Some? ==> pending.value.control < |world.controls|
      ensures pending.Some? && world.controls[pending.value.control].requestId == requestId ==>
        var k := world.controls[pending.value.control];
        && (answer.AlreadyDone? ==> k.state == Completed)
        && (answer.AlreadyRequested? ==> k.softCancel)
        && (answer.Terminal? ==> world.stop || world.failureId != 0)
      ensures answer == Requested ==>
        && pending.Some? && world.controls[pending.value.control].requestId == requestId
        && world.controls[pending.value.control].softCancel && world.controls[pending.value.control].sent == []
    {
      hide IdsMatch, CounterAt, OnlyPendingCanPublish;
      StepKeeps(world, Tick(0));
      if pending.None? || world.controls[pending.value.control].requestId != requestId {
        return AlreadyDone;
      }
      var c := pending.value.control;
      Interfere(true, old(world));
      answer := RequestSoftCancel(world, c).1;
      assert ControlInv(world, c);
      Section(SoftCancelOf(c), old(world));
    }

    /** `ensure_active` on the pending control; the session is checked before and after the flags. */
    method CheckActive(before: bool, after: bool, ghost origin: World) returns (permit: Permit)
      requires Valid() && Evolves(origin, world) && pending.Some? && pending.value.control < |world.controls|
      modifies this`world
      ensures Valid() && Evolves(origin, world) && StateKept(old(world), world, pending.value.control)
      ensures permit.Granted? ==> before && after
      ensures permit.Denied? ==>
        var k := world.controls[pending.value.control];
        || (permit.error == AlreadyCompleted(k.requestId) && k.state == Completed)
        || (permit.error == CancelledRequest(k.requestId) && k.softCancel && before)
        || PollExcuse(permit.error, world, before && after, None)
    {
      hide Inv, Evolves, ChannelMatches, OnlyPendingCanPublish, IdsMatch, CounterAt, InOrder;
      var c := pending.value.control;
      Interfere(true, origin);
      if before {
        DenialReasons(world, c, after);
      }
      permit := EnsureActive(world, c, before, after).1;
      Section(EnsureOf(c, before, after), origin);
    }

    /** The pending control still counts as Pending: decide what to report, or ask to look again. */
    method PollPending(closed: bool, before: bool, after: bool, health: Option<Error>, ghost origin: World)
      returns (r: Option<PollResult>)
      requires Valid() && Evolves(origin, world) && pending.Some? && pending.value.control < |world.controls|
      requires closed ==> world.workerGone
      modifies this`world
      ensures Valid() && Evolves(origin, world)
      ensures pending.value.control < |world.controls|
      ensures (r.None? ==> world.controls[pending.value.control].state == Completed) && (closed ==> world.workerGone)
      ensures r.Some? ==> !r.value.Polled? && world.controls[pending.value.control].state != Completed
      ensures r == Some(NoCompletion) ==>
        Unfinished(world.controls[pending.value.control], closed, before, after, health)
      ensures r.Some? && r.value.PollFailed? ==> PollExcuse(r.value.error, world, before && after, health)
    {
      hide Inv, Evolves, ChannelMatches, OnlyPendingCanPublish, IdsMatch, CounterAt, InOrder;
      var c := pending.value.control;
      var permit := CheckActive(before, after, origin);
      if permit.Denied? {
        Interfere(false, origin);
        if world.controls[c].state == Completed {
          return None;
        }
        if permit.error != CancelledRequest(world.controls[c].requestId) {
          return Some(PollFailed(permit.error));
        }
      }
      if closed {
        Interfere(false, origin);
        return if world.controls[c].state == Completed then None else Some(PollFailed(Disconnected));
      }
      Interfere(false, origin);
      if world.controls[c].state == TimedOut {
        TimedOutNames(world, c);
      }
      return match world.controls[c].state
        case Completed => None
        case TimedOut => Some(PollFailed(TimedOutError(world, c)))
        case Pending => Some(if health.Some? then PollFailed(health.value) else NoCompletion);
    }

    /** The pending control is Completed: its completion is at hand or waiting in the channel. */
    method TakeCompletion() returns (m: Completion)
      requires Valid() && pending.Some? && pending.value.control < |world.controls|
      requires world.controls[pending.value.control].state == Completed
      modifies this
      ensures Valid() && world == old(world) && pending.None? && started == old(started)
      ensures m.control == old(pending).value.control && m.control < |world.controls| && CompletionOf(world, m)
      ensures polled == old(polled) + [m]
    {
      var c := pending.value.control;
      assert ControlInv(world, c);
      if pending.value.completion.Some? {
        m := pending.value.completion.value;
      } else {
        m := world.completions[taken];
        assert m == Unread(world, taken)[0];
        assert CompletionOf(world, m);
        taken := taken + 1;
      }
      pending := None;
      polled := polled + [m];
    }

    /** The `try_recv` at the head of `poll`: with nothing pending the channel is empty, and a message
        always belongs to the pending request, so the request-mismatch branch is unreachable. */
    method ReceiveCompletion() returns (closed: bool)
      requires Valid()
      modifies this
      ensures Valid() && world == old(world) && started == old(started) && polled == old(polled)
      ensures PendingControl(pending) == PendingControl(old(pending))
      ensures pending.Some? ==> pending.value.control < |world.controls|
      ensures closed ==> world.workerGone
    {
      if taken == |world.completions| {
        return world.workerGone;
      }
      assert pending.Some? && world.completions[taken] == Unread(world, taken)[0];
      var m := world.completions[taken];
      assert CompletionOf(world, m) && m.requestId == world.controls[pending.value.control].requestId;
      taken := taken + 1;
      pending := Some(PendingCorrection(pending.value.control, Some(m)));
      return false;
    }

    /** `poll_manual_current_word_completion`.  A completed correction is handed out by the next poll; no completion
        means that it is still pending, and a failure has a reason.  `before`, `after`, `health` and `alive` are what
        the session lease, the health check and the handle answer. */
    method Poll(before: bool, after: bool, health: Option<Error>, alive: Option<Error>) returns (r: PollResult)
      requires Valid()
      modifies this
      ensures Valid() && Evolves(old(world), world) && started == old(started)
      ensures r.Polled? ==>
        && old(pending).Some? && pending.None? && polled == old(polled) + [r.completion]
        && r.completion.control == old(pending).value.control
        && CompletionOf(world, r.completion)
        && world.controls[r.completion.control].state == Completed
      ensures !r.Polled? ==> polled == old(polled) && PendingControl(pending) == PendingControl(old(pending))
      ensures !r.Polled? && pending.Some? ==>
        && pending.value.control < |world.controls| && world.controls[pending.value.control].state != Completed
        && (r.NoCompletion? ==> Unfinished(world.controls[pending.value.control], false, before, after, health))
        && (r.PollFailed? ==> PollExcuse(r.error, world, before && after, health))
      ensures r.NoCompletion? && pending.None? ==> alive.None?
      ensures r.PollFailed? && pending.None? ==>
        (world.workerGone && r.error == Disconnected) || alive == Some(r.error)
    {
      hide Inv, Evolves, ChannelMatches, OnlyPendingCanPublish, IdsMatch, CounterAt, CompletionOf;
      ghost var origin := world;
      EvolvesReflexive(world);
      Interfere(false, origin);
      var closed := ReceiveCompletion();
      if pending.None? {
        return if closed then PollFailed(Disconnected)
               else if alive.Some? then PollFailed(alive.value)
               else NoCompletion;
      }
      var c := pending.value.control;
      while true
        invariant Valid() && Evolves(origin, world) && started == old(started) && polled == old(polled)
        invariant pending.Some? && pending.value.control == c < |world.controls|
        invariant PendingControl(old(pending)) == Some(c) && (closed ==> world.workerGone)
        decreases if world.controls[c].state == Completed then 0 else 1
      {
        Interfere(false, origin);
        if world.controls[c].state == TimedOut {
          TimedOutNames(world, c);
          return PollFailed(TimedOutError(world, c));
        }
        if world.controls[c].state == Completed {
          var m := TakeCompletion();
          return Polled(m);
        }
        var result := PollPending(closed, before, after, health, origin);
        if result.Some? {
          return result.value;
        }
      }
    }
  }
}
