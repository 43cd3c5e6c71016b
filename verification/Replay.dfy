/**
 Correction replay: the operation that a correction plan is replayed through, and the
 generic (uinput) and Cinnamon strategies.

 Every fallible call may succeed or fail; the operation logs each attempt with its
 outcome.  The other fields are folds of that log: the presses still open, the total
 of all sleeps, the key-downs and physical releases issued, the failed calls, and the
 state of the desktop that receives the keys.  The keys themselves go through `core`,
 the ledger of the synthetic operation, which the correction's finish settles.

 Permits and checkpoints are sections of the writer's protocol on the transaction's
 control.  `world` is the protocol's state, which the other threads change between any
 two calls, and `seen` the worlds in which the logged calls were made.
 */
module Replay {
  import opened Common
  import opened Keys
  import opened Desktop
  import opened Schedule
  import opened SyntheticOperations
  import Protocol
  import ProtocolProofs

  datatype Act =
    | Check                       // ensure_transaction_active
    | Permit                      // authorize_transaction_mutation
    | Press(key: Key, id: nat)
    | Release(key: Key, id: nat)
    | Lift(key: Key)              // temporarily_release_physical_modifier
    | MarkDebt(key: Key)          // the session ledger's note of a lifted modifier
    | Sleep(ms: nat)
    | Query(answer: nat)          // an X11 round trip and what it reported
    | Prepare                     // the announcement of the plan
    | Latch(group: nat)

  datatype Event = Event(act: Act, ok: bool)

  datatype PlanStep = PhysicalRelease(key: Key) | Prepared(key: Key)

  predicate Mutates(a: Act) {
    a.Press? || a.Lift? || a.Latch?
  }

  /** The stack of presses without a release attempt; None once a release was out of order. */
  function OpenStep(open: Option<seq<nat>>, e: Event): Option<seq<nat>> {
    if open.None? then None
    else if e.act.Press? && e.ok then Some(open.value + [e.act.id])
    else if e.act.Release? then
      var n := |open.value|;
      if n > 0 && open.value[n - 1] == e.act.id then Some(open.value[..n - 1]) else None
    else open
  }

  function OpenAfter(log: seq<Event>): Option<seq<nat>> {
    if log == [] then Some([]) else OpenStep(OpenAfter(log[..|log| - 1]), log[|log| - 1])
  }

  function Ms(a: Act): nat {
    if a.Sleep? then a.ms else 0
  }

  function SleepTotal(log: seq<Event>): nat {
    if log == [] then 0 else SleepTotal(log[..|log| - 1]) + Ms(log[|log| - 1].act)
  }

  function StepsOf(a: Act): seq<PlanStep> {
    match a
    case Press(key, _) => [Prepared(key)]
    case Lift(key) => [PhysicalRelease(key)]
    case _ => []
  }

  function IssuedBy(log: seq<Event>): seq<PlanStep> {
    if log == [] then [] else IssuedBy(log[..|log| - 1]) + StepsOf(log[|log| - 1].act)
  }

  function Latches(log: seq<Event>): nat {
    if log == [] then 0 else Latches(log[..|log| - 1]) + (if log[|log| - 1].act.Latch? then 1 else 0)
  }

  /** The lifted modifiers that the session ledger was told of. */
  function Marked(log: seq<Event>): seq<Key> {
    if log == [] then []
    else Marked(log[..|log| - 1]) + if log[|log| - 1].act.MarkDebt? then [log[|log| - 1].act.key] else []
  }

  lemma MarkedMore(log: seq<Event>, e: Event)
    ensures Marked(log + [e]) == Marked(log) + if e.act.MarkDebt? then [e.act.key] else []
  {
    assert (log + [e])[..|log|] == log;
  }

  /** The checkpoints that were passed. */
  function Passed(log: seq<Event>): nat {
    if log == [] then 0 else Passed(log[..|log| - 1]) + (if log[|log| - 1] == Event(Check, true) then 1 else 0)
  }

  function Failures(log: seq<Event>): nat {
    if log == [] then 0 else Failures(log[..|log| - 1]) + (if log[|log| - 1].ok then 0 else 1)
  }

  /** The desktop's reaction to a call that succeeded. */
  function React(keymap: Keymap, h: Host, a: Act): Host {
    match a
    case Press(key, _) => KeyDown(keymap, h, key)
    case Release(key, _) => KeyUp(h, key)
    case Lift(key) => KeyUp(h, key)
    case Latch(group) => h.(group := group)
    case _ => h
  }

  function HostAfter(keymap: Keymap, h: Host, log: seq<Event>): Host {
    if log == [] then h
    else
      var before := HostAfter(keymap, h, log[..|log| - 1]);
      if log[|log| - 1].ok then React(keymap, before, log[|log| - 1].act) else before
  }

  /** Every key-down, physical release and latch directly follows a granted permit. */
  predicate PermitsFirst(log: seq<Event>) {
    forall i :: 0 <= i < |log| && Mutates(log[i].act) ==> i > 0 && log[i - 1] == Event(Permit, true)
  }

  /** The folds after one more event. */
  lemma FoldsMore(keymap: Keymap, h: Host, log: seq<Event>, e: Event)
    ensures OpenAfter(log + [e]) == OpenStep(OpenAfter(log), e)
    ensures SleepTotal(log + [e]) == SleepTotal(log) + Ms(e.act)
    ensures IssuedBy(log + [e]) == IssuedBy(log) + StepsOf(e.act)
    ensures Latches(log + [e]) == Latches(log) + (if e.act.Latch? then 1 else 0)
    ensures Failures(log + [e]) == Failures(log) + (if e.ok then 0 else 1)
    ensures Passed(log + [e]) == Passed(log) + (if e == Event(Check, true) then 1 else 0)
    ensures var before := HostAfter(keymap, h, log);
            HostAfter(keymap, h, log + [e]) == if e.ok then React(keymap, before, e.act) else before
  {
    assert (log + [e])[..|log|] == log;
    hide OpenStep, StepsOf, React, Ms;
  }

  lemma PermitsFirstMore(log: seq<Event>, e: Event)
    requires PermitsFirst(log)
    requires Mutates(e.act) ==> |log| > 0 && log[|log| - 1] == Event(Permit, true)
    ensures PermitsFirst(log + [e])
  {
    var more := log + [e];
    assert forall i :: 0 <= i < |log| ==> more[i] == log[i];
  }

  // ----- permits -----

  /** No mutation permit for the control any more. */
  predicate BlockedAt(w: Protocol.World, c: nat) {
    c < |w.controls| && ProtocolProofs.Blocked(w, c)
  }

  /** The worlds of the logged calls: permits were granted to an unblocked control, and blocked is for good. */
  ghost predicate Witnessed(log: seq<Event>, seen: seq<Protocol.World>, w: Protocol.World, c: nat) {
    && |seen| == |log| && c < |w.controls|
    && (forall i :: 0 <= i < |seen| && BlockedAt(seen[i], c) ==> BlockedAt(w, c))
    && (forall i, j :: 0 <= i <= j < |seen| && BlockedAt(seen[i], c) ==> BlockedAt(seen[j], c))
    && (forall i :: 0 <= i < |log| && log[i] == Event(Permit, true) ==> !BlockedAt(seen[i], c))
  }

  lemma BlockedStays(w: Protocol.World, w': Protocol.World, c: nat)
    requires Protocol.Evolves(w, w') && c < |w.controls|
    ensures c < |w'.controls| && (BlockedAt(w, c) ==> BlockedAt(w', c))
  {
    assert Protocol.ControlEvolves(w, w.controls[c], w'.controls[c]);
  }

  lemma WitnessedLater(log: seq<Event>, seen: seq<Protocol.World>, w: Protocol.World, w': Protocol.World, c: nat)
    requires Witnessed(log, seen, w, c) && Protocol.Evolves(w, w')
    ensures Witnessed(log, seen, w', c)
  {
    BlockedStays(w, w', c);
    hide Protocol.Evolves, BlockedAt;
  }

  lemma WitnessedMore(log: seq<Event>, seen: seq<Protocol.World>, w: Protocol.World, c: nat, e: Event)
    requires Witnessed(log, seen, w, c) && (e == Event(Permit, true) ==> !BlockedAt(w, c))
    ensures Witnessed(log + [e], seen + [w], w, c)
  {
    hide BlockedAt;
  }

  /** Once the control is blocked, no key-down, lift or latch begins. */
  ghost predicate Obedient(log: seq<Event>, seen: seq<Protocol.World>, c: nat) {
    |seen| == |log| && forall i, j :: 0 <= i < j < |log| && BlockedAt(seen[i], c) ==> !Mutates(log[j].act)
  }

  /** Because every one of them directly follows a permit, and a permit is never granted to a blocked control. */
  lemma PermitsMakeObedient(log: seq<Event>, seen: seq<Protocol.World>, w: Protocol.World, c: nat)
    requires PermitsFirst(log) && Witnessed(log, seen, w, c)
    ensures Obedient(log, seen, c)
  {
    hide BlockedAt;
    forall i, j | 0 <= i < j < |log| && BlockedAt(seen[i], c) ensures !Mutates(log[j].act) {
      assert BlockedAt(seen[j - 1], c);
    }
  }

  // ----- what a plan asks for -----

  function Backspaces(plan: Plan): nat {
    |plan.buffer| + plan.extraBackspaces
  }

  function ShiftKeys(shift: bool): seq<Key> {
    if shift then [LEFTSHIFT] else []
  }

  function TapSteps0(shift: bool): seq<PlanStep> {
    if shift then [Prepared(LEFTSHIFT)] else []
  }

  function TapSteps(key: Key, shift: bool): seq<PlanStep> {
    TapSteps0(shift) + [Prepared(key)]
  }

  function StrokeSteps(stroke: Keystroke, capsLock: bool): seq<PlanStep> {
    TapSteps(stroke.key, ReplayShift(stroke, capsLock))
  }

  function BufferSteps(buffer: seq<Keystroke>, capsLock: bool): seq<PlanStep> {
    if buffer == [] then []
    else BufferSteps(buffer[..|buffer| - 1], capsLock) + StrokeSteps(buffer[|buffer| - 1], capsLock)
  }

  /** The exact sleeping time of a typed buffer. */
  function BufferMs(buffer: seq<Keystroke>, capsLock: bool, delay: nat): nat {
    if buffer == [] then 0
    else BufferMs(buffer[..|buffer| - 1], capsLock, delay) + TapMs(ReplayShift(buffer[|buffer| - 1], capsLock)) + delay
  }

  function LiftSteps(frozen: seq<Key>): seq<PlanStep> {
    seq(|frozen|, i requires 0 <= i < |frozen| => PhysicalRelease(frozen[|frozen| - 1 - i]))
  }

  function RestoreSteps(frozen: seq<Key>): seq<PlanStep> {
    seq(|frozen|, i requires 0 <= i < |frozen| => Prepared(frozen[i]))
  }

  function BackspaceSteps(n: nat): seq<PlanStep> {
    seq(n, _ => Prepared(BACKSPACE))
  }

  /** `guardian_correction_plan_steps` */
  function GuardianPlanSteps(plan: Plan, m: ModifierState): seq<PlanStep> {
    LiftSteps(PressedModifierKeys(m)) + BackspaceSteps(Backspaces(plan)) + BufferSteps(plan.buffer, m.capsLock)
    + RestoreSteps(PressedModifierKeys(m))
  }

  /** Some of `steps`, from the front, were issued after `before`. */
  ghost predicate IssuedPrefix(before: seq<PlanStep>, after: seq<PlanStep>, steps: seq<PlanStep>) {
    exists n :: 0 <= n <= |steps| && after == before + steps[..n]
  }

  lemma IssuedPrefixExtends(before: seq<PlanStep>, done: seq<PlanStep>, after: seq<PlanStep>, steps: seq<PlanStep>,
                            rest: seq<PlanStep>)
    requires IssuedPrefix(before + done, after, steps)
    ensures IssuedPrefix(before, after, done + steps + rest)
  {
    var n :| 0 <= n <= |steps| && after == before + done + steps[..n];
    assert (done + steps + rest)[..|done| + n] == done + steps[..n];
    assert after == before + (done + steps + rest)[..|done| + n];
  }

  lemma IssuedAll(before: seq<PlanStep>, steps: seq<PlanStep>)
    ensures IssuedPrefix(before, before + steps, steps)
    ensures IssuedPrefix(before, before, steps)
  {
    assert steps[..|steps|] == steps;
    assert before + steps[..0] == before;
  }

  /** Where a stroke may stop: before, after its Shift, or after its key. */
  lemma StrokePrefixes(before: seq<PlanStep>, key: Key, shift: bool)
    ensures IssuedPrefix(before, before, TapSteps(key, shift))
    ensures IssuedPrefix(before, before + TapSteps0(shift), TapSteps(key, shift))
    ensures IssuedPrefix(before, before + TapSteps0(shift) + [], TapSteps(key, shift))
    ensures IssuedPrefix(before, before + TapSteps0(shift) + [Prepared(key)], TapSteps(key, shift))
    ensures before + TapSteps0(shift) + [Prepared(key)] == before + TapSteps(key, shift)
  {
    var steps := TapSteps(key, shift);
    IssuedAll(before, steps);
    assert steps[..|TapSteps0(shift)|] == TapSteps0(shift);
    assert before + TapSteps0(shift) == before + steps[..|TapSteps0(shift)|];
    assert before + TapSteps0(shift) + [] == before + TapSteps0(shift);
    assert before + TapSteps0(shift) + [Prepared(key)] == before + steps;
  }

  // ----- the ledger -----

  /** The presses `ids` of `keys` are the newest debts. */
  predicate Owed(debts: seq<Debt>, ids: seq<nat>, keys: seq<Key>) {
    |ids| == |keys| <= |debts| && forall i :: 0 <= i < |ids| ==> debts[|debts| - |ids| + i] == Debt(ids[i], keys[i])
  }

  lemma OwedMore(debts: seq<Debt>, ids: seq<nat>, keys: seq<Key>, id: nat, key: Key)
    requires Owed(debts, ids, keys)
    ensures var more := debts + [Debt(id, key)];
            Owed(more, ids + [id], keys + [key]) && more[..|more| - |ids + [id]|] == debts[..|debts| - |ids|]
  {
  }

  lemma OwedShift(base: seq<Debt>, ids: seq<nat>, shift: bool)
    requires |ids| == |ShiftKeys(shift)|
    ensures var debts := base + if shift then [Debt(ids[0], LEFTSHIFT)] else [];
            Owed(debts, ids, ShiftKeys(shift)) && debts[..|debts| - |ids|] == base
  {
  }

  /** The protocol after steps of the other threads, with the gate free, and at least `ms` later. */
  function Elapsed(w: Protocol.World, acts: seq<Protocol.Action>, ms: nat): (w': Protocol.World)
    requires Protocol.Inv(w)
    ensures Protocol.Inv(w') && Protocol.Evolves(w, w') && w'.holder.None? && w.now + ms <= w'.now
  {
    ProtocolProofs.RunKeeps(w, acts);
    var run := Protocol.Run(w, acts);
    var slept := Protocol.Step(run, Protocol.Tick(ms));
    ProtocolProofs.StepKeeps(run, Protocol.Tick(ms));
    Protocol.EvolvesTransitive(w, run, slept);
    if slept.holder.None? then slept
    else
      ProtocolProofs.PublishEndKeeps(slept);
      Protocol.EvolvesTransitive(w, slept, Protocol.PublishEnd(slept));
      Protocol.PublishEnd(slept)
  }

  // ----- the operation -----

  class Operation {
    const keymap: Keymap
    const core: SyntheticOperation
    const control: nat
    ghost const origin: Host
    var log: seq<Event>
    var host: Host
    var world: Protocol.World
    ghost var seen: seq<Protocol.World>
    ghost var open: Option<seq<nat>>
    ghost var slept: nat
    ghost var issued: seq<PlanStep>
    ghost var latches: nat
    ghost var failures: nat
    ghost var checks: nat

    /** The fields are the folds of the log, and the protocol's worlds bear it out. */
    ghost predicate Logged()
      reads this
    {
      && open == OpenAfter(log)
      && slept == SleepTotal(log)
      && issued == IssuedBy(log)
      && latches == Latches(log)
      && failures == Failures(log)
      && checks == Passed(log)
      && host == HostAfter(keymap, origin, log)
      && PermitsFirst(log)
      && Protocol.Inv(world) && world.holder.None?
      && Witnessed(log, seen, world, control)
    }

    ghost predicate Valid()
      reads this, core
    {
      Logged() && core.Replaying()
    }

    ghost predicate Permitted()
      reads this
    {
      |log| > 0 && log[|log| - 1] == Event(Permit, true)
    }

    constructor (keymap: Keymap, host: Host, frozen: set<Key>, answers: nat -> bool,
                 world: Protocol.World, control: nat)
      requires Protocol.Inv(world) && world.holder.None? && control < |world.controls|
      ensures Valid() && log == [] && this.host == host && this.keymap == keymap
      ensures open == Some([]) && slept == 0 && issued == [] && latches == 0 && failures == 0 && checks == 0
      ensures this.world == world && this.control == control
      ensures fresh(core) && core.frozen == frozen && core.debts == [] && core.plan == []
    {
      this.core := new SyntheticOperation(frozen, answers);
      this.keymap, this.origin, this.host := keymap, host, host;
      this.world, this.control, seen := world, control, [];
      log, open, slept, issued, latches, failures, checks := [], Some([]), 0, [], 0, 0, 0;
    }

    lemma Obeys()
      requires Valid()
      ensures Obedient(log, seen, control)
    {
      PermitsMakeObedient(log, seen, world, control);
    }

    /** Steps of the other threads, until no publication is half done, and `ms` milliseconds at least. */
    method Meanwhile(ms: nat)
      requires Logged()
      modifies this`world
      ensures Logged() && world.holder.None? && control < |world.controls| && old(world).now + ms <= world.now
    {
      hide Protocol.Inv, Protocol.Evolves, BlockedAt, PermitsFirst;
      var acts: seq<Protocol.Action> := *;
      var later := Elapsed(world, acts, ms);
      WitnessedLater(log, seen, world, later, control);
      world := later;
    }

    /** One call with its outcome: logged. */
    method Record(a: Act, ok: bool)
      requires Logged() && (Mutates(a) ==> Permitted())
      requires a.Permit? && ok ==> !BlockedAt(world, control)
      modifies this
      ensures Logged() && world == old(world)
      ensures log == old(log) + [Event(a, ok)] && seen == old(seen) + [world]
      ensures open == OpenStep(old(open), Event(a, ok))
      ensures slept == old(slept) + Ms(a)
      ensures issued == old(issued) + StepsOf(a)
      ensures latches == old(latches) + (if a.Latch? then 1 else 0)
      ensures failures == old(failures) + (if ok then 0 else 1)
      ensures checks == old(checks) + (if a == Check && ok then 1 else 0)
      ensures host == if ok then React(keymap, old(host), a) else old(host)
    {
      hide Witnessed, BlockedAt, PermitsFirst, Protocol.Inv;
      hide OpenAfter, SleepTotal, IssuedBy, Latches, Failures, Passed, HostAfter, OpenStep, StepsOf, React, Ms;
      var e := Event(a, ok);
      WitnessedMore(log, seen, world, control, e);
      FoldsMore(keymap, origin, log, e);
      PermitsFirstMore(log, e);
      log, open, slept, issued := log + [e], OpenStep(open, e), slept + Ms(a), issued + StepsOf(a);
      latches := latches + if a.Latch? then 1 else 0;
      failures := failures + if ok then 0 else 1;
      checks := checks + if a == Check && ok then 1 else 0;
      seen := seen + [world];
      if ok {
        host := React(keymap, host, a);
      }
    }

    /** One fallible call that touches no key: logged.  A permit and a checkpoint are answered by the protocol, any
        other call has any outcome, and a sleep takes its time. */
    method Try(a: Act) returns (ok: bool)
      requires Valid() && !a.Press? && !a.Release? && !a.Lift? && (a.Latch? ==> Permitted())
      modifies this
      ensures Valid() && log == old(log) + [Event(a, ok)] && open == old(open)
      ensures slept == old(slept) + Ms(a) && issued == old(issued)
      ensures latches == old(latches) + (if a.Latch? then 1 else 0)
      ensures failures == old(failures) + (if ok then 0 else 1)
      ensures checks == old(checks) + (if a == Check && ok then 1 else 0)
      ensures host == if ok then React(keymap, old(host), a) else old(host)
      ensures old(world).now + (if ok then Ms(a) else 0) <= world.now
      ensures a.Permit? && ok ==> control < |world.controls| && world.controls[control].authorized
    {
      hide Operation.Logged, SyntheticOperation.Replaying;
      ok := *;
      Meanwhile(if ok then Ms(a) else 0);
      if a.Permit? || a.Check? {
        var before: bool, after: bool := *, *;
        var permit := Protocol.EnsureActive(world, control, before, after).1;
        ok := permit.Granted?;
        Record(a, ok);
        Section(if a.Permit? then Protocol.AuthorizeOf(control, before, after)
                else Protocol.EnsureOf(control, before, after));
      } else {
        Record(a, ok);
      }
    }

    /** A gate-held section of the protocol. */
    method Section(a: Protocol.Action)
      requires Logged() && (a.AuthorizeOf? || a.EnsureOf?)
      modifies this`world
      ensures Logged() && old(world).now <= world.now && world == Protocol.Step(old(world), a)
    {
      hide Protocol.Inv, BlockedAt, PermitsFirst;
      ProtocolProofs.StepKeeps(world, a);
      WitnessedLater(log, seen, world, Protocol.Step(world, a), control);
      world := Protocol.Step(world, a);
    }

    /** `authorize_transaction_mutation` and then `operation.press`. */
    method PermitAndPress(key: Key) returns (pressed: Option<nat>, permitted: bool)
      requires Valid() && open.Some?
      modifies this, core
      ensures Valid() && slept == old(slept) && latches == old(latches) && core.plan == old(core.plan)
      ensures open == if pressed.Some? then Some(old(open).value + [pressed.value]) else old(open)
      ensures issued == old(issued) + if permitted then [Prepared(key)] else []
      ensures pressed.Some? ==> permitted && host == KeyDown(keymap, old(host), key)
      ensures checks == old(checks)
      ensures failures >= old(failures) && (pressed.Some? <==> failures == old(failures))
      ensures pressed.Some? ==> core.debts == old(core.debts) + [Debt(pressed.value, key)]
    {
      hide Operation.Logged, KeysOf, Elems, Increasing, Distinct;
      permitted := Try(Permit);
      if !permitted {
        return None, false;
      }
      var id := core.nextId;
      pressed := core.Press(key);
      Meanwhile(0);
      Record(Press(key, id), pressed.Some?);
    }

    /** `authorize_transaction_mutation` and then `operation.temporarily_release_physical_modifier`. */
    method PermitAndLift(key: Key) returns (lifted: bool, permitted: bool)
      requires Valid() && open.Some?
      modifies this, core
      ensures Valid() && slept == old(slept) && latches == old(latches)
      ensures open == old(open) && core.debts == old(core.debts)
      ensures issued == old(issued) + if permitted then [PhysicalRelease(key)] else []
      ensures core.plan == old(core.plan) || core.plan == old(core.plan) + [key]
      ensures checks == old(checks)
      ensures failures >= old(failures) && (lifted <==> failures == old(failures))
      ensures log == old(log) + [Event(Permit, permitted)] + if permitted then [Event(Lift(key), lifted)] else []
      ensures lifted ==> permitted && core.plan == old(core.plan) + [key] && host == KeyUp(old(host), key)
    {
      hide Operation.Logged, KeysOf, Elems, Increasing, Distinct;
      permitted := Try(Permit);
      if !permitted {
        return false, false;
      }
      lifted := core.Lift(key);
      Meanwhile(0);
      Record(Lift(key), lifted);
    }

    /** `operation.release`: the press leaves the stack; its debt goes when the key-up is acknowledged. */
    method ReleaseOne(key: Key, id: nat) returns (ok: bool)
      requires Valid() && open.Some? && open.value != [] && open.value[|open.value| - 1] == id
      modifies this, core
      ensures Valid() && slept == old(slept) && issued == old(issued) && latches == old(latches)
      ensures core.plan == old(core.plan) && open == Some(old(open).value[..|old(open).value| - 1])
      ensures ok ==> host == KeyUp(old(host), key)
      ensures checks == old(checks)
      ensures failures == old(failures) + (if ok then 0 else 1)
      ensures var n := |old(core.debts)|;
              ok && n > 0 && old(core.debts)[n - 1] == Debt(id, key) ==> core.debts == old(core.debts)[..n - 1]
    {
      hide Operation.Logged, KeysOf, Elems, Distinct, Find, Settle;
      if core.debts != [] {
        NewestSettles(core.debts, core.nextId);
      }
      hide Increasing;
      ok := core.Release(id);
      Meanwhile(0);
      Record(Release(key, id), ok);
    }

    /** `release_synthetic_presses`: every press is released once, last first, whatever fails. */
    method ReleasePresses(keys: seq<Key>, ids: seq<nat>) returns (ok: bool)
      requires Valid() && |keys| == |ids|
      requires open.Some? && |ids| <= |open.value| && open.value[|open.value| - |ids|..] == ids
      modifies this, core
      ensures Valid() && slept == old(slept) && issued == old(issued)
      ensures latches == old(latches) && core.plan == old(core.plan)
      ensures open == Some(old(open).value[..|old(open).value| - |ids|])
      ensures ok ==> host == KeysUp(old(host), keys)
      ensures checks == old(checks)
      ensures failures >= old(failures) && (ok <==> failures == old(failures))
      ensures ok && Owed(old(core.debts), ids, keys) ==> core.debts == old(core.debts)[..|old(core.debts)| - |ids|]
    {
      hide Operation.Valid;
      ok := true;
      ghost var base := |open.value| - |ids|;
      ghost var owed := Owed(core.debts, ids, keys);
      ghost var rest := |core.debts| - |ids|;
      var n := |ids|;
      assert old(open).value[..base + n] == old(open).value;
      assert owed ==> old(core.debts)[..rest + n] == old(core.debts);
      KeysUpNone(host, keys);
      while n > 0
        invariant 0 <= n <= |ids| && Valid() && slept == old(slept) && issued == old(issued) && latches == old(latches)
        invariant open == Some(old(open).value[..base + n]) && core.plan == old(core.plan)
        invariant ok ==> host == KeysUp(old(host), keys[n..])
        invariant failures >= old(failures) && (ok <==> failures == old(failures)) && checks == old(checks)
        invariant ok && owed ==> core.debts == old(core.debts)[..rest + n]
      {
        n := n - 1;
        assert old(open).value[base..][n] == ids[n];
        assert old(open).value[..base + n + 1][..base + n] == old(open).value[..base + n];
        if ok && owed {
          assert core.debts[rest + n] == Debt(ids[n], keys[n]);
          assert old(core.debts)[..rest + n + 1][..rest + n] == old(core.debts)[..rest + n];
        }
        var released := ReleaseOne(keys[n], ids[n]);
        assert keys[n..] == [keys[n]] + keys[n + 1..];
        KeysUpOne(old(host), keys[n], keys[n + 1..]);
        ok := ok && released;
      }
      assert keys[0..] == keys;
    }

    /** The first part of a stroke: Shift, if asked for. */
    method PressShift(shift: bool) returns (ids: Option<seq<nat>>)
      requires Valid() && open == Some([])
      modifies this, core
      ensures Valid() && latches == old(latches) && core.plan == old(core.plan)
      ensures open == Some(if ids.Some? then ids.value else [])
      ensures checks == old(checks)
      ensures failures >= old(failures) && (ids.Some? <==> failures == old(failures))
      ensures ids.Some? ==>
        && |ids.value| == |ShiftKeys(shift)|
        && slept == old(slept) + TapMs(shift) - KEY_TAP_MS
        && issued == old(issued) + TapSteps0(shift)
        && host == (if shift then KeyDown(keymap, old(host), LEFTSHIFT) else old(host))
        && core.debts == old(core.debts) + if shift then [Debt(ids.value[0], LEFTSHIFT)] else []
      ensures ids.None? ==>
        old(slept) <= slept <= old(slept) + 1 && (issued == old(issued) || issued == old(issued) + TapSteps0(shift))
    {
      hide Operation.Valid;
      if !shift {
        return Some([]);
      }
      var pressed, _ := PermitAndPress(LEFTSHIFT);
      if pressed.None? {
        return None;
      }
      var settled := Try(Sleep(1));
      if !settled {
        assert open.value[0..] == [pressed.value];
        var _ := ReleasePresses([LEFTSHIFT], [pressed.value]);
        return None;
      }
      assert [] + [pressed.value] == [pressed.value];
      return Some([pressed.value]);
    }

    /** `replay_synthetic_stroke`: it fails exactly when one of its calls does. */
    method ReplayStroke(key: Key, shift: bool, delay: nat) returns (ok: bool)
      requires Valid() && open == Some([])
      modifies this, core
      ensures Valid() && open == Some([]) && latches == old(latches) && core.plan == old(core.plan)
      ensures old(slept) <= slept <= old(slept) + TapMs(shift) + delay
      ensures ok ==> slept == old(slept) + TapMs(shift) + delay
      ensures IssuedPrefix(old(issued), issued, TapSteps(key, shift))
      ensures ok ==> issued == old(issued) + TapSteps(key, shift)
      ensures ok ==> host == Tap(keymap, old(host), key, shift)
      ensures ok ==> core.debts == old(core.debts)
      ensures checks == old(checks)
      ensures failures >= old(failures) && (ok <==> failures == old(failures))
    {
      hide Operation.Valid, KeyDown, KeysUp, Owed, IssuedPrefix, TapSteps, TapSteps0;
      StrokePrefixes(issued, key, shift);
      var held := PressShift(shift);
      if held.None? {
        return false;
      }
      OwedShift(old(core.debts), held.value, shift);
      var permitted;
      ok, permitted := StrokeKey(key, shift, held.value, delay);
      assert ShiftKeys(shift) + [key] == if shift then [LEFTSHIFT, key] else [key];
    }

    /** The rest of a stroke, with its Shift held: the key itself, the release of both and the delay. */
    method StrokeKey(key: Key, shift: bool, ids: seq<nat>, delay: nat) returns (ok: bool, permitted: bool)
      requires Valid() && open == Some(ids) && |ids| == |ShiftKeys(shift)|
      modifies this, core
      ensures Valid() && open == Some([]) && latches == old(latches) && core.plan == old(core.plan)
      ensures old(slept) <= slept <= old(slept) + KEY_TAP_MS + delay
      ensures ok ==> permitted && slept == old(slept) + KEY_TAP_MS + delay
      ensures issued == old(issued) + if permitted then [Prepared(key)] else []
      ensures ok ==> host == KeysUp(KeyDown(keymap, old(host), key), ShiftKeys(shift) + [key])
      ensures ok && Owed(old(core.debts), ids, ShiftKeys(shift)) ==>
        core.debts == old(core.debts)[..|old(core.debts)| - |ids|]
      ensures checks == old(checks)
      ensures failures >= old(failures) && (ok <==> failures == old(failures))
    {
      hide Operation.Valid, KeyDown, KeysUp;
      ghost var debts := core.debts;
      var pressed;
      pressed, permitted := PermitAndPress(key);
      if pressed.None? {
        assert open.value[0..] == ids;
        var _ := ReleasePresses(ShiftKeys(shift), ids);
        return false, permitted;
      }
      var settled := Try(Sleep(KEY_TAP_MS));
      assert open.value[0..] == ids + [pressed.value];
      if Owed(debts, ids, ShiftKeys(shift)) {
        OwedMore(debts, ids, ShiftKeys(shift), pressed.value, key);
      }
      hide Owed;
      var released := ReleasePresses(ShiftKeys(shift) + [key], ids + [pressed.value]);
      if !settled || !released {
        return false, permitted;
      }
      ok := Try(Sleep(delay));
    }
  }
}
