/**
 The two correction strategies, replayed through an `Operation`, and what a successful
 correction does to the document.
 */
module Corrections {
  import opened Common
  import opened Keys
  import opened Desktop
  import opened Schedule
  import opened Replay
  import opened SyntheticOperations

  const CINNAMON_SWITCH_TIMEOUT_MS: nat := 350
  const CINNAMON_POLL_MS: nat := 5

  datatype SwitchOutcome = NotNeeded | AppliedUinput | AppliedX11

  // ----- what each part does to the desktop -----

  function EraseAll(keymap: Keymap, h: Host, n: nat): Host {
    if n == 0 then h else Tap(keymap, EraseAll(keymap, h, n - 1), BACKSPACE, false)
  }

  function TypeAll(keymap: Keymap, h: Host, buffer: seq<Keystroke>, caps: bool): Host {
    if buffer == [] then h
    else
      var last := buffer[|buffer| - 1];
      Tap(keymap, TypeAll(keymap, h, buffer[..|buffer| - 1], caps), last.key, ReplayShift(last, caps))
  }

  function X11Switch(h: Host): Host {
    if h.groups <= 1 then h else h.(group := (h.group + 1) % 256 % h.groups)
  }

  function ChordSwitch(keymap: Keymap, h: Host, combo: Combo): Host {
    KeysUp(PressAll(keymap, h, ComboSequence(combo)), ComboSequence(combo))
  }

  function Switch(keymap: Keymap, h: Host, how: SwitchOutcome, combo: Combo): Host {
    match how
    case NotNeeded => h
    case AppliedX11 => X11Switch(h)
    case AppliedUinput => ChordSwitch(keymap, h, combo)
  }

  /** Generic order: lift the held modifiers, erase, switch, type. */
  function GenericResult(keymap: Keymap, h: Host, plan: Plan, m: ModifierState, how: SwitchOutcome,
                         combo: Combo): Host {
    var lifted := KeysUp(h, PressedUinputModifierKeys(m));
    var erased := EraseAll(keymap, lifted, Backspaces(plan));
    TypeAll(keymap, Switch(keymap, erased, how, combo), plan.buffer, m.capsLock)
  }

  /** Cinnamon order: switch, lift the held modifiers, erase, type. */
  function CinnamonResult(keymap: Keymap, h: Host, plan: Plan, m: ModifierState): Host {
    var lifted := KeysUp(X11Switch(h), PressedModifierKeys(m));
    TypeAll(keymap, EraseAll(keymap, lifted, Backspaces(plan)), plan.buffer, m.capsLock)
  }

  // ----- the parts, replayed -----

  function Backwards(keys: seq<Key>): seq<Key> {
    seq(|keys|, i requires 0 <= i < |keys| => keys[|keys| - 1 - i])
  }

  /** The keys of the list that are in the set, in order. */
  function KeysIn(keys: seq<Key>, owned: set<Key>): seq<Key> {
    if keys == [] then []
    else KeysIn(keys[..|keys| - 1], owned) + if keys[|keys| - 1] in owned then [keys[|keys| - 1]] else []
  }

  /** One modifier: lifted with a permit, and then noted by the session ledger if that owns it and it was planned. */
  method LiftOne(op: Operation, key: Key, owned: set<Key>) returns (ok: bool, permitted: bool)
    requires op.Valid() && op.open == Some([])
    modifies op, op.core
    ensures op.Valid() && op.open == Some([]) && op.latches == old(op.latches) && op.slept == old(op.slept)
    ensures op.core.debts == old(op.core.debts)
    ensures op.issued == old(op.issued) + if permitted then [PhysicalRelease(key)] else []
    ensures ok ==> permitted && op.host == KeyUp(old(op.host), key) && op.core.plan == old(op.core.plan) + [key]
    ensures op.checks == old(op.checks)
    ensures op.failures >= old(op.failures) && (ok <==> op.failures == old(op.failures))
    ensures Marked(op.log) ==
            Marked(old(op.log)) + if permitted && key in owned && key in op.core.plan then [key] else []
  {
    hide Operation.Valid, Marked;
    ghost var before := op.log;
    var lifted;
    lifted, permitted := op.PermitAndLift(key);
    MarkedMore(before, Event(Permit, permitted));
    if !permitted {
      assert op.log == before + [Event(Permit, false)];
      return false, false;
    }
    MarkedMore(before + [Event(Permit, true)], Event(Lift(key), lifted));
    ok := lifted;
    if key in owned && key in op.core.plan {
      ghost var noted := op.log;
      var marked := op.Try(MarkDebt(key));
      MarkedMore(noted, Event(MarkDebt(key), marked));
      ok := lifted && marked;
    }
  }

  /** `temporarily_release_*_modifiers`, without the trailing sleep of the uinput variant; `owned` are the keys that the
      session ledger owns. */
  method LiftModifiers(op: Operation, frozen: seq<Key>, owned: set<Key>) returns (ok: bool)
    requires op.Valid() && op.open == Some([])
    modifies op, op.core
    ensures op.Valid() && op.open == Some([]) && op.latches == old(op.latches) && op.slept == old(op.slept)
    ensures op.core.debts == old(op.core.debts)
    ensures IssuedPrefix(old(op.issued), op.issued, LiftSteps(frozen))
    ensures ok ==> op.issued == old(op.issued) + LiftSteps(frozen)
    ensures ok ==> op.host == KeysUp(old(op.host), frozen)
    ensures ok ==> op.core.plan == old(op.core.plan) + Backwards(frozen)
    ensures ok ==> Marked(op.log) == Marked(old(op.log)) + KeysIn(Backwards(frozen), owned)
    ensures op.checks == old(op.checks)
    ensures op.failures >= old(op.failures) && (ok <==> op.failures == old(op.failures))
  {
    hide Operation.Valid, Marked;
    ghost var steps := LiftSteps(frozen);
    IssuedAll(op.issued, steps);
    KeysUpNone(op.host, frozen);
    ghost var planned := Backwards(frozen);
    assert op.issued + steps[..0] == op.issued && op.core.plan + planned[..0] == op.core.plan;
    assert Marked(op.log) + KeysIn(planned[..0], owned) == Marked(op.log);
    var n := |frozen|;
    while n > 0
      invariant 0 <= n <= |frozen| && op.Valid() && op.open == Some([])
      invariant op.latches == old(op.latches) && op.slept == old(op.slept)
      invariant op.issued == old(op.issued) + steps[..|frozen| - n] && op.core.debts == old(op.core.debts)
      invariant op.core.plan == old(op.core.plan) + planned[..|frozen| - n]
      invariant Marked(op.log) == Marked(old(op.log)) + KeysIn(planned[..|frozen| - n], owned)
      invariant op.failures == old(op.failures) && op.checks == old(op.checks)
      invariant op.host == KeysUp(old(op.host), frozen[n..])
    {
      n := n - 1;
      var key := frozen[n];
      var permitted;
      ok, permitted := LiftOne(op, key, owned);
      assert steps[..|frozen| - n] == steps[..|frozen| - n - 1] + [PhysicalRelease(key)];
      if !ok {
        return;
      }
      assert planned[..|frozen| - n] == planned[..|frozen| - n - 1] + [key];
      KeysInMore(planned[..|frozen| - n - 1], key, owned);
      assert frozen[n..] == [key] + frozen[n + 1..];
      KeysUpOne(old(op.host), key, frozen[n + 1..]);
    }
    assert steps[..|frozen|] == steps && frozen[0..] == frozen && planned[..|frozen|] == planned;
    return true;
  }

  lemma KeysInMore(keys: seq<Key>, key: Key, owned: set<Key>)
    ensures KeysIn(keys + [key], owned) == KeysIn(keys, owned) + if key in owned then [key] else []
  {
    assert (keys + [key])[..|keys|] == keys;
  }

  /** `replay_synthetic_backspaces` */
  method ReplayBackspaces(op: Operation, count: nat, delay: nat) returns (ok: bool)
    requires op.Valid() && op.open == Some([])
    modifies op, op.core
    ensures op.Valid() && op.open == Some([]) && op.latches == old(op.latches)
    ensures old(op.slept) <= op.slept <= old(op.slept) + count * (KEY_TAP_MS + delay)
    ensures ok ==> op.slept == old(op.slept) + count * (KEY_TAP_MS + delay)
    ensures IssuedPrefix(old(op.issued), op.issued, BackspaceSteps(count))
    ensures ok ==> op.issued == old(op.issued) + BackspaceSteps(count)
    ensures ok ==> op.host == EraseAll(op.keymap, old(op.host), count)
    ensures op.core.plan == old(op.core.plan) && (ok ==> op.core.debts == old(op.core.debts))
    ensures op.checks == old(op.checks)
    ensures op.failures >= old(op.failures) && (ok <==> op.failures == old(op.failures))
  {
    hide Operation.Valid, Tap, IssuedPrefix, BackspaceSteps, TapSteps;
    ghost var each := KEY_TAP_MS + delay;
    BackspacesSplit(op.issued, 0, count);
    for i := 0 to count
      invariant op.Valid() && op.open == Some([]) && op.latches == old(op.latches)
      invariant op.slept == old(op.slept) + i * each
      invariant op.issued == old(op.issued) + BackspaceSteps(i)
      invariant op.host == EraseAll(op.keymap, old(op.host), i)
      invariant op.core.plan == old(op.core.plan) && op.core.debts == old(op.core.debts)
      invariant op.failures == old(op.failures) && op.checks == old(op.checks)
    {
      MulMonotone(i + 1, count, each, each);
      assert (i + 1) * each == i * each + each;
      BackspacesSplit(old(op.issued), i, count);
      var done := op.ReplayStroke(BACKSPACE, false, delay);
      if !done {
        BackspacesStopAt(old(op.issued), op.issued, i, count);
        return false;
      }
    }
    BackspacesSplit(old(op.issued), count, count);
    return true;
  }

  lemma BackspacesSplit(before: seq<PlanStep>, i: nat, count: nat)
    requires i <= count
    ensures BackspaceSteps(i + 1) == BackspaceSteps(i) + TapSteps(BACKSPACE, false)
    ensures before + BackspaceSteps(i) + TapSteps(BACKSPACE, false) == before + BackspaceSteps(i + 1)
    ensures before + BackspaceSteps(0) == before
    ensures IssuedPrefix(before, before + BackspaceSteps(i), BackspaceSteps(count))
  {
    assert BackspaceSteps(count)[..i] == BackspaceSteps(i);
  }

  lemma BackspacesStopAt(before: seq<PlanStep>, after: seq<PlanStep>, i: nat, count: nat)
    requires i < count && IssuedPrefix(before + BackspaceSteps(i), after, TapSteps(BACKSPACE, false))
    ensures IssuedPrefix(before, after, BackspaceSteps(count))
  {
    var rest := BackspaceSteps(count - i - 1);
    IssuedPrefixExtends(before, BackspaceSteps(i), after, TapSteps(BACKSPACE, false), rest);
    assert BackspaceSteps(i) + TapSteps(BACKSPACE, false) + rest == BackspaceSteps(count);
  }

  lemma BufferStepsSplit(buffer: seq<Keystroke>, caps: bool, i: nat)
    requires i < |buffer|
    ensures BufferSteps(buffer[..i + 1], caps) == BufferSteps(buffer[..i], caps) + StrokeSteps(buffer[i], caps)
  {
    assert buffer[..i + 1][..i] == buffer[..i];
  }

  lemma {:induction false} BufferStepsPrefix(buffer: seq<Keystroke>, caps: bool, i: nat)
    requires i <= |buffer|
    ensures BufferSteps(buffer[..i], caps) <= BufferSteps(buffer, caps)
    decreases |buffer| - i
  {
    if i < |buffer| {
      BufferStepsSplit(buffer, caps, i);
      BufferStepsPrefix(buffer, caps, i + 1);
    } else {
      assert buffer[..i] == buffer;
    }
  }

  lemma BufferStopsAt(buffer: seq<Keystroke>, caps: bool, i: nat, before: seq<PlanStep>, after: seq<PlanStep>)
    requires i < |buffer| && IssuedPrefix(before + BufferSteps(buffer[..i], caps), after, StrokeSteps(buffer[i], caps))
    ensures IssuedPrefix(before, after, BufferSteps(buffer, caps))
  {
    var all := BufferSteps(buffer, caps);
    var soFar := BufferSteps(buffer[..i + 1], caps);
    BufferStepsSplit(buffer, caps, i);
    BufferStepsPrefix(buffer, caps, i + 1);
    IssuedPrefixExtends(before, BufferSteps(buffer[..i], caps), after, StrokeSteps(buffer[i], caps), all[|soFar|..]);
    assert soFar + all[|soFar|..] == all;
  }

  /** The typing loop of both strategies. */
  method ReplayBuffer(op: Operation, buffer: seq<Keystroke>, caps: bool, delay: nat) returns (ok: bool)
    requires op.Valid() && op.open == Some([])
    modifies op, op.core
    ensures op.Valid() && op.open == Some([]) && op.latches == old(op.latches)
    ensures old(op.slept) <= op.slept <= old(op.slept) + |buffer| * (KEY_TAP_MS + SHIFT_SETTLE_MS + delay)
    ensures ok ==> op.slept == old(op.slept) + BufferMs(buffer, caps, delay)
    ensures IssuedPrefix(old(op.issued), op.issued, BufferSteps(buffer, caps))
    ensures ok ==> op.issued == old(op.issued) + BufferSteps(buffer, caps)
    ensures ok ==> op.host == TypeAll(op.keymap, old(op.host), buffer, caps)
    ensures op.core.plan == old(op.core.plan) && (ok ==> op.core.debts == old(op.core.debts))
    ensures op.checks == old(op.checks)
    ensures op.failures >= old(op.failures) && (ok <==> op.failures == old(op.failures))
  {
    hide Operation.Valid, Tap, TapSteps, IssuedPrefix;
    IssuedAll(op.issued, BufferSteps(buffer, caps));
    ghost var each := KEY_TAP_MS + SHIFT_SETTLE_MS + delay;
    for i := 0 to |buffer|
      invariant op.Valid() && op.open == Some([]) && op.latches == old(op.latches)
      invariant op.slept == old(op.slept) + BufferMs(buffer[..i], caps, delay) <= old(op.slept) + i * each
      invariant op.issued == old(op.issued) + BufferSteps(buffer[..i], caps)
      invariant op.host == TypeAll(op.keymap, old(op.host), buffer[..i], caps)
      invariant op.core.plan == old(op.core.plan) && op.core.debts == old(op.core.debts)
      invariant op.failures == old(op.failures) && op.checks == old(op.checks)
    {
      MulMonotone(i + 1, |buffer|, each, each);
      assert (i + 1) * each == i * each + each;
      BufferStepsSplit(buffer, caps, i);
      assert buffer[..i + 1][..i] == buffer[..i];
      var shift := ReplayShift(buffer[i], caps);
      var done := op.ReplayStroke(buffer[i].key, shift, delay);
      if !done {
        BufferStopsAt(buffer, caps, i, old(op.issued), op.issued);
        return false;
      }
    }
    assert buffer[..|buffer|] == buffer;
    return true;
  }

  /** `replay_synthetic_layout_combo` */
  method ReplayCombo(op: Operation, combo: Combo, delay: nat) returns (ok: bool)
    requires op.Valid() && op.open == Some([])
    modifies op, op.core
    ensures op.Valid() && op.open == Some([]) && op.latches == old(op.latches)
    ensures old(op.slept) <= op.slept <= old(op.slept) + delay
    ensures ok ==> op.slept == old(op.slept) + delay
    ensures IssuedPrefix(old(op.issued), op.issued, RestoreSteps(ComboSequence(combo)))
    ensures ok ==> op.host == ChordSwitch(op.keymap, old(op.host), combo)
    ensures op.core.plan == old(op.core.plan) && (ok ==> op.core.debts == old(op.core.debts))
    ensures op.checks == old(op.checks)
    ensures op.failures >= old(op.failures) && (ok <==> op.failures == old(op.failures))
  {
    hide Operation.Valid, KeyDown, ComboSequence;
    var keys := ComboSequence(combo);
    ghost var steps := RestoreSteps(keys);
    var ids: seq<nat> := [];
    assert keys[..0] == [] && op.issued + steps[..0] == op.issued;
    for i := 0 to |keys|
      invariant op.Valid() && op.open == Some(ids) && |ids| == i
      invariant op.latches == old(op.latches) && op.slept == old(op.slept)
      invariant op.issued == old(op.issued) + steps[..i]
      invariant op.host == PressAll(op.keymap, old(op.host), keys[..i])
      invariant op.core.plan == old(op.core.plan) && |op.core.debts| == |old(op.core.debts)| + i
      invariant op.failures == old(op.failures) && op.checks == old(op.checks)
      invariant Owed(op.core.debts, ids, keys[..i]) && op.core.debts[..|old(op.core.debts)|] == old(op.core.debts)
    {
      var pressed, permitted := op.PermitAndPress(keys[i]);
      assert steps[..i + 1] == steps[..i] + [Prepared(keys[i])];
      assert op.issued == old(op.issued) + steps[..if permitted then i + 1 else i];
      if pressed.None? {
        assert op.open.value[0..] == ids;
        var _ := op.ReleasePresses(keys[..i], ids);
        return false;
      }
      ids := ids + [pressed.value];
      assert keys[..i + 1][..i] == keys[..i];
    }
    assert keys[..|keys|] == keys && op.open.value[0..] == ids;
    var settled := op.Try(Sleep(delay));
    ghost var held := op.host;
    var released := op.ReleasePresses(keys, ids);
    return settled && released;
  }

  /** What is logged of a call between two checkpoints, of the reads before a switch, and of the latch. */
  function CheckedLog(a: Act): seq<Event> {
    [Event(Check, true), Event(a, true), Event(Check, true)]
  }

  function ReadLog(h: Host): seq<Event> {
    CheckedLog(Query(h.groups)) + CheckedLog(Query(h.group))
  }

  function LatchLog(target: nat): seq<Event> {
    [Event(Permit, true), Event(Latch(target), true), Event(Check, true)]
  }

  /** `run_checked_external_call`: a call between two checkpoints. */
  method CheckedCall(op: Operation, a: Act) returns (ok: bool)
    requires op.Valid() && op.open == Some([]) && (a.Query? || a.Prepare?)
    modifies op
    ensures op.Valid() && op.open == Some([]) && op.host == old(op.host) && op.slept == old(op.slept)
    ensures op.issued == old(op.issued) && op.latches == old(op.latches)
    ensures ok ==> op.log == old(op.log) + CheckedLog(a) && op.checks == old(op.checks) + 2
    ensures old(op.world).now <= op.world.now
    ensures op.checks >= old(op.checks)
    ensures op.failures >= old(op.failures) && (ok <==> op.failures == old(op.failures))
  {
    hide Operation.Valid;
    ok := op.Try(Check);
    if !ok { return; }
    ok := op.Try(a);
    if !ok { return; }
    ok := op.Try(Check);
  }

  /** The reads of `execute_x11_layout_switch`, each between two checkpoints: the group count and the group. */
  method ReadGroups(op: Operation) returns (ok: bool)
    requires op.Valid() && op.open == Some([])
    modifies op
    ensures op.Valid() && op.open == Some([]) && op.slept == old(op.slept) && op.issued == old(op.issued)
    ensures op.latches == old(op.latches) && op.host == old(op.host)
    ensures ok ==> op.log == old(op.log) + ReadLog(op.host) && op.checks == old(op.checks) + 4
    ensures old(op.world).now <= op.world.now
    ensures op.checks >= old(op.checks)
    ensures op.failures >= old(op.failures) && (ok <==> op.failures == old(op.failures))
  {
    hide Operation.Valid;
    ok := CheckedCall(op, Query(op.host.groups));
    if !ok { return; }
    ok := CheckedCall(op, Query(op.host.group));
  }

  /** `execute_x11_layout_switch`; the two reads return the server's group count and group. */
  method SwitchX11(op: Operation) returns (ok: bool, authorized: bool)
    requires op.Valid() && op.open == Some([]) && op.host.groups <= 255
    modifies op
    ensures op.Valid() && op.open == Some([]) && op.slept == old(op.slept) && op.issued == old(op.issued)
    ensures !authorized ==> op.latches == old(op.latches) && op.host == old(op.host)
    ensures authorized ==> |op.log| > 0 && op.log[|op.log| - 1].act == Check
    ensures op.latches <= old(op.latches) + 1
    // a latched group exists, and its latch directly follows a granted permit
    ensures op.latches > old(op.latches) ==>
      && |op.log| >= 3 && op.log[|op.log| - 3] == Event(Permit, true)
      && op.log[|op.log| - 2].act.Latch? && op.log[|op.log| - 2].act.group < op.host.groups
    ensures ok ==> op.host == X11Switch(old(op.host))
    ensures ok ==>
      && op.log == old(op.log) + ReadLog(old(op.host))
                   + (if old(op.host).groups > 1 then LatchLog(op.host.group) else [])
      && op.checks == old(op.checks) + 4 + (if old(op.host).groups > 1 then 1 else 0)
    ensures op.checks >= old(op.checks)
    ensures op.failures >= old(op.failures) && (ok <==> op.failures == old(op.failures))
  {
    hide Operation.Valid;
    authorized := false;
    ok := ReadGroups(op);
    if !ok || op.host.groups <= 1 { return; }
    authorized := op.Try(Permit);
    if !authorized { return false, false; }
    var latched := op.Try(Latch((op.host.group + 1) % 256 % op.host.groups));
    var checked := op.Try(Check);
    ok := latched && checked;
  }

  /** The default `switch_layout_with_hooks` around the uinput combination. */
  method SwitchUinput(op: Operation, combo: Combo, delay: nat) returns (ok: bool)
    requires op.Valid() && op.open == Some([])
    modifies op, op.core
    ensures op.Valid() && op.open == Some([]) && op.latches == old(op.latches)
    ensures old(op.slept) <= op.slept <= old(op.slept) + delay
    ensures ok ==> op.slept == old(op.slept) + delay
    ensures IssuedPrefix(old(op.issued), op.issued, RestoreSteps(ComboSequence(combo)))
    ensures ok ==> op.host == ChordSwitch(op.keymap, old(op.host), combo)
    ensures |op.log| > 0 && op.log[|op.log| - 1].act == Check
    ensures op.core.plan == old(op.core.plan) && (ok ==> op.core.debts == old(op.core.debts))
    ensures ok ==> op.checks == old(op.checks) + 2
    ensures op.failures >= old(op.failures) && (ok <==> op.failures == old(op.failures))
  {
    hide Operation.Valid, ChordSwitch;
    IssuedAll(op.issued, RestoreSteps(ComboSequence(combo)));
    var before := op.Try(Check);
    if !before {
      return false;
    }
    var switched := ReplayCombo(op, combo, delay);
    var after := op.Try(Check);
    return switched && after;
  }

  /**
   `switch_layout_with_fallback`.  Over the X11 attempt and the fallback the layout is changed by at
   most one latch or one combination, never both.
   */
  method SwitchWithFallback(op: Operation, hasX11: bool, combo: Combo, delay: nat) returns (how: Option<SwitchOutcome>)
    requires op.Valid() && op.open == Some([]) && op.host.groups <= 255
    modifies op, op.core
    ensures op.Valid() && op.open == Some([])
    ensures op.latches <= old(op.latches) + 1
    ensures op.latches == old(op.latches) || op.issued == old(op.issued)
    ensures IssuedPrefix(old(op.issued), op.issued, RestoreSteps(ComboSequence(combo)))
    ensures old(op.slept) <= op.slept <= old(op.slept) + delay
    ensures how.Some? ==> how.value != NotNeeded && op.host == Switch(op.keymap, old(op.host), how.value, combo)
    ensures how == Some(AppliedX11) ==> op.issued == old(op.issued) && op.slept == old(op.slept)
    ensures how == Some(AppliedUinput) ==> op.latches == old(op.latches) && op.slept == old(op.slept) + delay
    ensures op.core.plan == old(op.core.plan) && (how.Some? ==> op.core.debts == old(op.core.debts))
    ensures op.failures >= old(op.failures) && (how.None? ==> op.failures > old(op.failures))
    // X11 first where there is one, and the combination after a failed attempt or without X11
    ensures how == Some(AppliedX11) || op.latches > old(op.latches) ==> hasX11
    ensures how == Some(AppliedUinput) && hasX11 ==> op.failures > old(op.failures)
    // and every step has its checkpoint
    ensures how == Some(AppliedX11) ==> op.checks == old(op.checks) + 5 + (if old(op.host).groups > 1 then 1 else 0)
    ensures how == Some(AppliedUinput) ==> op.checks >= old(op.checks) + 4
    ensures how == Some(AppliedUinput) && !hasX11 ==> op.checks == old(op.checks) + 4
    // nothing but a failed check, an authorised X11 attempt or the combination itself ends the switch
    ensures how.None? ==> |op.log| > 0 && op.log[|op.log| - 1].act == Check
  {
    hide Operation.Valid, ChordSwitch;
    IssuedAll(op.issued, RestoreSteps(ComboSequence(combo)));
    var active := op.Try(Check);
    if !active {
      return None;
    }
    if hasX11 {
      var ok, authorized := SwitchX11(op);
      if ok {
        return Some(AppliedX11);
      }
      if authorized {
        return None;
      }
    }
    active := op.Try(Check);
    if !active {
      return None;
    }
    var switched := SwitchUinput(op, combo, delay);
    return if switched then Some(AppliedUinput) else None;
  }

  // ----- the two strategies -----

  /** The part of the generic `run_correction` before the layout switch. */
  method LiftAndErase(op: Operation, plan: Plan, config: Config, m: ModifierState, owned: set<Key>) returns (ok: bool)
    requires op.Valid() && op.open == Some([])
    modifies op, op.core
    ensures op.Valid() && op.open == Some([]) && op.latches == old(op.latches)
    ensures old(op.slept) <= op.slept
                          <= old(op.slept) + MODIFIER_SYNC_MS + Backspaces(plan) * (KEY_TAP_MS + config.backspaceMs)
    ensures ok ==> op.slept == old(op.slept) + MODIFIER_SYNC_MS + Backspaces(plan) * (KEY_TAP_MS + config.backspaceMs)
    ensures ok ==> op.host == EraseAll(op.keymap, KeysUp(old(op.host), PressedUinputModifierKeys(m)), Backspaces(plan))
    ensures ok ==> op.core.debts == old(op.core.debts)
    ensures ok ==> op.core.plan == old(op.core.plan) + Backwards(PressedUinputModifierKeys(m))
    ensures ok ==> op.checks == old(op.checks) + 1
    ensures op.failures >= old(op.failures) && (ok <==> op.failures == old(op.failures))
  {
    hide Operation.Valid, Tap, IssuedPrefix,
      PressedUinputModifierKeys;
    MulMonotone(0, Backspaces(plan), 0, KEY_TAP_MS + config.backspaceMs);
    ok := op.Try(Check);
    if !ok { return; }
    ok := LiftModifiers(op, PressedUinputModifierKeys(m), owned);
    if !ok { return; }
    ok := op.Try(Sleep(MODIFIER_SYNC_MS));
    if !ok { return; }
    ok := ReplayBackspaces(op, Backspaces(plan), config.backspaceMs);
  }

  /** The sleeping time of a successful switch: the combination is held once, and both are followed by a delay. */
  function SwitchMs(how: SwitchOutcome, config: Config): nat {
    match how
    case NotNeeded => 0
    case AppliedX11 => config.layoutDelayMs
    case AppliedUinput => 2 * config.layoutDelayMs
  }

  /** The layout switch of the generic `run_correction`, with the delay after it. */
  method SwitchStage(op: Operation, config: Config, hasX11: bool) returns (how: Option<SwitchOutcome>)
    requires op.Valid() && op.open == Some([]) && op.host.groups <= 255
    modifies op, op.core
    ensures op.Valid() && op.open == Some([]) && op.latches <= old(op.latches) + 1
    ensures op.slept <= old(op.slept) + 2 * config.layoutDelayMs
    ensures how.Some? ==> op.slept == old(op.slept) + SwitchMs(how.value, config)
    ensures how.Some? ==> how.value != NotNeeded && op.host == Switch(op.keymap, old(op.host), how.value, config.combo)
    ensures op.core.plan == old(op.core.plan) && (how.Some? ==> op.core.debts == old(op.core.debts))
    ensures op.failures >= old(op.failures) && (how.None? ==> op.failures > old(op.failures))
    // X11 first where there is one, and the combination after a failed attempt or without X11
    ensures how == Some(AppliedX11) || op.latches > old(op.latches) ==> hasX11
    ensures how == Some(AppliedUinput) && hasX11 ==> op.failures > old(op.failures)
    ensures how == Some(AppliedX11) ==> op.checks == old(op.checks) + 7 + (if old(op.host).groups > 1 then 1 else 0)
    ensures how == Some(AppliedUinput) ==> op.checks >= old(op.checks) + 6
    ensures how == Some(AppliedUinput) && !hasX11 ==> op.checks == old(op.checks) + 6
  {
    hide Operation.Valid, ChordSwitch, IssuedPrefix;
    var ok := op.Try(Check);
    if !ok { return None; }
    how := SwitchWithFallback(op, hasX11, config.combo, config.layoutDelayMs);
    if how.None? { return; }
    ok := op.Try(Check);
    if !ok { return None; }
    ok := op.Try(Sleep(config.layoutDelayMs));
    if !ok { return None; }
  }

  lemma GroupsKept(keymap: Keymap, h: Host, plan: Plan, keys: seq<Key>)
    ensures EraseAll(keymap, KeysUp(h, keys), Backspaces(plan)).groups == h.groups
  {
    EraseKeepsGroups(keymap, KeysUp(h, keys), Backspaces(plan));
  }

  lemma {:induction false} EraseKeepsGroups(keymap: Keymap, h: Host, n: nat)
    ensures EraseAll(keymap, h, n).groups == h.groups
  {
    if n > 0 {
      EraseKeepsGroups(keymap, h, n - 1);
    }
  }

  /** The generic `run_correction`, up to the operation's finish. */
  method RunGeneric(op: Operation, plan: Plan, config: Config, m: ModifierState, owned: set<Key>,
                    hasX11: bool, switchLayout: bool)
    returns (how: Option<SwitchOutcome>)
    requires op.Valid() && op.open == Some([]) && op.host.groups <= 255
    modifies op, op.core
    ensures op.Valid() && op.open == Some([])
    ensures op.slept <= old(op.slept) + PlanSchedule(plan, config, switchLayout)
    // so the sleeps fit the transaction's own timeout, with the grace to spare
    ensures var timeout := TransactionTimeout(plan, config, switchLayout);
            timeout.Some? ==> op.slept + BACKEND_GRACE_MS <= old(op.slept) + timeout.value
    ensures how.Some? ==>
      op.slept == old(op.slept) + MODIFIER_SYNC_MS + Backspaces(plan) * (KEY_TAP_MS + config.backspaceMs)
                  + SwitchMs(how.value, config) + BufferMs(plan.buffer, m.capsLock, config.typingMs)
    ensures op.latches <= old(op.latches) + 1
    ensures how.Some? ==> (how.value == NotNeeded <==> !switchLayout)
    ensures how.Some? ==> op.host == GenericResult(op.keymap, old(op.host), plan, m, how.value, config.combo)
    ensures how.Some? ==> op.core.debts == old(op.core.debts)
    ensures how.Some? ==> op.core.plan == old(op.core.plan) + Backwards(PressedUinputModifierKeys(m))
    // a correction fails only when one of its calls did, and begins nothing once its control is blocked
    ensures op.failures >= old(op.failures) && (how.None? ==> op.failures > old(op.failures))
    ensures how == Some(AppliedX11) || op.latches > old(op.latches) ==> hasX11
    ensures how == Some(AppliedUinput) && hasX11 ==> op.failures > old(op.failures)
    ensures Obedient(op.log, op.seen, op.control)
  {
    hide Operation.Valid, Tap, ChordSwitch,
      IssuedPrefix, PressedUinputModifierKeys, EraseAll, TypeAll, BufferMs;
    TimeoutCoversSchedule(plan, config, switchLayout);
    hide TransactionTimeout;
    MulMonotone(0, |plan.buffer|, 0, KEY_TAP_MS + SHIFT_SETTLE_MS + config.typingMs);
    GroupsKept(op.keymap, op.host, plan, PressedUinputModifierKeys(m));
    var ok := LiftAndErase(op, plan, config, m, owned);
    how := if ok then Some(NotNeeded) else None;
    if ok && switchLayout {
      how := SwitchStage(op, config, hasX11);
    }
    if how.Some? {
      ok := ReplayBuffer(op, plan.buffer, m.capsLock, config.typingMs);
      how := if ok then how else None;
    }
    op.Obeys();
  }

  /** One poll of the group, between checkpoints; the server reports some group. */
  method PollGroup(op: Operation) returns (ok: bool, reported: nat)
    requires op.Valid() && op.open == Some([])
    modifies op
    ensures op.Valid() && op.open == Some([]) && op.host == old(op.host) && op.slept == old(op.slept)
    ensures op.issued == old(op.issued) && op.latches == old(op.latches) && old(op.world).now <= op.world.now
    ensures ok ==>
      op.log == old(op.log) + [Event(Check, true)] + CheckedLog(Query(reported)) + [Event(Check, true)]
    ensures ok ==> op.checks == old(op.checks) + 4
    ensures op.failures >= old(op.failures) && (ok <==> op.failures == old(op.failures))
  {
    hide Operation.Valid;
    reported := *;
    ok := op.Try(Check);
    if !ok { return; }
    ok := CheckedCall(op, Query(reported));
    if !ok { return; }
    ok := op.Try(Check);
  }

  /** `activate_and_verify_group`: one latch, then polling for at most 350 ms until the server reports the group. */
  method ActivateGroup(op: Operation, target: nat) returns (ok: bool)
    requires op.Valid() && op.open == Some([])
    modifies op
    ensures op.Valid() && op.open == Some([]) && op.issued == old(op.issued) && op.latches <= old(op.latches) + 1
    ensures old(op.slept) <= op.slept <= old(op.slept) + CINNAMON_SWITCH_TIMEOUT_MS
    ensures ok ==> op.host == old(op.host).(group := target)
    // without a failed call, the server reported another group for 350 ms
    ensures op.failures >= old(op.failures)
    ensures !ok && op.failures == old(op.failures) ==>
      && old(op.world).now + CINNAMON_SWITCH_TIMEOUT_MS <= op.world.now
      && |op.log| >= 4 && op.log[|op.log| - 4].act.Query? && op.log[|op.log| - 4].act.answer != target
    // the latch comes first, the last read reported the target, and every poll has its checkpoints
    ensures ok ==> old(op.log) + LatchLog(target) <= op.log
    ensures ok ==> |op.log| >= 3 && op.log[|op.log| - 3] == Event(Query(target), true)
    ensures ok ==> exists polls: nat ::
              op.slept == old(op.slept) + 5 * polls && op.checks == old(op.checks) + 5 + 4 * polls
  {
    hide Operation.Valid;
    ok := op.Try(Permit);
    if !ok { return; }
    ok := op.Try(Latch(target));
    if !ok { return; }
    ok := op.Try(Check);
    if !ok { return; }
    var start := op.world.now;
    var reported := target;
    ghost var latched := op.host;
    ghost var count := op.latches;
    ghost var polls := 0;
    while op.world.now - start < CINNAMON_SWITCH_TIMEOUT_MS
      decreases CINNAMON_SWITCH_TIMEOUT_MS - (op.world.now - start)
      invariant op.Valid() && op.open == Some([])
      invariant op.issued == old(op.issued) && op.host == latched && op.latches == count
      invariant op.failures == old(op.failures) && old(op.world).now <= start <= op.world.now
      invariant old(op.log) + LatchLog(target) <= op.log && op.checks == old(op.checks) + 1 + 4 * polls
      invariant op.slept == old(op.slept) + CINNAMON_POLL_MS * polls && CINNAMON_POLL_MS * polls <= op.world.now - start
      invariant polls == 0 ==> op.world.now == start
      invariant polls > 0 ==>
        |op.log| >= 4 && op.log[|op.log| - 4] == Event(Query(reported), true) && reported != target
      invariant CINNAMON_POLL_MS * polls <= CINNAMON_SWITCH_TIMEOUT_MS
    {
      ghost var before := op.log;
      ok, reported := PollGroup(op);
      if !ok { return; }
      assert old(op.log) + LatchLog(target) <= before <= op.log;
      if reported == target {
        assert op.checks == old(op.checks) + 5 + 4 * polls;
        return;
      }
      ok := op.Try(Sleep(CINNAMON_POLL_MS));
      if !ok { return; }
      polls := polls + 1;
    }
    ok := false;
  }

  /** `cinnamon_xkb_target_group` */
  function CinnamonTarget(groups: nat, group: nat): (target: Option<nat>)
    ensures target.Some? <==> groups == 2 && group < 2
    ensures target.Some? ==> target.value < 2 && target.value != group
  {
    if groups != 2 || group >= groups then None else Some((group + 1) % groups)
  }

  function ActivationLog(h: Host, target: nat): seq<Event> {
    [Event(Check, true)] + ReadLog(h) + CheckedLog(Prepare) + LatchLog(target)
  }

  /** The part of the Cinnamon replay before any key is touched: read the groups, announce the plan, activate. */
  method CinnamonActivate(op: Operation) returns (ok: bool)
    requires op.Valid() && op.open == Some([])
    modifies op
    ensures op.Valid() && op.open == Some([]) && op.issued == old(op.issued) && op.latches <= old(op.latches) + 1
    ensures old(op.slept) <= op.slept <= old(op.slept) + CINNAMON_SWITCH_TIMEOUT_MS
    ensures ok ==> op.host == X11Switch(old(op.host)) && old(op.host).groups == 2
    ensures ok ==> |op.log| >= 3 && op.log[|op.log| - 3] == Event(Query(op.host.group), true)
    // the reads, the announcement and the latch, in this order and each behind its checkpoint
    ensures ok ==> old(op.log) + ActivationLog(old(op.host), op.host.group) <= op.log
    ensures op.failures >= old(op.failures)
    ensures !ok ==>
      || op.failures > old(op.failures) || CinnamonTarget(old(op.host).groups, old(op.host).group).None?
      || old(op.world).now + CINNAMON_SWITCH_TIMEOUT_MS <= op.world.now
  {
    hide Operation.Valid;
    ok := op.Try(Check);
    if !ok { return; }
    ok := ReadGroups(op);
    if !ok { return; }
    var target := CinnamonTarget(op.host.groups, op.host.group);
    if target.None? { return false; }
    ok := CheckedCall(op, Prepare);
    if !ok { return; }
    ok := ActivateGroup(op, target.value);
  }

  /** The announced plan, cut after each of its parts. */
  lemma PlanParts(plan: Plan, m: ModifierState)
    ensures var frozen, all := PressedModifierKeys(m), GuardianPlanSteps(plan, m);
            var lifts, backs, types, rests := LiftSteps(frozen), BackspaceSteps(Backspaces(plan)),
                BufferSteps(plan.buffer, m.capsLock), RestoreSteps(frozen);
            && [] + lifts + (backs + types + rests) == all
            && lifts + backs + (types + rests) == all
            && lifts + backs + types + rests == all
  {
    hide PressedModifierKeys, LiftSteps, BackspaceSteps, BufferSteps, RestoreSteps;
    var frozen := PressedModifierKeys(m);
    Regroup(LiftSteps(frozen), BackspaceSteps(Backspaces(plan)), BufferSteps(plan.buffer, m.capsLock),
            RestoreSteps(frozen));
  }

  lemma Regroup(a: seq<PlanStep>, b: seq<PlanStep>, c: seq<PlanStep>, d: seq<PlanStep>)
    ensures [] + a + (b + c + d) == a + b + c + d == a + b + (c + d)
  {
  }

  lemma Regrouped(start: seq<PlanStep>, a: seq<PlanStep>, b: seq<PlanStep>, c: seq<PlanStep>)
    ensures start + a + b + c == start + (a + b + c)
  {
  }

  /** The longest that erasing and typing sleep. */
  function KeysMs(plan: Plan, config: Config): nat {
    Backspaces(plan) * (KEY_TAP_MS + config.backspaceMs)
    + |plan.buffer| * (KEY_TAP_MS + SHIFT_SETTLE_MS + config.typingMs)
  }

  lemma KeysFit(plan: Plan, config: Config)
    ensures var timeout := TransactionTimeout(plan, config, true);
            timeout.Some? ==> KeysMs(plan, config) + BACKEND_GRACE_MS + MODIFIER_SYNC_MS <= timeout.value
  {
    TimeoutCoversSchedule(plan, config, true);
    hide TransactionTimeout;
  }

  /** The part of the Cinnamon replay that touches keys. */
  method CinnamonKeys(op: Operation, plan: Plan, config: Config, m: ModifierState, owned: set<Key>) returns (ok: bool)
    requires op.Valid() && op.open == Some([])
    modifies op, op.core
    ensures op.Valid() && op.open == Some([]) && op.latches == old(op.latches)
    ensures op.slept <= old(op.slept) + KeysMs(plan, config)
    ensures ok ==> op.core.debts == old(op.core.debts)
    ensures ok ==> op.core.plan == old(op.core.plan) + Backwards(PressedModifierKeys(m))
    ensures op.checks == old(op.checks)
    ensures op.failures >= old(op.failures) && (ok <==> op.failures == old(op.failures))
    ensures IssuedPrefix(old(op.issued), op.issued, GuardianPlanSteps(plan, m))
    ensures ok ==> op.issued + RestoreSteps(PressedModifierKeys(m)) == old(op.issued) + GuardianPlanSteps(plan, m)
    ensures ok ==>
      var lifted := KeysUp(old(op.host), PressedModifierKeys(m));
      op.host == TypeAll(op.keymap, EraseAll(op.keymap, lifted, Backspaces(plan)), plan.buffer, m.capsLock)
  {
    hide Operation.Valid, EraseAll, TypeAll, KeysUp, BufferMs, Backspaces, Backwards, IssuedPrefix,
      PressedModifierKeys, LiftSteps, BackspaceSteps, BufferSteps, RestoreSteps;
    var frozen := PressedModifierKeys(m);
    ghost var start := op.issued;
    ghost var lifts, backs, types, rests := LiftSteps(frozen), BackspaceSteps(Backspaces(plan)),
        BufferSteps(plan.buffer, m.capsLock), RestoreSteps(frozen);
    PlanParts(plan, m);
    hide GuardianPlanSteps;
    MulMonotone(0, Backspaces(plan), 0, KEY_TAP_MS + config.backspaceMs);
    MulMonotone(0, |plan.buffer|, 0, KEY_TAP_MS + SHIFT_SETTLE_MS + config.typingMs);
    ok := LiftModifiers(op, frozen, owned);
    assert start + [] == start;
    IssuedPrefixExtends(start, [], op.issued, lifts, backs + types + rests);
    if !ok { return; }
    ok := ReplayBackspaces(op, Backspaces(plan), config.backspaceMs);
    IssuedPrefixExtends(start, lifts, op.issued, backs, types + rests);
    if !ok { return; }
    assert op.issued == start + (lifts + backs);
    ok := ReplayBuffer(op, plan.buffer, m.capsLock, config.typingMs);
    IssuedPrefixExtends(start, lifts + backs, op.issued, types, rests);
    if ok {
      Regrouped(start, lifts + backs, types, rests);
    }
  }

  /** `CinnamonGuardianReplay::run_correction`, up to the operation's finish: what it issues is the
      announced plan without its restore suffix, and a prefix of it at any failure. */
  method RunCinnamon(op: Operation, plan: Plan, config: Config, m: ModifierState, owned: set<Key>) returns (ok: bool)
    requires op.Valid() && op.open == Some([])
    modifies op, op.core
    ensures op.Valid() && op.open == Some([]) && op.latches <= old(op.latches) + 1
    ensures IssuedPrefix(old(op.issued), op.issued, GuardianPlanSteps(plan, m))
    ensures ok ==> op.issued + RestoreSteps(PressedModifierKeys(m)) == old(op.issued) + GuardianPlanSteps(plan, m)
    ensures ok ==> op.host == CinnamonResult(op.keymap, old(op.host), plan, m)
    ensures ok ==> old(op.host).groups == 2
    ensures ok ==> op.core.debts == old(op.core.debts)
    ensures ok ==> op.core.plan == old(op.core.plan) + Backwards(PressedModifierKeys(m))
    // it fails only when one of its calls did, there is no target group, or the server kept reporting another
    // group for 350 ms; and it begins nothing once its control is blocked
    ensures !ok ==>
      || op.failures > old(op.failures) || CinnamonTarget(old(op.host).groups, old(op.host).group).None?
      || (op.issued == old(op.issued) && old(op.world).now + CINNAMON_SWITCH_TIMEOUT_MS <= op.world.now)
    ensures Obedient(op.log, op.seen, op.control)
    // the sleeps fit the transaction's timeout: its grace and the spare modifier delay exceed the activation's 350 ms
    ensures var timeout := TransactionTimeout(plan, config, true);
            var spare := BACKEND_GRACE_MS + MODIFIER_SYNC_MS - CINNAMON_SWITCH_TIMEOUT_MS;
            timeout.Some? ==> op.slept + spare <= old(op.slept) + timeout.value
  {
    KeysFit(plan, config);
    hide Operation.Valid, Obedient, EraseAll, TypeAll, X11Switch, KeysUp, IssuedPrefix, PressedModifierKeys,
      GuardianPlanSteps, RestoreSteps, Backwards, KeysMs, TransactionTimeout;
    IssuedAll(op.issued, GuardianPlanSteps(plan, m));
    ok := CinnamonActivate(op);
    if ok {
      ok := CinnamonKeys(op, plan, config, m, owned);
    }
    op.Obeys();
  }
}
