/**
 A whole correction: the replay and then the finish of its synthetic operation, for every point at which the
 replay may fail and every answer of the sink.
 */
module CorrectionRuns {
  import opened Common
  import opened Keys
  import opened Desktop
  import opened Replay
  import opened SyntheticOperations
  import opened Corrections

  lemma HeldIn(down: bool, key: Key, k: Key)
    ensures k in Held(down, key) <==> down && k == key
  {
  }

  /** Both orders list exactly the held modifiers. */
  lemma ListedIff(m: ModifierState, k: Key)
    ensures k in PressedUinputModifierKeys(m) <==> k in HeldSet(m)
    ensures k in PressedModifierKeys(m) <==> k in HeldSet(m)
  {
    HeldIn(m.leftCtrl, LEFTCTRL, k);
    HeldIn(m.rightCtrl, RIGHTCTRL, k);
    HeldIn(m.leftShift, LEFTSHIFT, k);
    HeldIn(m.rightShift, RIGHTSHIFT, k);
    HeldIn(m.leftAlt, LEFTALT, k);
    HeldIn(m.rightAlt, RIGHTALT, k);
    HeldIn(m.leftMeta, LEFTMETA, k);
    HeldIn(m.rightMeta, RIGHTMETA, k);
    hide Held;
  }

  lemma HeldKeys(m: ModifierState)
    ensures Elems(Backwards(PressedUinputModifierKeys(m))) == HeldSet(m)
    ensures Elems(Backwards(PressedModifierKeys(m))) == HeldSet(m)
  {
    BackwardsSameKeys(PressedUinputModifierKeys(m));
    BackwardsSameKeys(PressedModifierKeys(m));
    hide Backwards, PressedModifierKeys, PressedUinputModifierKeys, HeldSet;
    forall k
      ensures k in PressedUinputModifierKeys(m) <==> k in HeldSet(m)
      ensures k in PressedModifierKeys(m) <==> k in HeldSet(m)
    {
      ListedIff(m, k);
    }
  }

  lemma BackwardsSameKeys(keys: seq<Key>)
    ensures Elems(Backwards(keys)) == Elems(keys)
  {
    forall k | k in Elems(keys) ensures k in Elems(Backwards(keys)) {
      var i :| 0 <= i < |keys| && keys[i] == k;
      assert Backwards(keys)[|keys| - 1 - i] == k;
    }
  }

  /** The plan steps of a finish's key-downs. */
  function Presses(events: seq<SinkEvent>): seq<PlanStep> {
    if events == [] then []
    else
      var last := events[|events| - 1];
      Presses(events[..|events| - 1]) + if last.Down? then [Prepared(last.key)] else []
  }

  lemma PressesFirst(e: SinkEvent, rest: seq<SinkEvent>)
    ensures Presses([e] + rest) == Presses([e]) + Presses(rest)
    decreases |rest|
  {
    if rest == [] {
      assert [e] + rest == [e];
    } else {
      var n := |rest| - 1;
      assert ([e] + rest)[..n + 1] == [e] + rest[..n];
      PressesFirst(e, rest[..n]);
    }
  }

  /** Modifiers lifted in the announced order are restored in the announced order. */
  lemma {:induction false} RestoredAsAnnounced(frozen: seq<Key>)
    ensures Presses(RestoreEvents(Backwards(frozen))) == RestoreSteps(frozen)
    decreases |frozen|
  {
    if frozen != [] {
      var plan, rest := Backwards(frozen), frozen[1..];
      var n := |plan| - 1;
      assert plan[n] == frozen[0] && plan[..n] == Backwards(rest);
      RestoredAsAnnounced(rest);
      PressesFirst(Down(frozen[0]), RestoreEvents(plan[..n]));
      assert Presses([Down(frozen[0])]) == [Prepared(frozen[0])] by {
        assert [Down(frozen[0])][..0] == [];
      }
      assert RestoreSteps(frozen) == [Prepared(frozen[0])] + RestoreSteps(rest);
    } else {
      assert Backwards(frozen) == [];
    }
  }

  /**
   `finish_guardian_synthetic_operation` and the end of `run_uinput_synthetic_operation`: a success and a matching
   soft cancel restore the lifted modifiers, any other error does not.
   */
  method Finish(core: SyntheticOperation, succeeded: bool, softCancelled: bool, cancelledMeanwhile: bool)
    returns (delivered: bool, report: TerminalReport)
    requires core.Replaying()
    modifies core
    ensures core.Valid() && core.plan == old(core.plan) && report.proof == core.TerminalProof()
    ensures report.proof == Reconciled ==> core.mayDown <= core.adopted <= Elems(core.plan)
    ensures !report.outcome.FinishedHardFailed? ==>
      && report.proof == Reconciled && core.adopted == Elems(core.plan)
      && core.mayUp == Elems(core.plan) * KeysOf(old(core.debts))
      && core.trace == old(core.trace) + RestoreEvents(core.plan) + ReleaseEvents(old(core.debts))
    ensures report.outcome.FinishedSuccess? ==> succeeded && !cancelledMeanwhile
    ensures report.outcome.FinishedSoftCancelled? ==> softCancelled || cancelledMeanwhile
    ensures !succeeded && !softCancelled ==>
      && report.outcome.FinishedHardFailed? && core.adopted == {}
      && core.mayUp == old(core.mayUp) + Elems(core.plan) * KeysOf(old(core.debts))
    ensures delivered <==> succeeded && !cancelledMeanwhile && !report.outcome.FinishedHardFailed?
    ensures (succeeded || softCancelled) && core.YesFrom(old(core.asked)) ==> !report.outcome.FinishedHardFailed?
  {
    hide KeysOf, Elems, Increasing, Distinct;
    if succeeded {
      report := core.FinishWithRestore(false, cancelledMeanwhile);
    } else if softCancelled {
      report := core.FinishWithRestore(true, cancelledMeanwhile);
    } else {
      report := core.FinishHardFailure();
    }
    delivered := succeeded && report.outcome.FinishedSuccess?;
  }

  /** A new operation that knows the held modifiers. */
  ghost predicate Begins(op: Operation, m: ModifierState)
    reads op, op.core
  {
    op.Valid() && op.open == Some([]) && op.core.debts == [] && op.core.plan == [] && op.core.frozen == HeldSet(m)
  }

  /** What the finish of a correction guarantees, `leftover` being the keys of the debts that its replay left. */
  ghost predicate Settled(core: SyntheticOperation, m: ModifierState, report: TerminalReport, delivered: bool,
                          leftover: set<Key>)
    reads core
  {
    // reconciled: of all keys only held modifiers that were restored may be down
    && (report.proof == Reconciled ==> core.mayDown <= core.adopted <= HeldSet(m))
    // otherwise the report says how many key-downs are still owed
    && (report.proof.Unreconciled? ==> report.proof.remaining == |core.debts| + |core.fallback| > 0)
    // a clean finish pressed every lifted modifier again, and one may be up exactly when a leftover debt has its key
    && (!report.outcome.FinishedHardFailed? ==>
          report.proof == Reconciled && core.adopted == Elems(core.plan) && core.mayUp == core.adopted * leftover)
    // a delivered correction left no debt, so all held modifiers are down again
    && (delivered ==> !report.outcome.FinishedHardFailed? && core.adopted == HeldSet(m) && core.mayUp == {})
  }

  /** The generic `run_correction` with its finish. */
  method CorrectGeneric(op: Operation, plan: Plan, config: Config, m: ModifierState, owned: set<Key>, hasX11: bool,
                        switchLayout: bool, softCancelled: bool, cancelledMeanwhile: bool)
    returns (delivered: bool, how: Option<SwitchOutcome>, report: TerminalReport, ghost leftover: set<Key>)
    requires Begins(op, m) && op.host.groups <= 255
    modifies op, op.core
    ensures Settled(op.core, m, report, delivered, leftover)
    ensures how.Some? ==> leftover == {}
    ensures how.None? ==> op.failures > old(op.failures)
    ensures Obedient(op.log, op.seen, op.control)
    ensures delivered <==> how.Some? && !cancelledMeanwhile && !report.outcome.FinishedHardFailed?
    ensures how.Some? && op.core.YesFrom(0) ==> !report.outcome.FinishedHardFailed?
    ensures delivered ==>
      how.Some? && op.host == GenericResult(op.keymap, old(op.host), plan, m, how.value, config.combo)
  {
    HeldKeys(m);
    NoKeys();
    hide Operation.Logged, KeysOf, Elems, Increasing, Distinct, Obedient,
      HeldSet, PressedUinputModifierKeys, GenericResult;
    how := RunGeneric(op, plan, config, m, owned, hasX11, switchLayout);
    leftover := KeysOf(op.core.debts);
    assert how.Some? ==> op.core.plan == Backwards(PressedUinputModifierKeys(m));
    delivered, report := Finish(op.core, how.Some?, softCancelled, cancelledMeanwhile);
  }

  /** The Cinnamon `run_correction` with its finish. */
  method CorrectCinnamon(op: Operation, plan: Plan, config: Config, m: ModifierState, owned: set<Key>,
                         softCancelled: bool, cancelledMeanwhile: bool)
    returns (delivered: bool, replayed: bool, report: TerminalReport, ghost leftover: set<Key>)
    requires Begins(op, m)
    modifies op, op.core
    ensures Settled(op.core, m, report, delivered, leftover)
    ensures replayed ==> leftover == {}
    // what the replay issued and what the finish pressed again is exactly the announced plan
    ensures replayed && !report.outcome.FinishedHardFailed? ==>
      op.issued + Presses(RestoreEvents(op.core.plan)) == old(op.issued) + GuardianPlanSteps(plan, m)
    ensures Obedient(op.log, op.seen, op.control)
    ensures delivered <==> replayed && !cancelledMeanwhile && !report.outcome.FinishedHardFailed?
    ensures replayed && op.core.YesFrom(0) ==> !report.outcome.FinishedHardFailed?
    ensures delivered ==> replayed && op.host == CinnamonResult(op.keymap, old(op.host), plan, m)
  {
    HeldKeys(m);
    NoKeys();
    hide Operation.Logged, KeysOf, Elems, Increasing, Distinct, Obedient,
      HeldSet, PressedModifierKeys, CinnamonResult, GuardianPlanSteps, RestoreSteps, RestoreEvents, Presses, Backwards;
    replayed := RunCinnamon(op, plan, config, m, owned);
    leftover := KeysOf(op.core.debts);
    assert replayed ==> op.core.plan == Backwards(PressedModifierKeys(m));
    RestoredAsAnnounced(PressedModifierKeys(m));
    delivered, report := Finish(op.core, replayed, softCancelled, cancelledMeanwhile);
  }
}
