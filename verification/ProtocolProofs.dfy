/** Every step keeps the protocol invariant, and what follows for every run. */
module ProtocolProofs {
  import opened Common
  import opened Protocol

  /** Steps that send nothing keep the completion channel's invariant. */
  lemma AnnouncementsKept(w: World, w': World)
    requires CompletionsInv(w) && w'.completions == w.completions && |w.controls| <= |w'.controls|
    requires forall c: nat :: c < |w.controls| ==>
      && w'.controls[c].manual == w.controls[c].manual && w'.controls[c].requestId == w.controls[c].requestId
      && w'.controls[c].sent == w.controls[c].sent
    requires forall c: nat :: |w.controls| <= c < |w'.controls| ==> w'.controls[c].sent == []
    ensures CompletionsInv(w')
  {
    forall i | 0 <= i < |w'.completions| ensures CompletionOf(w', w'.completions[i]) {
      assert CompletionOf(w, w.completions[i]);
    }
    forall c: nat | c < |w'.controls| && w'.controls[c].manual && w'.controls[c].sent != []
      ensures Announced(w', c)
    {
      assert Announced(w, c);
    }
  }

  /** Marking a timeout changes nothing of a control but its state, and never to Completed. */
  lemma MarkOnlyTimesOut(w: World)
    ensures forall m: nat :: m < |w.controls| ==>
              var w' := MarkTimedOut(w, m).0;
              && w'.holder == w.holder && |w'.controls| == |w.controls|
              && (forall c: nat :: c < |w.controls| ==>
                    && w'.controls[c] == w.controls[c].(state := w'.controls[c].state)
                    && (w'.controls[c].state == Completed ==> w.controls[c].state == Completed))
  {
  }

  /** A mark reports whether it was this one that timed the control out. */
  lemma MarkReports(w: World, c: nat)
    requires c < |w.controls|
    ensures var (w', marked) := MarkTimedOut(w, c);
            && (marked <==> !w.stop && w.controls[c].state == Pending)
            && (marked <==> w'.controls[c].state == TimedOut && w.controls[c].state != TimedOut)
            && (!marked ==> w' == w)
  {
  }

  lemma MarkKeeps(w: World, c: nat)
    requires Inv(w) && w.holder.None? && c < |w.controls| && Overdue(w, c)
    ensures var w' := MarkTimedOut(w, c).0; Inv(w') && Evolves(w, w')
  {
    var w' := MarkTimedOut(w, c).0;
    if w' != w {
      assert w'.controls[c].state == TimedOut && ControlInv(w, c);
      if w.failureId != 0 {
        var f: nat :| FailedBy(w, f);
        assert FailedBy(w', f);
      } else {
        assert FailedBy(w', c);
      }
      AnnouncementsKept(w, w');
      assert forall i: nat :: i < |w.controls| ==> ControlInv(w, i) ==> ControlInv(w', i);
    }
  }

  /** A change of the two flags of one pending control keeps everything else. */
  lemma FlagsKeep(w: World, c: nat, softCancel: bool, authorized: bool)
    requires Inv(w) && w.holder.None? && c < |w.controls|
    requires !w.stop && w.failureId == 0 && w.controls[c].state == Pending
    requires (w.controls[c].softCancel ==> softCancel) && (w.controls[c].authorized ==> authorized)
    ensures var w' := SetControl(w, c, w.controls[c].(softCancel := softCancel, authorized := authorized));
            Inv(w') && Evolves(w, w')
  {
    var w' := SetControl(w, c, w.controls[c].(softCancel := softCancel, authorized := authorized));
    assert ControlInv(w, c);
    AnnouncementsKept(w, w');
    assert forall i: nat :: i < |w.controls| ==> ControlInv(w, i) ==> ControlInv(w', i);
  }

  lemma SendKeepsCompletions(w: World, c: nat, how: Channel, reply: Reply)
    requires Inv(w) && w.holder.None? && c < |w.controls|
    requires PublishBegin(w, c, how, reply, true).1.InFlight?
    ensures CompletionsInv(PublishBegin(w, c, how, reply, true).0)
  {
    var w' := PublishBegin(w, c, how, reply, true).0;
    assert ControlInv(w, c) && w.controls[c].sent == [] && w'.controls[c].sent == [reply];
    forall i | 0 <= i < |w.completions|
      ensures CompletionOf(w', w.completions[i]) && w.completions[i].control != c
    {
      assert CompletionOf(w, w.completions[i]);
    }
    if w.controls[c].manual {
      assert w'.completions[|w.completions|] == Completion(c, w.controls[c].requestId, reply);
    }
    forall k: nat | k < |w'.controls| && w'.controls[k].manual && w'.controls[k].sent != []
      ensures Announced(w', k)
    {
      if k != c {
        assert Announced(w, k);
        var i :| 0 <= i < |w.completions| && w.completions[i].control == k;
        assert w'.completions[i].control == k;
      }
    }
  }

  lemma PublishBeginKeeps(w: World, c: nat, how: Channel, reply: Reply, receiverOpen: bool)
    requires Inv(w) && w.holder.None? && c < |w.controls|
    requires w.controls[c].open && Publishable(w.controls[c], how, reply)
    ensures var w' := PublishBegin(w, c, how, reply, receiverOpen).0; Inv(w') && Evolves(w, w')
  {
    var (w', p) := PublishBegin(w, c, how, reply, receiverOpen);
    if p.InFlight? {
      SendKeepsCompletions(w, c, how, reply);
      forall i: nat | i < |w.controls| ensures ControlInv(w', i) {
        assert ControlInv(w, i);
      }
    } else if w' != w {
      MarkKeeps(w, c);
    }
  }

  lemma PublishEndKeeps(w: World)
    requires Inv(w) && w.holder.Some?
    ensures var w' := PublishEnd(w);
            && Inv(w') && Evolves(w, w') && w'.holder.None?
            && w'.controls[w.holder.value].state == Completed
  {
    var w' := PublishEnd(w);
    AnnouncementsKept(w, w');
    assert forall i: nat :: i < |w.controls| ==> ControlInv(w, i) ==> ControlInv(w', i);
  }

  /** Sections that grant or deny: they change nothing, mark a timeout, or set a flag. */
  lemma PermitSectionsKeep(w: World, c: nat, before: bool, after: bool)
    requires Inv(w) && w.holder.None? && c < |w.controls|
    ensures var w' := EnsureActive(w, c, before, after).0; Inv(w') && Evolves(w, w')
    ensures var w' := AuthorizeMutation(w, c, before, after).0; Inv(w') && Evolves(w, w')
    ensures var w' := AuthorizeCleanup(w, c).0; Inv(w') && Evolves(w, w')
  {
    hide Inv, Evolves;
    EvolvesReflexive(w);
    if Overdue(w, c) {
      MarkKeeps(w, c);
    }
    if EnsureActive(w, c, before, after).1.Granted? {
      FlagsKeep(w, c, w.controls[c].softCancel, true);
    }
  }

  lemma SoftCancelKeeps(w: World, c: nat)
    requires Inv(w) && w.holder.None? && c < |w.controls|
    ensures var w' := RequestSoftCancel(w, c).0; Inv(w') && Evolves(w, w')
  {
    hide Inv, Evolves;
    EvolvesReflexive(w);
    if Overdue(w, c) {
      MarkKeeps(w, c);
    }
    if RequestSoftCancel(w, c).1.Requested? {
      FlagsKeep(w, c, true, w.controls[c].authorized);
    }
  }

  lemma CreateKeeps(w: World, k: Control)
    requires Inv(w) && k.requestId != 0 && k.state == Pending
    requires !k.softCancel && k.sent == [] && (k.open ==> !w.workerGone)
    ensures var w' := w.(controls := w.controls + [k]); Inv(w') && Evolves(w, w')
  {
    var w' := w.(controls := w.controls + [k]);
    assert forall i: nat :: i < |w.controls| ==> w'.controls[i] == w.controls[i];
    AnnouncementsKept(w, w');
    assert forall i: nat :: i < |w.controls| ==> ControlInv(w, i) ==> ControlInv(w', i);
    if w.failureId != 0 {
      var f: nat :| FailedBy(w, f);
      assert FailedBy(w', f);
    }
  }

  /** Closing sending ends changes nothing but `open`. */
  lemma CloseKeeps(w: World, w': World)
    requires Inv(w) && w.holder.None? && |w'.controls| == |w.controls|
    requires w' == w.(controls := w'.controls, workerGone := w'.workerGone) && (w.workerGone ==> w'.workerGone)
    requires forall i: nat :: i < |w.controls| ==>
      && w'.controls[i] == w.controls[i].(open := w'.controls[i].open)
      && (w'.controls[i].open ==> w.controls[i].open && (w'.workerGone ==> w.workerGone))
    ensures Inv(w') && Evolves(w, w')
  {
    AnnouncementsKept(w, w');
    assert forall i: nat :: i < |w.controls| ==> ControlInv(w, i) ==> ControlInv(w', i);
    if w.failureId != 0 {
      var f: nat :| FailedBy(w, f);
      assert FailedBy(w', f);
    }
  }

  lemma FlagKeeps(w: World, w': World)
    requires Inv(w) && w' == w.(now := w'.now, stop := w'.stop) && w.now <= w'.now && (w.stop ==> w'.stop)
    requires w'.stop != w.stop ==> w.holder.None?
    ensures Inv(w') && Evolves(w, w')
  {
    AnnouncementsKept(w, w');
    assert forall i: nat :: i < |w.controls| ==> ControlInv(w, i) ==> ControlInv(w', i);
    if w.failureId != 0 {
      var f: nat :| FailedBy(w, f);
      assert FailedBy(w', f);
    }
  }

  lemma EvolvesReflexive(w: World)
    ensures Evolves(w, w)
  {
  }

  lemma StepKeeps(w: World, a: Action)
    requires Inv(w)
    ensures Inv(Step(w, a)) && Evolves(w, Step(w, a))
  {
    hide Inv, Evolves;
    EvolvesReflexive(w);
    if Enabled(w, a) {
      match a
      case Tick(d) => FlagKeeps(w, Step(w, a));
      case Create(id, timeout, manual, enqueued) =>
        CreateKeeps(w, Control(id, w.now + timeout, manual, Pending, false, false, [], enqueued));
      case Stop => FlagKeeps(w, Step(w, a));
      case SoftCancelOf(c) => SoftCancelKeeps(w, c);
      case MarkOf(c) => MarkKeeps(w, c);
      case EnsureOf(c, before, after) => PermitSectionsKeep(w, c, before, after);
      case AuthorizeOf(c, before, after) => PermitSectionsKeep(w, c, before, after);
      case CleanupOf(c) => PermitSectionsKeep(w, c, true, true);
      case WorkerLossOf(c) =>
        if Overdue(w, c) {
          MarkKeeps(w, c);
        }
        FlagKeeps(w, w.(stop := true));
      case PublishOf(c, how, reply, receiverOpen) => PublishBeginKeeps(w, c, how, reply, receiverOpen);
      case FinishPublication => PublishEndKeeps(w);
      case DropSender(c) => CloseKeeps(w, Step(w, a));
      case WorkerExit => CloseKeeps(w, Step(w, a));
    }
  }

  lemma {:induction false} RunKeeps(w: World, acts: seq<Action>)
    requires Inv(w)
    ensures Inv(Run(w, acts)) && Evolves(w, Run(w, acts))
    decreases |acts|
  {
    if acts != [] {
      StepKeeps(w, acts[0]);
      RunKeeps(Step(w, acts[0]), acts[1..]);
      EvolvesTransitive(w, Step(w, acts[0]), Run(w, acts));
    }
  }

  lemma {:induction false} RunConcat(w: World, p: seq<Action>, q: seq<Action>)
    ensures Run(w, p + q) == Run(Run(w, p), q)
    decreases |p|
  {
    if p == [] {
      assert p + q == q;
    } else {
      assert (p + q)[0] == p[0] && (p + q)[1..] == p[1..] + q;
      RunConcat(Step(w, p[0]), p[1..], q);
    }
  }

  // ----- what holds in every run of any number of controls on one writer -----

  /** Reachable worlds satisfy the invariant, and any later world of the run is an evolution of them. */
  lemma EveryRun(before: seq<Action>, after: seq<Action>)
    ensures var w := Run(INITIAL, before); var w' := Run(INITIAL, before + after);
            Inv(w) && Inv(w') && Evolves(w, w')
  {
    RunKeeps(INITIAL, before);
    RunKeeps(Run(INITIAL, before), after);
    RunConcat(INITIAL, before, after);
  }

  /** A control leaves Pending at most once: Completed and TimedOut are absorbing in every run. */
  lemma TerminalStatesAbsorb(before: seq<Action>, after: seq<Action>, c: nat)
    requires c < |Run(INITIAL, before).controls|
    ensures c < |Run(INITIAL, before + after).controls|
    ensures var s := Run(INITIAL, before).controls[c].state;
            s != Pending ==> Run(INITIAL, before + after).controls[c].state == s
  {
    EveryRun(before, after);
  }

  /** The failure id is written at most once, names a control that timed out after its deadline, and nothing
      completes after it. */
  lemma FailureIsFinal(before: seq<Action>, after: seq<Action>)
    requires Run(INITIAL, before).failureId != 0
    ensures var w := Run(INITIAL, before); var w' := Run(INITIAL, before + after);
            && w'.failureId == w.failureId
            && (exists c: nat :: FailedBy(w, c))
            && |w.controls| <= |w'.controls|
            && (forall c: nat :: c < |w'.controls| && w'.controls[c].state == Completed ==>
                  c < |w.controls| && w.controls[c].state == Completed)
  {
    EveryRun(before, after);
    LaterControlsStayUnpublished(Run(INITIAL, before), after);
    RunConcat(INITIAL, before, after);
  }

  lemma NewControlsArePending(w: World, a: Action)
    ensures forall c: nat :: |w.controls| <= c < |Step(w, a).controls| ==>
              Step(w, a).controls[c].sent == [] && Step(w, a).controls[c].state == Pending
  {
  }

  /** A new control: its deadline is its timeout ahead, and nothing is cancelled, authorised or sent. */
  lemma CreatedInTime(w: World, a: Action)
    requires a.Create? && Enabled(w, a)
    ensures var w' := Step(w, a); var c := |w.controls|;
            && |w'.controls| == c + 1 && w'.controls[..c] == w.controls
            && w'.controls[c].requestId == a.requestId && w'.controls[c].manual == a.manual
            && w'.controls[c].deadline == w.now + a.timeout && w'.controls[c].open == a.enqueued
            && !Blocked(w', c) == (!w.stop && w.failureId == 0 && a.timeout > 0)
  {
  }

  /** After a failure or a stop, controls created later never get a reply and never complete. */
  lemma {:induction false} LaterControlsStayUnpublished(w: World, acts: seq<Action>)
    requires Inv(w) && (w.failureId != 0 || w.stop)
    ensures |w.controls| <= |Run(w, acts).controls|
    ensures forall c: nat :: |w.controls| <= c < |Run(w, acts).controls| ==>
              Run(w, acts).controls[c].sent == [] && Run(w, acts).controls[c].state != Completed
    decreases |acts|
  {
    hide Inv, Step;
    if acts != [] {
      var w1 := Step(w, acts[0]);
      StepKeeps(w, acts[0]);
      NewControlsArePending(w, acts[0]);
      LaterControlsStayUnpublished(w1, acts[1..]);
      RunKeeps(w1, acts[1..]);
      var w' := Run(w, acts);
      forall c: nat | |w.controls| <= c < |w'.controls|
        ensures w'.controls[c].sent == [] && w'.controls[c].state != Completed
      {
        if c < |w1.controls| {
          assert w1.controls[c].sent == [] && w1.controls[c].state == Pending;
          assert ControlEvolves(w1, w1.controls[c], w'.controls[c]);
        }
      }
    }
  }

  /** Once stop is set no control changes its state, its replies or its flags, whatever happens. */
  lemma StopFreezes(before: seq<Action>, after: seq<Action>, c: nat)
    requires Run(INITIAL, before).stop && c < |Run(INITIAL, before).controls|
    ensures c < |Run(INITIAL, before + after).controls|
    ensures var k := Run(INITIAL, before).controls[c]; var k' := Run(INITIAL, before + after).controls[c];
            k' == k.(open := k'.open)
  {
    EveryRun(before, after);
    var w, w' := Run(INITIAL, before), Run(INITIAL, before + after);
    assert ControlEvolves(w, w.controls[c], w'.controls[c]);
  }

  /** Outside a half-done publication, a control has exactly one reply when Completed and none otherwise. */
  lemma ExactlyOneReply(acts: seq<Action>, c: nat)
    requires c < |Run(INITIAL, acts).controls| && Run(INITIAL, acts).holder != Some(c)
    ensures |Run(INITIAL, acts).controls[c].sent| == if Run(INITIAL, acts).controls[c].state == Completed then 1 else 0
  {
    EveryRun(acts, []);
    assert acts + [] == acts;
    assert ControlInv(Run(INITIAL, acts), c);
  }

  /** After `request_soft_cancel` answers Requested, no run ever delivers a success for that control. */
  lemma SoftCancelExcludesSuccess(before: seq<Action>, c: nat, after: seq<Action>)
    requires c < |Run(INITIAL, before).controls| && Run(INITIAL, before).holder.None?
    requires RequestSoftCancel(Run(INITIAL, before), c).1 == Requested
    ensures var w' := Run(INITIAL, before + [SoftCancelOf(c)] + after);
            c < |w'.controls| && Succeeded !in w'.controls[c].sent && w'.controls[c].softCancel
  {
    var w := Run(INITIAL, before);
    RunConcat(INITIAL, before, [SoftCancelOf(c)]);
    assert Run(w, [SoftCancelOf(c)]) == Run(Step(w, SoftCancelOf(c)), []);
    EveryRun(before + [SoftCancelOf(c)], after);
    var w' := Run(INITIAL, before + [SoftCancelOf(c)] + after);
    assert ControlInv(w', c);
  }

  /** A publication, both halves, delivers its reply exactly when the writer runs, the control is pending and in
      time, the receiver is there, and the soft-cancel flag is as the way of publishing wants it. */
  lemma PublicationDeliversIff(w: World, c: nat, how: Channel, reply: Reply, receiverOpen: bool)
    requires Inv(w) && w.holder.None? && c < |w.controls|
    requires w.controls[c].open && Publishable(w.controls[c], how, reply)
    ensures var w' := Run(w, [PublishOf(c, how, reply, receiverOpen), FinishPublication]); var k := w.controls[c];
            && c < |w'.controls|
            && (w'.controls[c].sent == k.sent + [reply] && w'.controls[c].state == Completed
                <==> !CleanupBlocked(w, c) && receiverOpen
                     && (how == AsCompleted ==> !k.softCancel) && (how == AsSoftCancelled ==> k.softCancel))
            && (w'.controls[c].sent == k.sent || w'.controls[c].sent == k.sent + [reply])
  {
    assert ControlInv(w, c);
    hide Inv;
    var a := PublishOf(c, how, reply, receiverOpen);
    var w1 := Step(w, a);
    var w2 := Step(w1, FinishPublication);
    assert w2.controls[c].sent == w1.controls[c].sent;
    hide Step;
    assert [a, FinishPublication][1..] == [FinishPublication];
    assert Run(w1, [FinishPublication]) == Run(w2, [FinishPublication][1..]);
    assert Run(w, [a, FinishPublication]) == Run(w1, [FinishPublication]);
  }

  /** So a real failure of a manual correction is delivered whether or not the correction was soft-cancelled. */
  lemma FailureDeliveredDespiteSoftCancel(w: World, c: nat, error: Error, receiverOpen: bool)
    requires Inv(w) && w.holder.None? && c < |w.controls| && w.controls[c].manual && w.controls[c].open
    ensures var w' := Run(w, [PublishOf(c, AsFailed, Failed(error), receiverOpen), FinishPublication]);
            && c < |w'.controls|
            && (!CleanupBlocked(w, c) && receiverOpen ==>
                w'.controls[c].state == Completed && w'.controls[c].sent == [Failed(error)])
  {
    PublicationDeliversIff(w, c, AsFailed, Failed(error), receiverOpen);
    assert ControlInv(w, c);
  }

  /** Whatever section first touches a pending control at or after its deadline times it out and fails the writer. */
  lemma LateSectionTimesOut(w: World, a: Action)
    requires Enabled(w, a) && !w.stop && w.failureId == 0
    requires || a.SoftCancelOf? || a.MarkOf? || a.CleanupOf? || a.WorkerLossOf? || a.PublishOf?
             || ((a.EnsureOf? || a.AuthorizeOf?) && a.before)
    requires w.controls[a.c].state == Pending && w.now >= w.controls[a.c].deadline
    ensures var w' := Step(w, a);
            && w' == w.(controls := w'.controls, failureId := w'.failureId)
            && w'.controls == w.controls[a.c := w.controls[a.c].(state := TimedOut)]
            && w'.failureId == w.controls[a.c].requestId
  {
  }

  /** A stopped writer, or a closed sending end, leaves a pending control without a reply for ever. */
  lemma NeverCompletes(w: World, c: nat, acts: seq<Action>)
    requires Inv(w) && c < |w.controls| && w.controls[c].state == Pending && (w.stop || !w.controls[c].open)
    ensures c < |Run(w, acts).controls|
    ensures Run(w, acts).controls[c].state != Completed && Run(w, acts).controls[c].sent == []
  {
    assert ControlInv(w, c);
    RunKeeps(w, acts);
    var w' := Run(w, acts);
    assert ControlEvolves(w, w.controls[c], w'.controls[c]) && ControlInv(w', c);
  }

  /** Between two loads of another thread the worker may complete a pending control and the writer be stopped.  That
      can still happen exactly when the reply is already half published, or a publication could still go through.
      For a transaction, whose waiter has read Pending and reads the stop flag next, it hides the reply; the poll of
      a manual correction reads the state again. */
  lemma StopCanHideReplyIff(w: World, c: nat)
    requires Inv(w) && c < |w.controls| && w.controls[c].state == Pending
    ensures (exists acts :: HiddenBy(w, c, acts)) <==>
            || w.holder == Some(c)
            || (w.controls[c].open && !CleanupBlocked(w, c) && (w.controls[c].manual || !w.controls[c].softCancel))
  {
    if w.holder == Some(c) || !BeyondReply(w, c) {
      SomeStopHides(w, c);
    } else {
      assert ControlInv(w, c);
      forall acts ensures !HiddenBy(w, c, acts) {
        BeyondReplyForGood(w, c, acts);
      }
    }
  }

  /** After this run the control is Completed and the writer stopped. */
  ghost predicate HiddenBy(w: World, c: nat, acts: seq<Action>) {
    var w' := Run(w, acts);
    c < |w'.controls| && w'.stop && w'.controls[c].state == Completed
  }

  lemma RunOne(w: World, a: Action)
    ensures Run(w, [a]) == Step(w, a)
  {
    hide Step;
    assert Run(w, [a]) == Run(Step(w, a), [a][1..]);
  }

  lemma RunFour(w: World, a: Action, b: Action, c: Action, d: Action)
    ensures Run(w, [a, b, c, d]) == Step(Step(Step(Step(w, a), b), c), d)
  {
    hide Step, Run;
    RunConcat(w, [a, b, c], [d]);
    RunConcat(w, [a, b], [c]);
    RunConcat(w, [a], [b]);
    RunOne(w, a);
    RunOne(Step(w, a), b);
    RunOne(Step(Step(w, a), b), c);
    RunOne(Step(Step(Step(w, a), b), c), d);
    assert [a] + [b] == [a, b] && [a, b] + [c] == [a, b, c] && [a, b, c] + [d] == [a, b, c, d];
  }

  /** A run from the start in which a waiter is told Disconnected: it reads Pending after the first step and the stop
      flag after the last, and by then its control has its success. */
  lemma HiddenReplyReached()
    ensures var w := Run(INITIAL, [Create(1, 10, false, true)]);
            |w.controls| == 1 && w.controls[0].state == Pending && !w.stop
    ensures var publish := PublishOf(0, AsCompleted, Succeeded, true);
            var acts := [Create(1, 10, false, true), publish, FinishPublication, Stop];
            HiddenBy(INITIAL, 0, acts) && Run(INITIAL, acts).controls[0].sent == [Succeeded]
  {
    var create, publish := Create(1, 10, false, true), PublishOf(0, AsCompleted, Succeeded, true);
    var w1 := INITIAL.(controls := [Control(1, 10, false, Pending, false, false, [], true)]);
    assert Step(INITIAL, create) == w1;
    RunOne(INITIAL, create);
    RunFour(INITIAL, create, publish, FinishPublication, Stop);
    PublishedBy(w1, 0, AsCompleted, Succeeded);
    var w3 := Step(Step(w1, publish), FinishPublication);
    assert Step(w3, Stop) == w3.(stop := true);
  }

  /** No publication of this control can go through any more. */
  predicate BeyondReply(w: World, c: nat)
    requires c < |w.controls|
  {
    !w.controls[c].open || CleanupBlocked(w, c) || (w.controls[c].softCancel && !w.controls[c].manual)
  }

  lemma SomeStopHides(w: World, c: nat)
    requires Inv(w) && c < |w.controls| && w.controls[c].state == Pending
    requires w.holder == Some(c) || !BeyondReply(w, c)
    ensures exists acts :: HiddenBy(w, c, acts)
  {
    var k := w.controls[c];
    var how := if k.softCancel then AsFailed else AsCompleted;
    var reply := if k.softCancel then Failed(SessionLost) else Succeeded;
    var publish := PublishOf(c, how, reply, true);
    var acts := [FinishPublication, publish, FinishPublication, Stop];
    var w1 := Step(w, FinishPublication);
    var w2 := Step(w1, publish);
    var w3 := Step(w2, FinishPublication);
    var w4 := Step(w3, Stop);
    StepKeeps(w, FinishPublication);
    assert w.holder == Some(c) ==> w1.controls[c].state == Completed;
    assert w.holder != Some(c) ==> w1.controls[c] == k && !BeyondReply(w1, c);
    assert w1.holder.None? && c < |w1.controls|;
    PublishedBy(w1, c, how, reply);
    assert w3.holder.None? && w3.controls[c].state == Completed;
    assert w4.stop && w4.controls[c].state == Completed;
    RunFour(w, FinishPublication, publish, FinishPublication, Stop);
    assert HiddenBy(w, c, acts);
  }

  lemma PublishedBy(w: World, c: nat, how: Channel, reply: Reply)
    requires w.holder.None? && c < |w.controls|
    requires w.controls[c].state == Completed || (!BeyondReply(w, c) && Publishable(w.controls[c], how, reply))
    requires w.controls[c].state == Completed || (how == AsFailed) == w.controls[c].softCancel
    requires how != AsSoftCancelled
    ensures var w' := Step(Step(w, PublishOf(c, how, reply, true)), FinishPublication);
            && c < |w'.controls| && w'.holder.None? && w'.controls[c].state == Completed
            && w'.controls[c].sent == if w.controls[c].state == Completed then w.controls[c].sent
                                      else w.controls[c].sent + [reply]
  {
  }

  /** Without a publication of it, a control neither takes the gate nor completes. */
  lemma OnlyPublicationCompletes(w: World, c: nat, a: Action)
    requires c < |w.controls| && w.holder != Some(c) && w.controls[c].state != Completed
    requires !(a.PublishOf? && a.c == c)
    ensures var w' := Step(w, a); c < |w'.controls| && w'.holder != Some(c) && w'.controls[c].state != Completed
  {
    hide MarkTimedOut, Publishable, TimedOutError;
    MarkOnlyTimesOut(w);
  }

  lemma BeyondReplyRefuses(w: World, a: Action)
    requires a.PublishOf? && a.c < |w.controls| && BeyondReply(w, a.c)
    requires w.holder != Some(a.c) && w.controls[a.c].state != Completed
    ensures var w' := Step(w, a);
            a.c < |w'.controls| && w'.holder != Some(a.c) && w'.controls[a.c].state != Completed
  {
  }

  lemma BeyondReplyStays(w: World, c: nat, a: Action)
    requires Inv(w) && c < |w.controls| && BeyondReply(w, c)
    requires w.holder != Some(c) && w.controls[c].state != Completed
    ensures var w' := Step(w, a);
            c < |w'.controls| && BeyondReply(w', c) && w'.holder != Some(c) && w'.controls[c].state != Completed
  {
    hide Inv, Step;
    StepKeeps(w, a);
    assert ControlEvolves(w, w.controls[c], Step(w, a).controls[c]);
    if a.PublishOf? && a.c == c {
      BeyondReplyRefuses(w, a);
    } else {
      OnlyPublicationCompletes(w, c, a);
    }
  }

  lemma {:induction false} BeyondReplyForGood(w: World, c: nat, acts: seq<Action>)
    requires Inv(w) && c < |w.controls| && BeyondReply(w, c)
    requires w.holder != Some(c) && w.controls[c].state != Completed
    ensures c < |Run(w, acts).controls| && Run(w, acts).controls[c].state != Completed
    decreases |acts|
  {
    hide Inv, Step, BeyondReply;
    if acts != [] {
      StepKeeps(w, acts[0]);
      BeyondReplyStays(w, c, acts[0]);
      BeyondReplyForGood(Step(w, acts[0]), c, acts[1..]);
    }
  }

  // ----- permits -----

  /** Everything that blocks a mutation permit. */
  predicate Blocked(w: World, c: nat)
    requires c < |w.controls|
  {
    CleanupBlocked(w, c) || w.controls[c].softCancel
  }

  predicate CleanupBlocked(w: World, c: nat)
    requires c < |w.controls|
  {
    w.stop || w.failureId != 0 || w.controls[c].state != Pending || w.now >= w.controls[c].deadline
  }

  /** A permit is granted exactly when nothing blocks it and both session checks pass. */
  lemma PermitIffUnblocked(w: World, c: nat, before: bool, after: bool)
    requires c < |w.controls|
    ensures AuthorizeMutation(w, c, before, after).1.Granted? <==> !Blocked(w, c) && before && after
    ensures AuthorizeMutation(w, c, before, after).1.Granted? ==>
              AuthorizeMutation(w, c, before, after).0 == SetControl(w, c, w.controls[c].(authorized := true))
    ensures AuthorizeCleanup(w, c).1.Granted? <==> !CleanupBlocked(w, c)
    ensures AuthorizeMutation(w, c, before, after).1.Granted? ==> AuthorizeCleanup(w, c).1.Granted?
    ensures AuthorizeCleanup(w, c).1.Granted? && !AuthorizeMutation(w, c, before, after).1.Granted? <==>
            !CleanupBlocked(w, c) && (w.controls[c].softCancel || !before || !after)
  {
  }

  /** Why a permit is denied: each reason is reported exactly for its own situation, in the source's order. */
  lemma DenialReasons(w: World, c: nat, after: bool)
    requires Inv(w) && c < |w.controls|
    ensures var p := EnsureActive(w, c, true, after).1; var k := w.controls[c];
            && (p == Denied(Disconnected) <==> w.stop)
            && (p == Denied(AlreadyCompleted(k.requestId)) <==> !w.stop && w.failureId == 0 && k.state == Completed)
            && (p == Denied(CancelledRequest(k.requestId)) <==> !CleanupBlocked(w, c) && k.softCancel)
            && (p == Denied(SessionLost) <==> !Blocked(w, c) && !after)
            && (p.Denied? && p.error.TimedOutBy? <==>
                  !w.stop && (w.failureId != 0 || k.state == TimedOut || (k.state == Pending && w.now >= k.deadline)))
            && (p.Denied? && p.error.TimedOutBy? ==>
                p.error.requestId == EnsureActive(w, c, true, after).0.failureId != 0)
  {
    assert ControlInv(w, c);
  }

  /** A cleanup permit is denied exactly as a mutation permit of a control that is not soft-cancelled. */
  lemma CleanupDeniesAlike(w: World, c: nat)
    requires c < |w.controls|
    ensures CleanupBlocked(w, c) ==> AuthorizeCleanup(w, c) == EnsureActive(w, c, true, true)
    ensures !CleanupBlocked(w, c) ==> AuthorizeCleanup(w, c) == (w, Granted)
  {
  }

  /** What a soft-cancel request answers, and that only Requested sets the flag. */
  lemma SoftCancelAnswers(w: World, c: nat)
    requires c < |w.controls|
    ensures var (w', answer) := RequestSoftCancel(w, c); var k := w.controls[c];
            && (answer == Requested <==> !Blocked(w, c))
            && (answer == AlreadyRequested <==> !CleanupBlocked(w, c) && k.softCancel)
            && (answer == AlreadyDone <==> !w.stop && w.failureId == 0 && k.state == Completed)
            && (answer == Requested ==> w' == SetControl(w, c, k.(softCancel := true)))
            && (answer == AlreadyRequested || answer == AlreadyDone ==> w' == w)
  {
  }

  /** The loss of the input worker stops the writer exactly when the waiting control is unblocked, soft-cancelled
      or not. */
  lemma WorkerLossStopsIff(w: World, c: nat)
    requires c < |w.controls|
    ensures var (w', stopped) := StopForWorkerLoss(w, c);
            && (stopped <==> !CleanupBlocked(w, c))
            && (stopped ==> w' == w.(stop := true))
            && (!stopped ==> w'.stop == w.stop)
  {
  }

  /** Permits are anti-monotone: once blocked, a control gets no permit in any continuation of the run. */
  lemma NoPermitAfterBlocked(w: World, c: nat, acts: seq<Action>, before: bool, after: bool)
    requires Inv(w) && c < |w.controls|
    ensures c < |Run(w, acts).controls|
    ensures Blocked(w, c) ==> AuthorizeMutation(Run(w, acts), c, before, after).1.Denied?
    ensures CleanupBlocked(w, c) ==> AuthorizeCleanup(Run(w, acts), c).1.Denied?
  {
    RunKeeps(w, acts);
    var w' := Run(w, acts);
    assert ControlEvolves(w, w.controls[c], w'.controls[c]);
    PermitIffUnblocked(w', c, before, after);
  }
}
