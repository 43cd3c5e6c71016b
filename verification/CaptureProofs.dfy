/** No stuck keys and the lease law, over every run of the capture session. */
module CaptureProofs {
  import opened Common
  import opened Keys
  import opened Capture

  /** The recogniser reports a combination exactly for the key sets that stand for it. */
  lemma EvaluateIff(keys: set<CaptureKey>, combo: Combo)
    ensures Evaluate(keys) == Matches(combo) <==> keys in Chords(combo)
  {
    SingleIsSingle(keys, CapsKey);
    PairIsPair(keys, LeftCtrl, LeftShift);
    PairIsPair(keys, RightCtrl, RightShift);
    PairIsPair(keys, LeftAlt, LeftShift);
    PairIsPair(keys, RightAlt, RightShift);
    PairIsPair(keys, LeftCtrl, RightShift);
    PairIsPair(keys, RightCtrl, LeftShift);
    PairIsPair(keys, LeftAlt, RightShift);
    PairIsPair(keys, RightAlt, LeftShift);
    PairIsPair(keys, LeftCtrl, SpaceKey);
    PairIsPair(keys, RightCtrl, SpaceKey);
    PairIsPair(keys, Super, SpaceKey);
  }

  /** It waits for more exactly while the keys are a proper part of some combination and Space is not among them: a
      Space that completes nothing gives up. */
  lemma WaitingIff(keys: set<CaptureKey>)
    ensures Evaluate(keys) == StillWaiting <==>
            SpaceKey !in keys && exists combo, chord :: chord in Chords(combo) && keys < chord
  {
    if Evaluate(keys) == StillWaiting {
      if keys == {} {
        assert {CapsKey} in Chords(CapsLockCombo) && keys < {CapsKey};
      } else {
        var k :| k in keys;
        SingleIsSingle(keys, k);
        PartOfChord(k);
      }
    } else if SpaceKey !in keys {
      forall combo, chord | chord in Chords(combo) ensures !(keys < chord) {
        SmallerThanChord(keys, chord, combo);
      }
    }
  }

  /** Every capture key but Caps Lock and Space is a proper part of some combination. */
  lemma PartOfChord(k: CaptureKey)
    requires k != CapsKey && k != SpaceKey
    ensures exists combo, chord :: chord in Chords(combo) && {k} < chord
  {
    match k
    case LeftCtrl => assert {LeftCtrl, LeftShift} in Chords(LeftCtrlLeftShift) && {k} < {LeftCtrl, LeftShift};
    case RightCtrl => assert {RightCtrl, RightShift} in Chords(RightCtrlRightShift) && {k} < {RightCtrl, RightShift};
    case LeftAlt => assert {LeftAlt, LeftShift} in Chords(LeftAltLeftShift) && {k} < {LeftAlt, LeftShift};
    case RightAlt => assert {RightAlt, RightShift} in Chords(RightAltRightShift) && {k} < {RightAlt, RightShift};
    case LeftShift => assert {LeftCtrl, LeftShift} in Chords(LeftCtrlLeftShift) && {k} < {LeftCtrl, LeftShift};
    case RightShift => assert {RightCtrl, RightShift} in Chords(RightCtrlRightShift) && {k} < {RightCtrl, RightShift};
    case Super => assert {Super, SpaceKey} in Chords(SuperSpace) && {k} < {Super, SpaceKey};
  }

  lemma ChordIsPair(chord: set<CaptureKey>, combo: Combo)
    requires chord in Chords(combo)
    ensures |chord| <= 2 && (CapsKey in chord ==> chord == {CapsKey})
  {
  }

  lemma ProperPart(keys: set<CaptureKey>, chord: set<CaptureKey>)
    requires keys < chord && |chord| <= 2
    ensures |keys| <= 1
  {
    var rest := chord - keys;
    assert chord == keys + rest && rest != {};
    assert |chord| == |keys| + |rest|;
  }

  /** A proper part of a chord has at most one key, and never Caps Lock. */
  lemma SmallerThanChord(keys: set<CaptureKey>, chord: set<CaptureKey>, combo: Combo)
    requires chord in Chords(combo) && SpaceKey !in keys
    ensures keys < chord ==> Evaluate(keys) == StillWaiting
  {
    ChordIsPair(chord, combo);
    hide Chords;
    if keys < chord {
      ProperPart(keys, chord);
    }
  }

  /** The capture keys are the modifiers, Space and Caps Lock, each its own, only the two Super keys are the same. */
  lemma CaptureKeysAre(a: Key, b: Key)
    ensures CaptureKeyOf(a).Some? <==> a in MODIFIERS || a == SPACE || a == CAPSLOCK
    ensures CaptureKeyOf(a).Some? && CaptureKeyOf(a) == CaptureKeyOf(b) <==>
            CaptureKeyOf(a).Some? && (a == b || {a, b} == {LEFTMETA, RIGHTMETA})
  {
    assert {LEFTMETA, RIGHTMETA} == {RIGHTMETA, LEFTMETA};
    if a in {LEFTMETA, RIGHTMETA} && b in {LEFTMETA, RIGHTMETA} && a != b {
      assert {a, b} == {LEFTMETA, RIGHTMETA};
    }
    if {a, b} == {LEFTMETA, RIGHTMETA} {
      assert a in {a, b} && b in {a, b};
    }
  }

  datatype OwnerCall = Start | Renew | CancelIt | FinishIt | Disappear | Expire

  datatype Input =
    | Call(now: nat, owner: Owner, call: OwnerCall)
    | Physical(now: nat, key: Key, value: int)

  /** The session with the keyboard before it, the keys seen down after it, and when its lease began. */
  datatype World = World(session: Session, now: nat, started: nat, physical: set<Key>, downstream: set<Key>)

  const INITIAL: World := World(IDLE, 0, 0, {}, {})

  function Apply(s: Session, now: nat, owner: Owner, call: OwnerCall): Session {
    match call
    case Start => StartOwned(s, owner, now).0
    case Renew => RenewOwned(s, owner, now).0
    case CancelIt => CancelOwned(s, owner, now).0
    case FinishIt => FinishOwned(s, owner, now).0
    case Disappear => OwnerDisappeared(s, owner, now)
    case Expire => ExpireAt(s, now)
  }

  function Moved(down: set<Key>, key: Key, value: int): set<Key> {
    if value == 1 then down + {key} else if value == 0 then down - {key} else down
  }

  /** The clock does not go back; a key goes down only when up, and comes up or repeats only when down. */
  predicate WellFormed(w: World, i: Input) {
    i.now >= w.now && (i.Physical? ==> (i.value == 1 <==> i.key !in w.physical))
  }

  /** One call or event, with what it does to the keyboards and the clock. */
  function Advance(w: World, i: Input): World {
    match i
    case Call(now, owner, call) =>
      // a start that finds no live lease begins a new one
      var begins := call == Start && ExpireAt(w.session, now).lease.None?;
      w.(session := Apply(w.session, now, owner, call), now := now, started := if begins then now else w.started)
    case Physical(now, key, value) =>
      var (s, outcome) := RouteEventAt(w.session, now, key, value);
      w.(session := s, now := now, physical := Moved(w.physical, key, value),
         downstream := if outcome.disposition == Suppress then w.downstream else Moved(w.downstream, key, value))
  }

  function Step(w: World, i: Input): World {
    if WellFormed(w, i) then Advance(w, i) else w
  }

  function Run(w: World, inputs: seq<Input>): World
    decreases |inputs|
  {
    if inputs == [] then w else Run(Step(w, inputs[0]), inputs[1..])
  }

  predicate Backed(s: Session) {
    forall k :: k in s.progress ==> exists key :: key in s.suppressed && CaptureKeyOf(key) == Some(k)
  }

  /** No key is stuck: what is down downstream is what is down physically, except for the suppressed keys. */
  predicate NoStuckKeys(w: World) {
    && w.session.suppressed <= w.physical
    && w.downstream == w.physical - w.session.suppressed
    && Backed(w.session)
  }

  predicate LeaseLaw(w: World) {
    && (Active(w.session.state) <==> w.session.lease.Some?)
    && (w.session.lease.Some? ==>
          w.now < w.session.lease.value.soft <= w.session.lease.value.absolute == w.started + 65_000)
    && (!Active(w.session.state) ==> w.session.progress == {})
  }

  /** A routed event leaves every key in progress backed by a suppressed one. */
  lemma RouteKeepsBacked(s: Session, now: nat, key: Key, value: int)
    requires Backed(s)
    ensures Backed(RouteEventAt(s, now, key, value).0)
  {
    hide Evaluate;
  }

  /** The suppressed keys after an event: the press of a key may add it, its release removes it, and
      what happens to other keys is nothing. */
  lemma RouteSuppression(s: Session, now: nat, key: Key, value: int)
    ensures var (s', o) := RouteEventAt(s, now, key, value);
            && s'.suppressed - {key} == s.suppressed - {key}
            && (key in s'.suppressed <==>
                (key in s.suppressed && value != 0) || (key !in s.suppressed && o.disposition == Suppress))
            && (key in s.suppressed ==> o.disposition == Suppress)
            && (key !in s.suppressed && value != 1 ==> o.disposition != Suppress)
  {
    hide Evaluate;
  }

  lemma RouteKeepsLease(w: World, now: nat, key: Key, value: int)
    requires LeaseLaw(w) && now >= w.now
    ensures LeaseLaw(w.(session := RouteEventAt(w.session, now, key, value).0, now := now))
  {
    hide Evaluate, CaptureKeyOf;
  }

  lemma RouteKeeps(w: World, now: nat, key: Key, value: int)
    requires NoStuckKeys(w) && LeaseLaw(w) && WellFormed(w, Physical(now, key, value))
    ensures var w' := Step(w, Physical(now, key, value)); NoStuckKeys(w') && LeaseLaw(w')
  {
    hide RouteEventAt;
    RouteKeepsBacked(w.session, now, key, value);
    RouteSuppression(w.session, now, key, value);
    RouteKeepsLease(w, now, key, value);
    var w' := Step(w, Physical(now, key, value));
    forall k
      ensures k in w'.downstream <==> k in w'.physical && k !in w'.session.suppressed
      ensures k in w'.session.suppressed ==> k in w'.physical
    {
      if k != key {
        assert k in w'.session.suppressed - {key} <==> k in w.session.suppressed - {key};
      }
    }
  }

  lemma StepKeeps(w: World, i: Input)
    requires NoStuckKeys(w) && LeaseLaw(w)
    ensures NoStuckKeys(Step(w, i)) && LeaseLaw(Step(w, i))
  {
    if WellFormed(w, i) && i.Physical? {
      RouteKeeps(w, i.now, i.key, i.value);
    }
  }

  /** In every run of well-formed key events and owner calls no key is stuck, the session is active exactly
      when a lease exists, and a live lease is in time and ends 65 s after its start at the latest. */
  lemma {:induction false} RunKeeps(w: World, inputs: seq<Input>)
    requires NoStuckKeys(w) && LeaseLaw(w)
    ensures NoStuckKeys(Run(w, inputs)) && LeaseLaw(Run(w, inputs))
    decreases |inputs|
  {
    if inputs != [] {
      StepKeeps(w, inputs[0]);
      RunKeeps(Step(w, inputs[0]), inputs[1..]);
    }
  }

  lemma EveryCaptureRun(inputs: seq<Input>)
    ensures NoStuckKeys(Run(INITIAL, inputs)) && LeaseLaw(Run(INITIAL, inputs))
  {
    RunKeeps(INITIAL, inputs);
  }

  /** When every physical key is up again, nothing is suppressed and nothing is down downstream. */
  lemma AllKeysUpMeansClean(inputs: seq<Input>)
    requires Run(INITIAL, inputs).physical == {}
    ensures var w := Run(INITIAL, inputs); w.downstream == {} && w.session.suppressed == {} && w.session.progress == {}
  {
    EveryCaptureRun(inputs);
    var w := Run(INITIAL, inputs);
    assert w.session.suppressed == {};
  }

  predicate Foreign(l: Lease, i: Input) {
    i.Call? && i.owner != l.owner && i.now < l.soft
  }

  /** Before the soft deadline no calls of other owners, however many, change the session. */
  lemma {:induction false} ForeignCallsChangeNothing(w: World, inputs: seq<Input>)
    requires LeaseLaw(w) && w.session.lease.Some?
    requires forall i :: 0 <= i < |inputs| ==> Foreign(w.session.lease.value, inputs[i])
    ensures Run(w, inputs).session == w.session
    decreases |inputs|
  {
    if inputs != [] {
      var w1 := Step(w, inputs[0]);
      assert Foreign(w.session.lease.value, inputs[0]);
      assert w1.session == w.session;
      ForeignCallsChangeNothing(w1, inputs[1..]);
    }
  }

  /** An epoch reset keeps the key law exactly when no key is suppressed. */
  lemma ResetKeepsKeysIff(w: World)
    requires NoStuckKeys(w)
    ensures NoStuckKeys(w.(session := AfterReset(w.session))) <==> w.session.suppressed == {}
  {
  }

  function AtStart(owner: Owner): World {
    Step(INITIAL, Call(0, owner, Start))
  }

  function CtrlHeld(owner: Owner): World {
    Step(AtStart(owner), Physical(0, LEFTCTRL, 1))
  }

  lemma CtrlIsHeld(owner: Owner)
    ensures CtrlHeld(owner) ==
            World(Session({LeftCtrl}, Waiting, Some(Lease(owner, SOFT_LEASE_MS, ABSOLUTE_LEASE_MS)), {LEFTCTRL}),
                  0, 0, {LEFTCTRL}, {})
  {
    var lease := Lease(owner, SOFT_LEASE_MS, ABSOLUTE_LEASE_MS);
    assert AtStart(owner) == World(Session({}, Waiting, Some(lease), {}), 0, 0, {}, {});
  }

  /** A run that leads to a harmful reset: capture starts and Ctrl goes down. */
  lemma ResetCanStrandKey(owner: Owner)
    ensures var w := Run(INITIAL, [Call(0, owner, Start), Physical(0, LEFTCTRL, 1)]);
            NoStuckKeys(w) && !NoStuckKeys(w.(session := AfterReset(w.session)))
  {
    var inputs := [Call(0, owner, Start), Physical(0, LEFTCTRL, 1)];
    EveryCaptureRun(inputs);
    CtrlIsHeld(owner);
    assert inputs[1..] == [Physical(0, LEFTCTRL, 1)] && inputs[1..][1..] == [];
    hide Step;
    assert Run(AtStart(owner), inputs[1..]) == Run(CtrlHeld(owner), inputs[1..][1..]);
    assert Run(INITIAL, inputs) == CtrlHeld(owner);
    ResetKeepsKeysIff(CtrlHeld(owner));
  }

  // ----- what each call answers and does -----

  /** There is a lease and both of its deadlines are ahead. */
  predicate Live(s: Session, now: nat) {
    s.lease.Some? && now < s.lease.value.soft && now < s.lease.value.absolute
  }

  /** The answers: Busy and NotOwner exactly against a live lease of someone else, NotActive exactly without one. */
  lemma CallAnswersIff(s: Session, owner: Owner, now: nat)
    ensures StartOwned(s, owner, now).1.Busy? <==> Live(s, now) && s.lease.value.owner != owner
    ensures StartOwned(s, owner, now).1.Ok? <==> !(Live(s, now) && s.lease.value.owner != owner)
    ensures forall r | r in {RenewOwned(s, owner, now).1, CancelOwned(s, owner, now).1, FinishOwned(s, owner, now).1} ::
              && (r.NotActive? <==> !Live(s, now))
              && (r.NotOwner? <==> Live(s, now) && s.lease.value.owner != owner)
              && (r.Ok? <==> Live(s, now) && s.lease.value.owner == owner)
    // and Ok carries the state that the call left
    ensures forall call | call in {StartOwned(s, owner, now), RenewOwned(s, owner, now), CancelOwned(s, owner, now),
                                   FinishOwned(s, owner, now)} ::
              call.1.Ok? ==> call.1.state == call.0.state
  {
  }

  /** The owner of a live lease: starting again or renewing only moves the soft deadline, to ten seconds from now
      but never past the absolute one; cancelling, finishing and disappearing end the session and keep the
      suppressed keys. */
  lemma OwnerCallsAct(s: Session, owner: Owner, now: nat)
    requires Live(s, now) && s.lease.value.owner == owner
    ensures StartOwned(s, owner, now).0 == RenewOwned(s, owner, now).0
    ensures var s' := RenewOwned(s, owner, now).0;
            && s'.lease.Some? && s' == s.(lease := Some(s.lease.value.(soft := s'.lease.value.soft)))
            && s'.lease.value.soft <= s.lease.value.absolute && s'.lease.value.soft <= now + 10_000
            && (s'.lease.value.soft == s.lease.value.absolute || s'.lease.value.soft == now + 10_000)
    ensures CancelOwned(s, owner, now).0 == OwnerDisappeared(s, owner, now)
    ensures CancelOwned(s, owner, now).0 == Session({}, Cancelled, None, s.suppressed)
    ensures FinishOwned(s, owner, now).0 == Session({}, Finished, None, s.suppressed)
  {
  }

  function StateFor(e: Evaluation): CaptureState {
    match e
    case StillWaiting => Waiting
    case Matches(combo) => Candidate(combo)
    case NoMatch => Unsupported
  }

  lemma PressFollowsEvaluation(s: Session, now: nat, key: Key)
    requires Active(s.state) && !Expired(s, now) && key !in s.suppressed && CaptureKeyOf(key).Some?
    ensures var keys := s.progress + {CaptureKeyOf(key).value}; var s' := RouteEventAt(s, now, key, 1).0;
            && s'.state == StateFor(Evaluate(keys))
            && (key in s'.suppressed <==> s'.state != Unsupported)
            && s'.progress == if s'.state == Unsupported then {} else keys
  {
    assert key != ESC;
    hide Evaluate, CaptureKeyOf;
  }

  /** A fresh press of a capture key in a live session makes a candidate exactly when the keys then held form its
      chord, and gives up exactly when they match nothing. */
  lemma PressRecognisesIff(s: Session, now: nat, key: Key, combo: Combo)
    requires Active(s.state) && !Expired(s, now) && key !in s.suppressed && CaptureKeyOf(key).Some?
    ensures var keys := s.progress + {CaptureKeyOf(key).value}; var s' := RouteEventAt(s, now, key, 1).0;
            && (s'.state == Candidate(combo) <==> keys in Chords(combo))
            && (s'.state == Unsupported <==> Evaluate(keys) == NoMatch)
            && (key in s'.suppressed <==> s'.state != Unsupported)
            && (s'.progress == if s'.state == Unsupported then {} else keys)
  {
    hide RouteEventAt, Evaluate, CaptureKeyOf, Chords;
    PressFollowsEvaluation(s, now, key);
    EvaluateIff(s.progress + {CaptureKeyOf(key).value}, combo);
  }

  /** Where an event goes: past the session when there is none, around the word tracking when the session is live and
      does not want the event, and nowhere else otherwise. */
  lemma DispositionIff(s: Session, now: nat, key: Key, value: int)
    requires Active(s.state) <==> s.lease.Some?
    ensures var (s', o) := RouteEventAt(s, now, key, value);
            && (o.disposition == PassThrough <==> key !in s.suppressed && !Live(s, now))
            && (o.disposition == ForwardDirect <==>
                key !in s.suppressed && Live(s, now) && (value != 1 || s'.state == Unsupported))
            && (o.disposition == Suppress <==>
                key in s.suppressed || (Live(s, now) && value == 1 && s'.state != Unsupported))
  {
    hide Evaluate, CaptureKeyOf;
  }

  /** Escape ends a live session, and is itself hidden. */
  lemma EscapeCancels(s: Session, now: nat)
    requires Live(s, now) && Active(s.state) && 1 !in s.suppressed
    ensures var (s', o) := RouteEventAt(s, now, 1, 1);
            && s' == Session({}, Cancelled, None, s.suppressed + {1}) && o == Outcome(Suppress, Some(Cancelled))
  {
    hide Evaluate;
  }

  /** The left-hand variant that a generic combination is recognised as when its left-hand keys are used. */
  function LeftHanded(combo: Combo): Combo {
    match combo
    case CtrlShift => LeftCtrlLeftShift
    case AltShift => LeftAltLeftShift
    case _ => combo
  }

  /** What the capture recognises is what the replay emits: the keys that replay a combination are captured as it. */
  lemma CapturedIsReplayed(combo: Combo)
    ensures forall k :: k in ComboSequence(combo) ==> CaptureKeyOf(k).Some?
    ensures Evaluate(set k | k in ComboSequence(combo) :: CaptureKeyOf(k).value) == Matches(LeftHanded(combo))
  {
    var keys := ComboSequence(combo);
    var captured := set k | k in keys :: CaptureKeyOf(k).value;
    var first, last := CaptureKeyOf(keys[0]).value, CaptureKeyOf(keys[|keys| - 1]).value;
    assert keys[0] in keys && keys[|keys| - 1] in keys;
    assert captured == {first, last};
    EvaluateIff(captured, LeftHanded(combo));
  }

  /** The reported change says what became of the state. */
  predicate ReportFaithful(s: Session, now: nat, key: Key, value: int) {
    var (s', outcome) := RouteEventAt(s, now, key, value);
    outcome.change == if s'.state != s.state then Some(s'.state) else None
  }

  /** A press that starts a new chord while a candidate stands: the candidate is dropped first, unreported. */
  predicate SilentReset(s: Session, now: nat, key: Key, value: int) {
    && !Expired(s, now) && key !in s.suppressed && value == 1 && key != ESC && CaptureKeyOf(key).Some?
    && s.state.Candidate? && s.progress == {}
    && (Evaluate({CaptureKeyOf(key).value}).StillWaiting?
        || Evaluate({CaptureKeyOf(key).value}) == Matches(s.state.combo))
  }

  /** Reports are faithful except for exactly that press. */
  lemma ReportFaithfulIff(s: Session, now: nat, key: Key, value: int)
    requires Active(s.state) <==> s.lease.Some?
    ensures ReportFaithful(s, now, key, value) <==> !SilentReset(s, now, key, value)
  {
    var k := CaptureKeyOf(key);
    if k.Some? {
      assert {} + {k.value} == {k.value};
      if s.progress == {} {
        assert s.progress + {k.value} == {k.value};
      }
    }
  }

  function ChordHeld(owner: Owner): World {
    Step(CtrlHeld(owner), Physical(0, LEFTSHIFT, 1))
  }

  lemma ChordIsHeld(owner: Owner)
    ensures var lease := Some(Lease(owner, SOFT_LEASE_MS, ABSOLUTE_LEASE_MS));
            ChordHeld(owner) ==
            World(Session({LeftCtrl, LeftShift}, Candidate(LeftCtrlLeftShift), lease, {LEFTCTRL, LEFTSHIFT}),
                  0, 0, {LEFTCTRL, LEFTSHIFT}, {})
  {
    CtrlIsHeld(owner);
    EvaluateIff({LeftCtrl, LeftShift}, LeftCtrlLeftShift);
    hide Evaluate, CtrlHeld;
    assert {LeftCtrl} + {LeftShift} == {LeftCtrl, LeftShift};
  }

  /** A run that leads to a silent reset: Ctrl and Shift go down and up again, which leaves the candidate standing. */
  lemma SilentResetReached(owner: Owner)
    ensures var w := Run(INITIAL, [Call(0, owner, Start), Physical(0, LEFTCTRL, 1), Physical(0, LEFTSHIFT, 1),
                                   Physical(0, LEFTSHIFT, 0), Physical(0, LEFTCTRL, 0)]);
            SilentReset(w.session, 0, LEFTCTRL, 1) && WellFormed(w, Physical(0, LEFTCTRL, 1))
  {
    var inputs := [Call(0, owner, Start), Physical(0, LEFTCTRL, 1), Physical(0, LEFTSHIFT, 1),
                   Physical(0, LEFTSHIFT, 0), Physical(0, LEFTCTRL, 0)];
    var w2, w3 := CtrlHeld(owner), ChordHeld(owner);
    var w4 := Step(w3, inputs[3]);
    var w5 := Step(w4, inputs[4]);
    ChordReleased(owner);
    hide Step, SilentReset;
    RunStep(INITIAL, inputs);
    RunStep(AtStart(owner), inputs[1..]);
    RunStep(w2, inputs[2..]);
    RunStep(w3, inputs[3..]);
    RunStep(w4, inputs[4..]);
    assert inputs[5..] == [];
  }

  lemma ChordReleased(owner: Owner)
    ensures var w := Step(Step(ChordHeld(owner), Physical(0, LEFTSHIFT, 0)), Physical(0, LEFTCTRL, 0));
            SilentReset(w.session, 0, LEFTCTRL, 1) && WellFormed(w, Physical(0, LEFTCTRL, 1))
  {
    ChordIsHeld(owner);
    hide ChordHeld;
    var lease := Some(Lease(owner, SOFT_LEASE_MS, ABSOLUTE_LEASE_MS));
    var w4 := Step(ChordHeld(owner), Physical(0, LEFTSHIFT, 0));
    assert w4.session == Session({LeftCtrl}, Candidate(LeftCtrlLeftShift), lease, {LEFTCTRL});
    var w5 := Step(w4, Physical(0, LEFTCTRL, 0));
    assert w5.session == Session({}, Candidate(LeftCtrlLeftShift), lease, {});
  }

  lemma RunStep(w: World, inputs: seq<Input>)
    requires inputs != []
    ensures Run(w, inputs) == Run(Step(w, inputs[0]), inputs[1..])
  {
  }
}
