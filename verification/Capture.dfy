/**
 The layout-switch capture session: an owner lease with two deadlines, a chord recogniser,
 and the keys whose presses were suppressed and whose releases must be suppressed too.
 */
module Capture {
  import opened Common
  import opened Keys

  const SOFT_LEASE_MS: nat := 10_000
  const ABSOLUTE_LEASE_MS: nat := 65_000
  const ESC: Key := 1

  type Owner = string

  datatype CaptureKey = LeftCtrl | RightCtrl | LeftAlt | RightAlt | LeftShift | RightShift | Super | SpaceKey | CapsKey

  datatype Evaluation = StillWaiting | Matches(combo: Combo) | NoMatch

  datatype CaptureState = Idle | Waiting | Candidate(combo: Combo) | Unsupported | Cancelled | Finished

  datatype Lease = Lease(owner: Owner, soft: nat, absolute: nat)

  datatype Session = Session(progress: set<CaptureKey>, state: CaptureState, lease: Option<Lease>, suppressed: set<Key>)

  datatype Disposition = PassThrough | ForwardDirect | Suppress

  datatype Outcome = Outcome(disposition: Disposition, change: Option<CaptureState>)

  datatype CallResult = Ok(state: CaptureState) | Busy | NotActive | NotOwner

  const IDLE: Session := Session({}, Idle, None, {})

  predicate Active(s: CaptureState) {
    s.Waiting? || s.Candidate?
  }

  /** `physical_capture_key_from_evdev` */
  function CaptureKeyOf(key: Key): Option<CaptureKey> {
    if key == LEFTCTRL then Some(LeftCtrl)
    else if key == RIGHTCTRL then Some(RightCtrl)
    else if key == LEFTALT then Some(LeftAlt)
    else if key == RIGHTALT then Some(RightAlt)
    else if key == LEFTSHIFT then Some(LeftShift)
    else if key == RIGHTSHIFT then Some(RightShift)
    else if key == LEFTMETA || key == RIGHTMETA then Some(Super)
    else if key == SPACE then Some(SpaceKey)
    else if key == CAPSLOCK then Some(CapsKey)
    else None
  }

  /** `CaptureProgress::evaluate` */
  function Evaluate(keys: set<CaptureKey>): Evaluation {
    var ctrl := LeftCtrl in keys || RightCtrl in keys;
    var alt := LeftAlt in keys || RightAlt in keys;
    var shift := LeftShift in keys || RightShift in keys;
    var pair := |keys| == 2;
    if keys == {} then StillWaiting
    else if |keys| == 1 && CapsKey in keys then Matches(CapsLockCombo)
    else if pair && LeftCtrl in keys && LeftShift in keys then Matches(LeftCtrlLeftShift)
    else if pair && RightCtrl in keys && RightShift in keys then Matches(RightCtrlRightShift)
    else if pair && LeftAlt in keys && LeftShift in keys then Matches(LeftAltLeftShift)
    else if pair && RightAlt in keys && RightShift in keys then Matches(RightAltRightShift)
    else if pair && ctrl && shift then Matches(CtrlShift)
    else if pair && alt && shift then Matches(AltShift)
    else if pair && SpaceKey in keys && ctrl then Matches(CtrlSpace)
    else if pair && SpaceKey in keys && Super in keys then Matches(SuperSpace)
    else if CapsKey in keys || SpaceKey in keys then NoMatch
    else if |keys| == 1 then StillWaiting
    else NoMatch
  }

  /** The key sets that stand for each combination. */
  function Chords(combo: Combo): set<set<CaptureKey>> {
    match combo
    case CapsLockCombo => {{CapsKey}}
    case LeftCtrlLeftShift => {{LeftCtrl, LeftShift}}
    case RightCtrlRightShift => {{RightCtrl, RightShift}}
    case LeftAltLeftShift => {{LeftAlt, LeftShift}}
    case RightAltRightShift => {{RightAlt, RightShift}}
    case CtrlShift => {{LeftCtrl, RightShift}, {RightCtrl, LeftShift}}
    case AltShift => {{LeftAlt, RightShift}, {RightAlt, LeftShift}}
    case CtrlSpace => {{LeftCtrl, SpaceKey}, {RightCtrl, SpaceKey}}
    case SuperSpace => {{Super, SpaceKey}}
  }

  lemma PairIsPair(keys: set<CaptureKey>, a: CaptureKey, b: CaptureKey)
    requires a != b
    ensures |keys| == 2 && a in keys && b in keys <==> keys == {a, b}
  {
    if |keys| == 2 && a in keys && b in keys {
      var rest := keys - {a} - {b};
      assert |rest| == 0;
      assert keys == {a, b};
    }
  }

  lemma SingleIsSingle(keys: set<CaptureKey>, a: CaptureKey)
    ensures |keys| == 1 && a in keys <==> keys == {a}
  {
    if |keys| == 1 && a in keys {
      assert |keys - {a}| == 0;
      assert keys == {a};
    }
  }

  // ----- the session's calls -----

  function Cancel(s: Session): Session {
    s.(lease := None, progress := {}, state := Cancelled)
  }

  function Finish(s: Session): Session {
    s.(lease := None, progress := {}, state := Finished)
  }

  predicate Expired(s: Session, now: nat) {
    s.lease.Some? && (now >= s.lease.value.soft || now >= s.lease.value.absolute)
  }

  function ExpireAt(s: Session, now: nat): Session {
    if Expired(s, now) then Cancel(s) else s
  }

  function Renewed(l: Lease, now: nat): Lease {
    l.(soft := Min(now + SOFT_LEASE_MS, l.absolute))
  }

  function StartOwned(s: Session, owner: Owner, now: nat): (Session, CallResult) {
    var s := ExpireAt(s, now);
    if s.lease.Some? then
      if s.lease.value.owner != owner then (s, Busy)
      else (s.(lease := Some(Renewed(s.lease.value, now))), Ok(s.state))
    else
      (s.(progress := {}, state := Waiting, lease := Some(Lease(owner, now + SOFT_LEASE_MS, now + ABSOLUTE_LEASE_MS))),
       Ok(Waiting))
  }

  function EnsureOwner(s: Session, owner: Owner): CallResult {
    if s.lease.None? then NotActive else if s.lease.value.owner != owner then NotOwner else Ok(s.state)
  }

  function RenewOwned(s: Session, owner: Owner, now: nat): (Session, CallResult) {
    var s := ExpireAt(s, now);
    var r := EnsureOwner(s, owner);
    if r.Ok? then (s.(lease := Some(Renewed(s.lease.value, now))), r) else (s, r)
  }

  function CancelOwned(s: Session, owner: Owner, now: nat): (Session, CallResult) {
    var s := ExpireAt(s, now);
    var r := EnsureOwner(s, owner);
    if r.Ok? then (Cancel(s), Ok(Cancelled)) else (s, r)
  }

  function FinishOwned(s: Session, owner: Owner, now: nat): (Session, CallResult) {
    var s := ExpireAt(s, now);
    var r := EnsureOwner(s, owner);
    if r.Ok? then (Finish(s), Ok(Finished)) else (s, r)
  }

  function OwnerDisappeared(s: Session, owner: Owner, now: nat): Session {
    if Expired(s, now) then Cancel(s)
    else if s.lease.Some? && s.lease.value.owner == owner then Cancel(s)
    else s
  }

  function ReplaceState(s: Session, next: CaptureState): (Session, Option<CaptureState>) {
    if s.state == next then (s, None)
    else (s.(state := next, lease := if Active(next) then s.lease else None), Some(next))
  }

  /** A press of a capture key in an active session. */
  function RoutePress(s: Session, key: Key, captureKey: CaptureKey): (Session, Outcome) {
    var s := if s.progress == {} then s.(state := Waiting) else s;
    var s := s.(progress := s.progress + {captureKey});
    match Evaluate(s.progress)
    case StillWaiting =>
      var (s', change) := ReplaceState(s.(suppressed := s.suppressed + {key}), Waiting);
      (s', Outcome(Suppress, change))
    case Matches(combo) =>
      var (s', change) := ReplaceState(s.(suppressed := s.suppressed + {key}), Candidate(combo));
      (s', Outcome(Suppress, change))
    case NoMatch =>
      var (s', change) := ReplaceState(s.(progress := {}), Unsupported);
      (s', Outcome(ForwardDirect, change))
  }

  /** `route_event_at` */
  function RouteEventAt(s: Session, now: nat, key: Key, value: int): (Session, Outcome) {
    var change := if Expired(s, now) then Some(Cancelled) else None;
    var s := ExpireAt(s, now);
    var captureKey := CaptureKeyOf(key);
    if key in s.suppressed then
      var released := s.(suppressed := s.suppressed - {key},
                         progress := if captureKey.Some? then s.progress - {captureKey.value} else s.progress);
      (if value == 0 then released else s, Outcome(Suppress, change))
    else if !Active(s.state) then (s, Outcome(PassThrough, change))
    else if value != 1 then (s, Outcome(ForwardDirect, change))
    else if key == ESC then (Cancel(s.(suppressed := s.suppressed + {key})), Outcome(Suppress, Some(Cancelled)))
    else if captureKey.None? then
      var (s', changed) := ReplaceState(s.(progress := {}), Unsupported);
      (s', Outcome(ForwardDirect, changed))
    else RoutePress(s, key, captureKey.value)
  }

  /** `reset_input_epoch` */
  function AfterReset(s: Session): Session {
    (if Active(s.state) then Cancel(s) else s).(lease := None, progress := {}, suppressed := {})
  }
}
