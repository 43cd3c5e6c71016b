/**
 The capture session as an object.  Beside the fields of the source it carries its history: the keyboard before
 it, the keys seen down after it, the time of the last call and the start of the lease.  `Lawful` says that no
 key is stuck and the lease law holds; every call keeps it.
 */
module CaptureSessions {
  import opened Common
  import opened Keys
  import opened Capture
  import opened CaptureProofs

  class LayoutSwitchCaptureSession {
    var progress: set<CaptureKey>
    var state: CaptureState
    var lease: Option<Lease>
    var suppressed: set<Key>
    ghost var clock: nat
    ghost var started: nat
    ghost var physical: set<Key>
    ghost var downstream: set<Key>

    ghost function View(): Session
      reads this
    {
      Session(progress, state, lease, suppressed)
    }

    ghost function History(): World
      reads this
    {
      World(View(), clock, started, physical, downstream)
    }

    ghost predicate Lawful()
      reads this
    {
      NoStuckKeys(History()) && LeaseLaw(History())
    }

    /** A lease of this owner that has not run out. */
    ghost predicate Owned(owner: Owner, now: nat)
      reads this
    {
      Live(View(), now) && lease.value.owner == owner
    }

    constructor ()
      ensures Lawful() && History() == INITIAL
    {
      progress, state, lease, suppressed := {}, Idle, None, {};
      clock, started, physical, downstream := 0, 0, {}, {};
    }

    method Cancel() returns (r: CaptureState)
      modifies this
      ensures r == state == Cancelled && lease.None? && progress == {}
      ensures History() == old(History()).(session := View()) && suppressed == old(suppressed)
    {
      lease := None;
      progress := {};
      state := Cancelled;
      return state;
    }

    /** `expire_at`: what has run out is cancelled and reported; what is live, or not there, is left alone. */
    method Expire(now: nat) returns (change: Option<CaptureState>)
      modifies this
      ensures History() == Advance(old(History()), Call(now, "", CaptureProofs.Expire))
      ensures old(Lawful()) && old(clock) <= now ==> Lawful()
      ensures lease.Some? <==> old(Live(View(), now))
      ensures change.Some? <==> old(lease).Some? && lease.None?
      ensures if change.Some? then change.value == state == Cancelled && progress == {} else View() == old(View())
      ensures suppressed == old(suppressed)
    {
      clock := now;
      change := None;
      if lease.Some? && (now >= lease.value.soft || now >= lease.value.absolute) {
        var cancelled := Cancel();
        change := Some(cancelled);
      }
    }

    /** `start_owned`: Busy exactly while someone else's lease lives.  Otherwise the caller owns a live lease, ten
        seconds ahead or up to the absolute deadline, which is 65 s after the start and never moves. */
    method Start(owner: Owner, now: nat) returns (r: CallResult)
      modifies this
      ensures History() == Advance(old(History()), Call(now, owner, CaptureProofs.Start))
      ensures old(Lawful()) && old(clock) <= now ==> Lawful()
      ensures r.Busy? <==> old(Live(View(), now) && lease.value.owner != owner)
      ensures r.Busy? ==> View() == old(View())
      ensures !r.Busy? ==> r == Ok(state) && Owned(owner, now)
      ensures !r.Busy? ==> lease.value.soft == Min(now + 10_000, lease.value.absolute)
      ensures old(Owned(owner, now)) ==>
        lease.value.absolute == old(lease).value.absolute && progress == old(progress) && state == old(state)
      ensures old(!Live(View(), now)) ==>
        lease.value.absolute == now + 65_000 && progress == {} && state == Waiting
      ensures suppressed == old(suppressed)
    {
      var _ := Expire(now);
      if lease.Some? {
        if lease.value.owner != owner {
          return Busy;
        }
        lease := Some(lease.value.(soft := Min(now + SOFT_LEASE_MS, lease.value.absolute)));
        return Ok(state);
      }
      progress := {};
      state := Waiting;
      lease := Some(Lease(owner, now + SOFT_LEASE_MS, now + ABSOLUTE_LEASE_MS));
      started := now;
      return Ok(state);
    }

    /** `renew_owned`: only the owner of a live lease moves its soft deadline, and nothing else moves. */
    method Renew(owner: Owner, now: nat) returns (r: CallResult)
      modifies this
      ensures History() == Advance(old(History()), Call(now, owner, CaptureProofs.Renew))
      ensures old(Lawful()) && old(clock) <= now ==> Lawful()
      ensures r.Ok? <==> old(Owned(owner, now))
      ensures r.NotActive? <==> !old(Live(View(), now))
      ensures !r.Busy?
      ensures r.Ok? ==> r.state == old(state) && Owned(owner, now)
      ensures r.Ok? ==> View() == old(View()).(lease := Some(old(lease).value.(soft := lease.value.soft)))
      ensures r.Ok? ==> lease.value.soft == Min(now + 10_000, lease.value.absolute)
      ensures r.NotOwner? ==> View() == old(View())
    {
      var _ := Expire(now);
      if lease.None? {
        return NotActive;
      }
      if lease.value.owner != owner {
        return NotOwner;
      }
      lease := Some(lease.value.(soft := Min(now + SOFT_LEASE_MS, lease.value.absolute)));
      return Ok(state);
    }

    /** `cancel_owned`, or `finish_owned` with `finish`: only the owner of a live lease ends the session, and the
        keys whose presses were hidden stay hidden until they are released. */
    method End(owner: Owner, now: nat, finish: bool) returns (r: CallResult)
      modifies this
      ensures History() == Advance(old(History()), Call(now, owner, if finish then FinishIt else CancelIt))
      ensures old(Lawful()) && old(clock) <= now ==> Lawful()
      ensures r.Ok? <==> old(Owned(owner, now))
      ensures r.NotActive? <==> !old(Live(View(), now))
      ensures !r.Busy?
      ensures r.Ok? ==> r.state == state == (if finish then Finished else Cancelled) && lease.None? && progress == {}
      ensures r.NotOwner? ==> View() == old(View())
      ensures suppressed == old(suppressed)
    {
      var _ := Expire(now);
      if lease.None? {
        return NotActive;
      }
      if lease.value.owner != owner {
        return NotOwner;
      }
      lease := None;
      progress := {};
      state := if finish then Finished else Cancelled;
      return Ok(state);
    }

    /** `owner_disappeared`: a lost owner loses its own session only. */
    method OwnerDisappeared(owner: Owner, now: nat) returns (change: Option<CaptureState>)
      modifies this
      ensures History() == Advance(old(History()), Call(now, owner, Disappear))
      ensures old(Lawful()) && old(clock) <= now ==> Lawful()
      ensures change.Some? <==> View() != old(View())
      ensures lease.Some? <==> old(Live(View(), now) && lease.value.owner != owner)
      ensures if lease.Some? then View() == old(View()) else change.Some? <==> old(lease).Some?
    {
      change := Expire(now);
      if change.None? && lease.Some? && lease.value.owner == owner {
        var cancelled := Cancel();
        change := Some(cancelled);
      }
    }

    method Replace(next: CaptureState) returns (change: Option<CaptureState>)
      modifies this
      ensures (View(), change) == ReplaceState(old(View()), next)
      ensures History() == old(History()).(session := View())
    {
      if state == next {
        return None;
      }
      if !Active(next) {
        lease := None;
      }
      state := next;
      return Some(state);
    }

    /** `route_event_at`: the event reaches the keyboards after the session exactly when it is not suppressed; a
        press is suppressed exactly when its key becomes suppressed, a repeat or release exactly when its key was;
        without a live session the event passes, and nothing new is suppressed; a live session forwards just what
        does not belong to a combination; and the report is faithful but for the silent reset. */
    method Route(now: nat, key: Key, value: int) returns (outcome: Outcome)
      modifies this
      ensures History() == Advance(old(History()), Physical(now, key, value))
      ensures old(Lawful()) && WellFormed(old(History()), Physical(now, key, value)) ==> Lawful()
      ensures downstream == if outcome.disposition == Suppress then old(downstream)
              else Moved(old(downstream), key, value)
      ensures value == 1 ==> (outcome.disposition == Suppress <==> key in suppressed)
      ensures value != 1 ==> (outcome.disposition == Suppress <==> key in old(suppressed))
      ensures suppressed - {key} == old(suppressed) - {key} && (value == 0 ==> key !in suppressed)
      ensures outcome.disposition == PassThrough ==> !Active(state) && suppressed == old(suppressed)
      ensures old(Lawful()) ==>
        && (outcome.disposition == PassThrough <==> key !in old(suppressed) && !old(Live(View(), now)))
        && (outcome.disposition == ForwardDirect <==>
            key !in old(suppressed) && old(Live(View(), now)) && (value != 1 || state == Unsupported))
      ensures old(Lawful()) && !old(Live(View(), now)) ==> suppressed <= old(suppressed)
      ensures old(Lawful()) ==>
                (outcome.change == (if state != old(state) then Some(state) else None) <==>
                 !SilentReset(old(View()), now, key, value))
    {
      ghost var before := History();
      RouteSuppression(before.session, now, key, value);
      if Lawful() {
        ReportFaithfulIff(before.session, now, key, value);
        DispositionIff(before.session, now, key, value);
        if WellFormed(before, Physical(now, key, value)) {
          RouteKeeps(before, now, key, value);
        }
      }
      hide Evaluate, Lawful, SilentReset;
      outcome := RouteFields(now, key, value);
      physical := Moved(physical, key, value);
      if outcome.disposition != Suppress {
        downstream := Moved(downstream, key, value);
      }
    }

    /** The fields after one event, before the keyboards have seen its outcome. */
    method RouteFields(now: nat, key: Key, value: int) returns (outcome: Outcome)
      modifies this
      ensures (View(), outcome) == RouteEventAt(old(View()), now, key, value)
      ensures History() == old(History()).(session := View(), now := now)
    {
      hide Evaluate, CaptureKeyOf;
      var expiry := Expire(now);
      var captureKey := CaptureKeyOf(key);
      if key in suppressed {
        if value == 0 {
          suppressed := suppressed - {key};
          if captureKey.Some? {
            progress := progress - {captureKey.value};
          }
        }
        return Outcome(Suppress, expiry);
      }
      if !Active(state) {
        return Outcome(PassThrough, expiry);
      }
      if value != 1 {
        return Outcome(ForwardDirect, expiry);
      }
      if key == ESC {
        suppressed := suppressed + {key};
        var cancelled := Cancel();
        return Outcome(Suppress, Some(cancelled));
      }
      if captureKey.None? {
        progress := {};
        var changed := Replace(Unsupported);
        return Outcome(ForwardDirect, changed);
      }
      if progress == {} {
        state := Waiting;
      }
      progress := progress + {captureKey.value};
      match Evaluate(progress) {
        case StillWaiting =>
          suppressed := suppressed + {key};
          var changed := Replace(Waiting);
          return Outcome(Suppress, changed);
        case Matches(combo) =>
          suppressed := suppressed + {key};
          var changed := Replace(Candidate(combo));
          return Outcome(Suppress, changed);
        case NoMatch =>
          progress := {};
          var changed := Replace(Unsupported);
          return Outcome(ForwardDirect, changed);
      }
    }

    /** `reset_input_epoch`: the session ends and forgets its keys, which is lawful exactly when it hid none. */
    method ResetInputEpoch() returns (change: Option<CaptureState>)
      modifies this
      ensures lease.None? && progress == {} && suppressed == {} && !Active(state)
      ensures View() == AfterReset(old(View()))
      ensures if change.Some? then change.value == state == Cancelled && Active(old(state)) else state == old(state)
      ensures History() == old(History()).(session := View())
      ensures old(Lawful()) ==> (Lawful() <==> old(suppressed) == {})
    {
      change := None;
      if Active(state) {
        var cancelled := Cancel();
        change := Some(cancelled);
      }
      lease := None;
      progress := {};
      suppressed := {};
    }
  }
}
