/** Taking over the physical keyboard: waiting until it is quiet, then grabbing it. */
module Handoff {
  import opened Common

  const USIZE_MAX: nat := 0xFFFF_FFFF_FFFF_FFFF

  datatype Wait = WaitTimedOut | Readable

  datatype Observation = Discarded(events: nat) | KeysDown(any: bool) | Waited(ms: nat, outcome: Wait)

  datatype HandoffResult = Ready(discarded: nat) | Busy(discarded: nat) | HandoffFailed

  function SaturatingAdd(a: nat, b: nat): nat {
    Min(a + b, USIZE_MAX)
  }

  function TotalDiscarded(log: seq<Observation>): nat {
    if log == [] then 0
    else
      var last := log[|log| - 1];
      TotalDiscarded(log[..|log| - 1]) + if last.Discarded? then last.events else 0
  }

  /** The last observations of a handoff that may proceed: no key down, a full quiet window,
      nothing read in it, still no key down, and a final empty poll. */
  predicate QuietAt(log: seq<Observation>, n: nat, window: nat) {
    && 5 <= n <= |log|
    && log[n - 5] == KeysDown(false)
    && log[n - 4] == Waited(window, WaitTimedOut)
    && log[n - 3] == Discarded(0)
    && log[n - 2] == KeysDown(false)
    && log[n - 1] == Waited(0, WaitTimedOut)
  }

  predicate Quiet(log: seq<Observation>, window: nat) {
    QuietAt(log, |log|, window)
  }

  /** The keyboard was not quiet so far. */
  ghost predicate NeverQuiet(log: seq<Observation>, window: nat) {
    forall n: nat :: n <= |log| ==> !QuietAt(log, n, window)
  }

  /** The last wait, if there was one, does not begin a quiet window. */
  predicate Unsettled(log: seq<Observation>) {
    var n := |log|;
    n == 0 || !log[n - 1].Waited? || log[n - 1].outcome == Readable || (n >= 2 && log[n - 2] == KeysDown(true))
  }

  lemma NeverQuietMore(log: seq<Observation>, e: Observation, window: nat)
    requires NeverQuiet(log, window)
    ensures NeverQuiet(log + [e], window) <==> !Quiet(log + [e], window)
  {
    var more := log + [e];
    forall n: nat | n <= |log| ensures !QuietAt(more, n, window) {
      assert !QuietAt(log, n, window);
    }
  }

  class Keyboard {
    var clock: nat
    var log: seq<Observation>
    ghost var failed: bool   // some call failed

    constructor ()
      ensures log == [] && clock == 0 && !failed
    {
      clock, log, failed := 0, [], false;
    }

    method DiscardReady() returns (n: Option<nat>)
      modifies this
      ensures clock >= old(clock) && failed == (old(failed) || n.None?) && (n.None? ==> log == old(log))
      ensures n.Some? ==> log == old(log) + [Discarded(n.value)]
      ensures n.Some? ==> TotalDiscarded(log) == TotalDiscarded(old(log)) + n.value
    {
      n := *;
      failed := failed || n.None?;
      var later: nat :| later >= clock;
      clock := later;
      if n.Some? {
        assert (log + [Discarded(n.value)])[..|log|] == log;
        log := log + [Discarded(n.value)];
      }
    }

    method AnyKeyPressed() returns (any: Option<bool>)
      modifies this
      ensures clock >= old(clock) && failed == (old(failed) || any.None?) && (any.None? ==> log == old(log))
      ensures any.Some? ==> log == old(log) + [KeysDown(any.value)] && TotalDiscarded(log) == TotalDiscarded(old(log))
    {
      any := *;
      failed := failed || any.None?;
      var later: nat :| later >= clock;
      clock := later;
      if any.Some? {
        assert (log + [KeysDown(any.value)])[..|log|] == log;
        log := log + [KeysDown(any.value)];
      }
    }

    /** A wait lets the clock advance; a quiet one lasts as long as asked. */
    method WaitOnce(ms: nat) returns (w: Option<Wait>)
      modifies this
      ensures clock > old(clock) && failed == (old(failed) || w.None?) && (w.None? ==> log == old(log))
      ensures w == Some(WaitTimedOut) ==> clock >= old(clock) + ms
      ensures w.Some? ==> log == old(log) + [Waited(ms, w.value)] && TotalDiscarded(log) == TotalDiscarded(old(log))
    {
      w := *;
      failed := failed || w.None?;
      var least := if w == Some(WaitTimedOut) then clock + ms else clock;
      var later: nat :| later > clock && later >= least by {
        assert clock + ms + 1 > clock && clock + ms + 1 >= least;
      }
      clock := later;
      if w.Some? {
        assert (log + [Waited(ms, w.value)])[..|log|] == log;
        log := log + [Waited(ms, w.value)];
      }
    }
  }

  /** The quiet window after a look that found no key down; `discarded` events were read at its end. */
  method QuietWindow(k: Keyboard, window: nat) returns (quiet: Option<bool>, discarded: nat)
    requires !k.failed && NeverQuiet(k.log, window)
    requires |k.log| >= 2 && k.log[|k.log| - 1] == KeysDown(false) && Unsettled(k.log[..|k.log| - 2])
    modifies k
    ensures k.clock > old(k.clock) && (quiet.None? <==> k.failed)
    ensures quiet.Some? ==> TotalDiscarded(k.log) == TotalDiscarded(old(k.log)) + discarded
    ensures quiet == Some(true) ==> Quiet(k.log, window) && NeverQuiet(k.log[..|k.log| - 1], window)
    ensures quiet != Some(true) ==> NeverQuiet(k.log, window)
    ensures quiet == Some(false) ==> Unsettled(k.log)
  {
    hide TotalDiscarded, NeverQuiet;
    var w := k.WaitOnce(window);
    if w.None? { return None, 0; }
    assert old(k.log)[..|old(k.log)| - 2] == k.log[..|k.log| - 3];
    NeverQuietMore(old(k.log), Waited(window, w.value), window);
    if w.value == Readable { return Some(false), 0; }
    ghost var waited := k.log;
    var n := k.DiscardReady();
    if n.None? { return None, 0; }
    NeverQuietMore(waited, Discarded(n.value), window);
    if n.value > 0 { return Some(false), n.value; }
    ghost var drained := k.log;
    var any := k.AnyKeyPressed();
    if any.None? { return None, 0; }
    NeverQuietMore(drained, KeysDown(any.value), window);
    if any.value { return Some(false), 0; }
    ghost var looked := k.log;
    w := k.WaitOnce(0);
    if w.None? { return None, 0; }
    NeverQuietMore(looked, Waited(0, w.value), window);
    assert k.log[..|k.log| - 1] == looked;
    return Some(w.value == WaitTimedOut), 0;
  }

  /** `wait_for_quiescent_input`: Ready at the first quiet window, and only then. */
  method WaitForQuiescentInput(k: Keyboard, window: nat, deadline: nat) returns (r: HandoffResult)
    requires k.log == [] && !k.failed
    modifies k
    ensures r.HandoffFailed? <==> k.failed
    ensures r.Ready? ==> Quiet(k.log, window) && NeverQuiet(k.log[..|k.log| - 1], window)
    ensures !r.Ready? ==> NeverQuiet(k.log, window)
    ensures r.Ready? || r.Busy? ==> r.discarded == Min(TotalDiscarded(k.log), USIZE_MAX)
    ensures r.Busy? ==> k.clock >= deadline || k.clock + window > deadline
  {
    assert TotalDiscarded(k.log) == 0 && NeverQuiet(k.log, window);
    hide TotalDiscarded, NeverQuiet;
    var discarded := 0;
    while true
      invariant discarded == Min(TotalDiscarded(k.log), USIZE_MAX) && !k.failed
      invariant NeverQuiet(k.log, window) && Unsettled(k.log)
      decreases if k.clock < deadline then deadline - k.clock else 0, if k.clock < deadline then 0 else 1
    {
      ghost var start := k.log;
      var n := k.DiscardReady();
      if n.None? { return HandoffFailed; }
      NeverQuietMore(start, Discarded(n.value), window);
      discarded := SaturatingAdd(discarded, n.value);
      var now := k.clock;
      if now >= deadline {
        return Busy(discarded);
      }
      ghost var drained := k.log;
      var any := k.AnyKeyPressed();
      if any.None? { return HandoffFailed; }
      NeverQuietMore(drained, KeysDown(any.value), window);
      if any.value {
        ghost var looked := k.log;
        var wait := Min(deadline - now, window);
        var w := k.WaitOnce(wait);
        if w.None? { return HandoffFailed; }
        NeverQuietMore(looked, Waited(wait, w.value), window);
        continue;
      }
      if deadline - now < window {
        return Busy(discarded);
      }
      assert k.log[..|k.log| - 2] == start;
      var quiet, more := QuietWindow(k, window);
      if quiet.None? { return HandoffFailed; }
      discarded := SaturatingAdd(discarded, more);
      if quiet.value {
        return Ready(discarded);
      }
    }
  }

  datatype Grab = Snapshot(capsLock: bool) | GrabFailed

  /** `GrabbedKeyboardDevice`; `kernelGrab` is the kernel's view of the open file. */
  class GrabbedKeyboardDevice {
    var open: bool
    var grabbed: bool
    var kernelGrab: bool

    /** Does the daemon hold the keyboard away from everyone else? */
    predicate Captive()
      reads this
    {
      open && kernelGrab
    }

    ghost predicate Valid()
      reads this
    {
      (grabbed ==> open && kernelGrab) && (Captive() ==> grabbed)
    }

    constructor (open: bool)
      ensures Valid() && this.open == open && !grabbed && !Captive()
    {
      this.open, this.grabbed, this.kernelGrab := open, false, false;
    }

    /** `grab`; `ioctl` is the kernel's answer. */
    method AcquireGrab(ioctl: bool) returns (ok: bool)
      requires Valid()
      modifies this
      ensures Valid() && open == old(open)
      ensures ok <==> old(grabbed) || (old(open) && ioctl)
      ensures ok ==> Captive()
      ensures !ok ==> !Captive()
    {
      if grabbed { return true; }
      if !open || !ioctl { return false; }
      grabbed, kernelGrab := true, true;
      return true;
    }

    /** `release_grab_or_close_device`; a failed release closes the device, which drops the grab. */
    method ReleaseGrab(ioctl: bool) returns (ok: bool)
      requires Valid()
      modifies this
      ensures Valid() && !grabbed && !Captive()
      ensures ok <==> !old(grabbed) || ioctl
      ensures open == (old(open) && ok)
    {
      if !grabbed { return true; }
      grabbed := false;
      if ioctl {
        kernelGrab := false;
      } else {
        open := false;
      }
      return ioctl;
    }

    /** `acquire_grab_then_snapshot`; the checks and the key read are oracles. */
    method AcquireGrabThenSnapshot(precheck: bool, acquire: bool, postcheck: bool, quiet: bool, caps: Option<bool>,
                                   release: bool)
      returns (r: Grab)
      requires Valid()
      modifies this
      ensures Valid()
      ensures r.Snapshot? ==> Captive() && grabbed && caps == Some(r.capsLock)
      ensures r.Snapshot? <==>
        precheck && (old(grabbed) || (old(open) && acquire)) && postcheck && quiet && caps.Some?
      // after an error the keyboard is held only if it was and the first check already failed
      ensures r.GrabFailed? ==> (Captive() <==> old(Captive()) && !precheck)
      // the device is closed exactly when it was grabbed, a later check failed and its release failed too
      ensures open == (old(open) && !(r.GrabFailed? && precheck && (old(grabbed) || acquire) && !release))
    {
      if !precheck { return GrabFailed; }
      var acquired := AcquireGrab(acquire);
      if !acquired { return GrabFailed; }
      if postcheck && quiet && caps.Some? {
        return Snapshot(caps.value);
      }
      var _ := ReleaseGrab(release);
      return GrabFailed;
    }
  }
}
