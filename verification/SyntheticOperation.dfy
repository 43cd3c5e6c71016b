/**
 The synthetic operation behind every replay: a ledger of key-downs that may still be down,
 the plan of physically held modifiers it lifted, and the cleanup that finishes it.

 The control and the sink may refuse at any call: `answers` is the script of what they say, one entry per question,
 and every statement holds for all scripts.  `mayDown` holds every key the operation may have left down,
 `mayUp` every lifted modifier that may still be up; both err on the cautious side.
 */
module SyntheticOperations {
  import opened Common
  import opened Keys

  datatype Debt = Debt(id: nat, key: Key)

  datatype FinishOutcome = FinishedSuccess | FinishedSoftCancelled | FinishedHardFailed

  datatype Proof = Reconciled | Unreconciled(remaining: nat)

  datatype TerminalReport = TerminalReport(outcome: FinishOutcome, cleanupFailed: bool, proof: Proof)

  function KeysOf(debts: seq<Debt>): set<Key> {
    set d | d in debts :: d.key
  }

  function Elems(keys: seq<Key>): set<Key> {
    set k | k in keys
  }

  /** Press ids grow, so each names at most one debt. */
  predicate Increasing(debts: seq<Debt>, next: nat) {
    && (forall i, j :: 0 <= i < j < |debts| ==> debts[i].id < debts[j].id)
    && (forall i :: 0 <= i < |debts| ==> debts[i].id < next)
  }

  /** The position of a press id in the ledger. */
  function Find(debts: seq<Debt>, id: nat): (r: Option<nat>)
    ensures r.Some? ==> r.value < |debts| && debts[r.value].id == id
    ensures r.None? ==> forall i :: 0 <= i < |debts| ==> debts[i].id != id
  {
    if debts == [] then None
    else if debts[0].id == id then Some(0)
    else
      var rest := Find(debts[1..], id);
      if rest.Some? then Some(rest.value + 1) else None
  }

  function Without(debts: seq<Debt>, i: nat): seq<Debt>
    requires i < |debts|
  {
    debts[..i] + debts[i + 1..]
  }

  lemma WithoutKeys(debts: seq<Debt>, i: nat)
    requires i < |debts|
    ensures KeysOf(debts) == KeysOf(Without(debts, i)) + {debts[i].key}
  {
    forall k | k in KeysOf(debts) ensures k in KeysOf(Without(debts, i)) + {debts[i].key} {
      var d :| d in debts && d.key == k;
      var j :| 0 <= j < |debts| && debts[j] == d;
      if j < i {
        assert Without(debts, i)[j] == d;
      } else if j > i {
        assert Without(debts, i)[j - 1] == d;
      }
    }
    forall k | k in KeysOf(Without(debts, i)) ensures k in KeysOf(debts) {
      var d :| d in Without(debts, i) && d.key == k;
      assert d in debts;
    }
  }

  lemma PushDebt(debts: seq<Debt>, next: nat, key: Key)
    requires Increasing(debts, next)
    ensures Increasing(debts + [Debt(next, key)], next + 1)
    ensures KeysOf(debts + [Debt(next, key)]) == KeysOf(debts) + {key}
    ensures Without(debts + [Debt(next, key)], |debts|) == debts
  {
    WithoutKeys(debts + [Debt(next, key)], |debts|);
  }

  lemma DropDebt(debts: seq<Debt>, next: nat, i: nat)
    requires Increasing(debts, next) && i < |debts|
    ensures Increasing(Without(debts, i), next)
    ensures KeysOf(debts) == KeysOf(Without(debts, i)) + {debts[i].key}
  {
    WithoutKeys(debts, i);
  }

  /** The ledger without the debt of a press id. */
  function Settle(debts: seq<Debt>, id: nat): seq<Debt> {
    var at := Find(debts, id);
    if at.Some? then Without(debts, at.value) else debts
  }

  lemma NewestSettles(debts: seq<Debt>, next: nat)
    requires Increasing(debts, next) && debts != []
    ensures Settle(debts, debts[|debts| - 1].id) == debts[..|debts| - 1]
  {
    var found := Find(debts, debts[|debts| - 1].id);
    assert debts[found.value].id == debts[|debts| - 1].id;
  }

  lemma PushKey(keys: seq<Key>, key: Key)
    ensures Elems(keys + [key]) == Elems(keys) + {key}
  {
  }

  lemma FirstKey(keys: seq<Key>, n: nat)
    requires n < |keys|
    ensures Elems(keys[n..]) == {keys[n]} + Elems(keys[n + 1..])
  {
    assert keys[n..] == [keys[n]] + keys[n + 1..];
  }

  lemma FirstDebt(debts: seq<Debt>, n: nat)
    requires n < |debts|
    ensures KeysOf(debts[n..]) == {debts[n].key} + KeysOf(debts[n + 1..])
  {
    assert Without(debts[n..], 0) == debts[n + 1..];
    WithoutKeys(debts[n..], 0);
  }

  lemma NoEvents()
    ensures ReleaseEvents([]) == []
  {
  }

  /** One step of the release: the debt at `n` is the last of the common prefix. */
  lemma LastOfPrefix(start: seq<Debt>, debts: seq<Debt>, n: nat)
    requires n < |start| && n < |debts| && debts[..n + 1] == start[..n + 1]
    ensures debts[n] == start[n] && debts[..n] == start[..n]
    ensures |Without(debts, n)| == |debts| - 1 && Without(debts, n)[..n] == start[..n]
    ensures debts == start[..n + 1] ==> Without(debts, n) == start[..n]
    ensures ReleaseEvents(start[..n + 1]) == [Up(start[n].key)] + ReleaseEvents(start[..n])
  {
    assert debts[..n + 1][n] == debts[n] && debts[..n + 1][..n] == debts[..n];
    assert start[..n + 1][n] == start[n] && start[..n + 1][..n] == start[..n];
  }

  lemma NoKeys()
    ensures KeysOf([]) == {} && Elems([]) == {}
  {
  }

  lemma InPlan(keys: seq<Key>, key: Key)
    requires key in keys
    ensures key in Elems(keys)
  {
  }

  predicate Distinct(keys: seq<Key>) {
    forall i, j :: 0 <= i < j < |keys| ==> keys[i] != keys[j]
  }

  lemma PlanKey(keys: seq<Key>, key: Key)
    requires Distinct(keys) && key !in keys
    ensures Distinct(keys + [key])
  {
  }

  // ----- what a clean finish writes to the sink -----

  datatype SinkEvent = Down(key: Key) | Up(key: Key)

  /** Is the key down after these events? */
  function DownAfter(events: seq<SinkEvent>, key: Key, before: bool): bool {
    if events == [] then before
    else
      var last := events[|events| - 1];
      if last.key == key then last.Down? else DownAfter(events[..|events| - 1], key, before)
  }

  /** The planned modifiers pressed, last lifted first. */
  function RestoreEvents(plan: seq<Key>): seq<SinkEvent> {
    if plan == [] then [] else [Down(plan[|plan| - 1])] + RestoreEvents(plan[..|plan| - 1])
  }

  /** The leftover debts released, last pressed first. */
  function ReleaseEvents(debts: seq<Debt>): seq<SinkEvent> {
    if debts == [] then [] else [Up(debts[|debts| - 1].key)] + ReleaseEvents(debts[..|debts| - 1])
  }

  lemma {:induction false} DownAfterConcat(a: seq<SinkEvent>, b: seq<SinkEvent>, key: Key, before: bool)
    ensures DownAfter(a + b, key, before) == DownAfter(b, key, DownAfter(a, key, before))
    decreases |b|
  {
    if b == [] {
      assert a + b == a;
    } else {
      assert (a + b)[..|a + b| - 1] == a + b[..|b| - 1];
      DownAfterConcat(a, b[..|b| - 1], key, before);
    }
  }

  lemma {:induction false} RestorePresses(plan: seq<Key>, key: Key, before: bool)
    ensures DownAfter(RestoreEvents(plan), key, before) == (before || key in plan)
    decreases |plan|
  {
    if plan != [] {
      var n := |plan| - 1;
      DownAfterConcat([Down(plan[n])], RestoreEvents(plan[..n]), key, before);
      RestorePresses(plan[..n], key, DownAfter([Down(plan[n])], key, before));
      assert plan == plan[..n] + [plan[n]];
    }
  }

  lemma {:induction false} ReleaseLifts(debts: seq<Debt>, key: Key, before: bool)
    ensures DownAfter(ReleaseEvents(debts), key, before) == (before && key !in KeysOf(debts))
    decreases |debts|
  {
    if debts != [] {
      var n := |debts| - 1;
      DownAfterConcat([Up(debts[n].key)], ReleaseEvents(debts[..n]), key, before);
      ReleaseLifts(debts[..n], key, DownAfter([Up(debts[n].key)], key, before));
      assert Without(debts, n) == debts[..n];
      WithoutKeys(debts, n);
    }
  }

  /** After a clean finish a lifted modifier is down again exactly when no leftover debt has its key. */
  lemma LiftedModifierDownIff(plan: seq<Key>, debts: seq<Debt>, key: Key)
    requires key in plan
    ensures DownAfter(RestoreEvents(plan) + ReleaseEvents(debts), key, false) <==> key !in KeysOf(debts)
  {
    DownAfterConcat(RestoreEvents(plan), ReleaseEvents(debts), key, false);
    RestorePresses(plan, key, false);
    ReleaseLifts(debts, key, true);
  }

  class SyntheticOperation {
    const frozen: set<Key>        // modifiers physically held when the operation began
    const answers: nat -> bool    // what the control and the sink answer, question by question
    var asked: nat
    var debts: seq<Debt>
    var nextId: nat
    var terminal: bool
    var plan: seq<Key>            // lifted modifiers, in the order of lifting
    var fallback: seq<Key>        // restored keys that the session ledger refused
    var adopted: set<Key>         // restored keys that the session ledger owns
    ghost var mayDown: set<Key>
    ghost var mayUp: set<Key>
    ghost var trace: seq<SinkEvent>   // every attempt on the sink

    ghost predicate Valid()
      reads this
    {
      && Increasing(debts, nextId)
      && Distinct(plan)
      && Elems(plan) <= frozen && adopted <= Elems(plan)
      && mayUp <= Elems(plan)
      // every key that may be down is accounted for
      && mayDown <= KeysOf(debts) + Elems(fallback) + adopted
    }

    /** Not finished yet, and nothing restored yet. */
    ghost predicate Replaying()
      reads this
    {
      Valid() && !terminal && fallback == [] && adopted == {}
    }

    /** Every question from the n-th on is answered yes. */
    ghost predicate YesFrom(n: nat) {
      forall i: nat :: i >= n ==> answers(i)
    }

    constructor (frozen: set<Key>, answers: nat -> bool)
      ensures Valid() && debts == [] && plan == [] && fallback == [] && adopted == {} && !terminal
      ensures this.frozen == frozen && this.answers == answers && asked == 0 && nextId == 1
      ensures mayDown == {} && mayUp == {} && trace == []
    {
      this.frozen, this.answers, asked := frozen, answers, 0;
      debts, nextId, terminal, plan, fallback, adopted := [], 1, false, [], [], {};
      mayDown, mayUp, trace := {}, {}, [];
    }

    method Ask() returns (yes: bool)
      modifies this`asked
      ensures asked == old(asked) + 1 && yes == answers(old(asked))
    {
      yes := answers(asked);
      asked := asked + 1;
    }

    /** `attempt_down` and `synchronize`; only when both succeed is the key surely down. */
    method SinkDown(key: Key) returns (ok: bool)
      modifies this`asked, this`mayDown, this`mayUp, this`trace
      ensures asked == old(asked) + 1 && ok == answers(old(asked))
      ensures trace == old(trace) + [Down(key)]
      ensures mayDown == old(mayDown) + {key}
      ensures mayUp == if ok then old(mayUp) - {key} else old(mayUp)
    {
      ok := Ask();
      trace := trace + [Down(key)];
      mayDown := mayDown + {key};
      if ok {
        mayUp := mayUp - {key};
      }
    }

    /** `attempt_up` and `synchronize`; only when both succeed is the key surely up. */
    method SinkUp(key: Key) returns (ok: bool)
      modifies this`asked, this`mayDown, this`mayUp, this`trace
      ensures asked == old(asked) + 1 && ok == answers(old(asked))
      ensures trace == old(trace) + [Up(key)]
      ensures mayDown == if ok then old(mayDown) - {key} else old(mayDown)
      ensures mayUp == old(mayUp) + (Elems(plan) * {key})
    {
      ok := Ask();
      trace := trace + [Up(key)];
      if ok {
        mayDown := mayDown - {key};
      }
      mayUp := mayUp + (Elems(plan) * {key});
    }

    /** `press`: the debt is recorded before the attempt, so a press that fails after its first permission leaves
        one behind; it succeeds exactly when it is permitted, acknowledged and still permitted. */
    method Press(key: Key) returns (id: Option<nat>)
      requires Valid()
      modifies this
      ensures Valid() && plan == old(plan) && fallback == old(fallback)
      ensures adopted == old(adopted) && terminal == old(terminal)
      ensures old(asked) < asked <= old(asked) + 3
      ensures var begun := answers(old(asked)) && !terminal;
              && debts == (if begun then old(debts) + [Debt(old(nextId), key)] else old(debts))
              && trace == (if begun then old(trace) + [Down(key)] else old(trace))
              && (begun ==> asked == old(asked) + 3)
              && id == if begun && answers(old(asked) + 1) && answers(old(asked) + 2) then Some(old(nextId)) else None
    {
      hide KeysOf, Elems, Increasing, Distinct;
      var active := Ask();
      if !active || terminal {
        return None;
      }
      PushDebt(debts, nextId, key);
      var pressed := nextId;
      debts := debts + [Debt(pressed, key)];
      nextId := nextId + 1;
      var down := SinkDown(key);
      var still := Ask();
      return if down && still then Some(pressed) else None;
    }

    /** `temporarily_release_physical_modifier`: only a held modifier not lifted yet is lifted, and it is planned for
        restoring before the attempt. */
    method Lift(key: Key) returns (ok: bool)
      requires Valid()
      modifies this
      ensures Valid() && debts == old(debts) && fallback == old(fallback)
      ensures adopted == old(adopted) && terminal == old(terminal)
      ensures old(asked) < asked <= old(asked) + 3 && nextId == old(nextId)
      ensures var begun := answers(old(asked)) && key in frozen && key !in old(plan);
              && plan == (if begun then old(plan) + [key] else old(plan))
              && trace == (if begun then old(trace) + [Up(key)] else old(trace))
              && (begun ==> asked == old(asked) + 3 && key in mayUp)
              && (ok <==> begun && answers(old(asked) + 1) && answers(old(asked) + 2))
    {
      hide KeysOf, Elems, Increasing, Distinct;
      var active := Ask();
      if !active || key !in frozen || key in plan {
        return false;
      }
      PushKey(plan, key);
      PlanKey(plan, key);
      plan := plan + [key];
      var up := SinkUp(key);
      var still := Ask();
      return up && still;
    }

    /** `release`: the debt goes exactly when the key-up is acknowledged. */
    method Release(id: nat) returns (ok: bool)
      requires Valid()
      modifies this
      ensures Valid() && plan == old(plan) && fallback == old(fallback)
      ensures adopted == old(adopted) && terminal == old(terminal)
      ensures old(asked) <= asked
      ensures debts == if answers(old(asked) + 1) then Settle(old(debts), id) else old(debts)
      ensures ok <==> Find(old(debts), id).Some? && answers(old(asked)) && answers(old(asked) + 1)
    {
      hide KeysOf, Elems, Increasing, Distinct, Without;
      var at := Find(debts, id);
      if at.None? {
        return false;
      }
      var active := Ask();
      var released := AcknowledgeUp(at.value);
      return released && active;
    }

    /** A key-up for the debt at position `i`, removed if it succeeds. */
    method AcknowledgeUp(i: nat) returns (released: bool)
      requires Valid() && i < |debts|
      modifies this
      ensures Valid() && plan == old(plan) && fallback == old(fallback) && adopted == old(adopted)
      ensures terminal == old(terminal) && nextId == old(nextId)
      ensures asked == old(asked) + 1 && released == answers(old(asked))
      ensures debts == if released then Without(old(debts), i) else old(debts)
      ensures mayUp == old(mayUp) + (Elems(plan) * {old(debts)[i].key})
      ensures trace == old(trace) + [Up(old(debts)[i].key)]
    {
      hide KeysOf, Elems, Increasing, Distinct;
      DropDebt(debts, nextId, i);
      released := SinkUp(debts[i].key);
      if released {
        debts := Without(debts, i);
      }
    }

    /** The first part of `restore_one_modifier`: press the key again; unless it was never attempted, it is owed. */
    method PressAgain(key: Key) returns (down: bool)
      requires Valid() && !terminal && key in plan
      modifies this
      ensures Valid() && plan == old(plan) && fallback == old(fallback) && adopted == old(adopted) && !terminal
      ensures var attempted := answers(old(asked)) && answers(old(asked) + 1);
              && debts == (if attempted then old(debts) + [Debt(old(nextId), key)] else old(debts))
              && trace == (if attempted then old(trace) + [Down(key)] else old(trace))
              && (down <==> attempted && answers(old(asked) + 2) && answers(old(asked) + 3))
      ensures down ==> mayUp == old(mayUp) - {key}
      ensures old(asked) <= asked && (YesFrom(old(asked)) ==> down)
    {
      hide KeysOf, Elems, Increasing, Distinct, Without;
      down := Ask();
      if !down {
        return;
      }
      PushDebt(debts, nextId, key);
      var i := |debts|;
      debts := debts + [Debt(nextId, key)];
      nextId := nextId + 1;
      DropDebt(debts, nextId, i);
      var begun := Ask();
      if !begun {
        debts := Without(debts, i);
        return false;
      }
      down := SinkDown(key);
      var still := Ask();
      return down && still;
    }

    /** `restore_one_modifier`: press the key again and hand it to the session ledger, or remember to release it. */
    method RestoreOne(key: Key) returns (ok: bool)
      requires Valid() && !terminal && key in plan
      modifies this
      ensures Valid() && plan == old(plan) && !terminal
      ensures ok ==> debts == old(debts) && fallback == old(fallback)
      ensures ok ==> adopted == old(adopted) + {key} && mayUp == old(mayUp) - {key}
      ensures ok ==> trace == old(trace) + [Down(key)]
      ensures old(asked) <= asked && (YesFrom(old(asked)) ==> ok)
    {
      hide KeysOf, Elems, Increasing, Distinct;
      var down := PressAgain(key);
      if !down {
        return false;
      }
      // the debt leaves the ledger: the session owns the key, or the fallback will release it
      DropDebt(debts, nextId, |debts| - 1);
      InPlan(plan, key);
      PushKey(fallback, key);
      debts := Without(debts, |debts| - 1);
      ok := Ask();
      if ok {
        adopted := adopted + {key};
      } else {
        fallback := fallback + [key];
      }
    }

    /** `restore_planned_modifiers`: the last lifted is restored first; the first error stops. */
    method RestorePlanned() returns (ok: bool)
      requires Valid() && !terminal
      modifies this
      ensures Valid() && plan == old(plan) && !terminal
      ensures ok ==> debts == old(debts) && fallback == old(fallback) && adopted == Elems(plan) && mayUp == {}
      ensures ok ==> trace == old(trace) + RestoreEvents(plan)
      ensures old(asked) <= asked && (YesFrom(old(asked)) ==> ok)
    {
      hide KeysOf, Elems, Increasing, Distinct;
      var n := |plan|;
      assert plan[..n] == plan && plan[n..] == [];
      NoKeys();
      while n > 0
        invariant 0 <= n <= |plan| && Valid() && plan == old(plan) && !terminal
        invariant debts == old(debts) && fallback == old(fallback) && old(asked) <= asked
        invariant Elems(plan[n..]) <= adopted && Elems(plan[n..]) !! mayUp
        invariant trace + RestoreEvents(plan[..n]) == old(trace) + RestoreEvents(plan)
      {
        n := n - 1;
        assert plan[..n + 1][..n] == plan[..n];
        assert RestoreEvents(plan[..n + 1]) == [Down(plan[n])] + RestoreEvents(plan[..n]);
        FirstKey(plan, n);
        var restored := RestoreOne(plan[n]);
        if !restored {
          return false;
        }
      }
      assert plan[0..] == plan;
      return true;
    }

    /** `release_all`: every debt gets one key-up, last first, whatever fails. */
    method ReleaseAll() returns (ok: bool)
      requires Valid()
      modifies this
      ensures Valid() && plan == old(plan) && fallback == old(fallback)
      ensures adopted == old(adopted) && terminal == old(terminal)
      ensures ok ==> debts == []
      ensures mayUp == old(mayUp) + Elems(plan) * KeysOf(old(debts))
      ensures trace == old(trace) + ReleaseEvents(old(debts))
      ensures old(asked) <= asked && (YesFrom(old(asked)) ==> ok)
    {
      hide KeysOf, Elems, Increasing, Distinct, Without, ReleaseEvents;
      ok := true;
      var n := |debts|;
      ghost var start := debts;
      assert ReleaseEvents([]) == [] by { NoEvents(); }
      assert start[n..] == [] && start[..n] == start;
      NoKeys();
      while n > 0
        invariant 0 <= n <= |start| && n <= |debts| && Valid() && debts[..n] == start[..n]
        invariant plan == old(plan) && fallback == old(fallback) && adopted == old(adopted) && terminal == old(terminal)
        invariant ok ==> debts == start[..n]
        invariant old(asked) <= asked && (YesFrom(old(asked)) ==> ok)
        invariant mayUp == old(mayUp) + Elems(plan) * KeysOf(start[n..])
        invariant trace + ReleaseEvents(start[..n]) == old(trace) + ReleaseEvents(start)
      {
        n := n - 1;
        LastOfPrefix(start, debts, n);
        FirstDebt(start, n);
        var released := AcknowledgeUp(n);
        ok := ok && released;
      }
      assert start[0..] == start;
    }

    /** `drain_release_only_fallback`: what cannot be released stays in the fallback. */
    method DrainFallback() returns (ok: bool)
      requires Valid()
      modifies this
      ensures Valid() && plan == old(plan) && debts == old(debts)
      ensures adopted == old(adopted) && terminal == old(terminal)
      ensures ok ==> fallback == []
      ensures old(fallback) == [] ==> ok && mayUp == old(mayUp) && trace == old(trace)
      ensures old(asked) <= asked && (YesFrom(old(asked)) ==> ok)
    {
      hide KeysOf, Elems, Increasing, Distinct;
      ok := true;
      var retained: seq<Key> := [];
      NoKeys();
      while fallback != []
        invariant plan == old(plan) && debts == old(debts) && adopted == old(adopted) && terminal == old(terminal)
        invariant Increasing(debts, nextId) && Distinct(plan)
        invariant Elems(plan) <= frozen && adopted <= Elems(plan) && mayUp <= Elems(plan)
        invariant mayDown <= KeysOf(debts) + Elems(fallback) + Elems(retained) + adopted
        invariant ok ==> retained == []
        invariant old(asked) <= asked && (YesFrom(old(asked)) ==> ok)
        invariant old(fallback) == [] ==> fallback == [] && ok && mayUp == old(mayUp) && trace == old(trace)
        decreases |fallback|
      {
        var n := |fallback| - 1;
        var key := fallback[n];
        assert fallback == fallback[..n] + [key];
        PushKey(fallback[..n], key);
        PushKey(retained, key);
        var released := SinkUp(key);
        fallback := fallback[..n];
        if !released {
          ok := false;
          retained := retained + [key];
        }
      }
      fallback := retained;
    }

    function TerminalProof(): Proof
      reads this
    {
      if |debts| + |fallback| == 0 then Reconciled else Unreconciled(|debts| + |fallback|)
    }

    /**
     `finish_success` and `finish_soft_cancel`.  A clean finish restored every lifted modifier, and
     nothing else may be down.  But the restored keys come first and the leftover debts are released
     after them, so a lifted modifier may be up again exactly when a leftover debt has its key.
     */
    method FinishWithRestore(softCancel: bool, personallyCancelled: bool) returns (report: TerminalReport)
      requires Replaying()
      modifies this
      ensures Valid() && terminal && plan == old(plan)
      ensures report.proof == TerminalProof()
      ensures report.proof == Reconciled ==> mayDown <= adopted <= Elems(plan)
      ensures !report.outcome.FinishedHardFailed? ==>
        && report.proof == Reconciled && !report.cleanupFailed && adopted == Elems(plan)
        && mayUp == Elems(plan) * KeysOf(old(debts))
        && trace == old(trace) + RestoreEvents(plan) + ReleaseEvents(old(debts))
      ensures report.outcome.FinishedSuccess? ==> !softCancel && !personallyCancelled
      ensures report.outcome.FinishedSoftCancelled? ==> softCancel || personallyCancelled
      ensures YesFrom(old(asked)) ==> !report.outcome.FinishedHardFailed?
    {
      NoKeys();
      hide KeysOf, Elems, Increasing, Distinct;
      var restored := RestorePlanned();
      terminal := true;
      var released := ReleaseAll();
      var drained := DrainFallback();
      var synchronized := Ask();
      var clean := restored && released && drained && synchronized;
      var proof := TerminalProof();
      var outcome := if !clean || proof != Reconciled then FinishedHardFailed
                     else if softCancel || personallyCancelled then FinishedSoftCancelled
                     else FinishedSuccess;
      return TerminalReport(outcome, !clean, proof);
    }

    /** `finish_hard_failure`: nothing is restored, so a lifted modifier stays up; everything pressed is released. */
    method FinishHardFailure() returns (report: TerminalReport)
      requires Replaying()
      modifies this
      ensures Valid() && terminal && plan == old(plan) && adopted == {} && fallback == []
      ensures report.outcome.FinishedHardFailed? && report.proof == TerminalProof()
      ensures report.proof == Reconciled ==> mayDown == {}
      ensures mayUp == old(mayUp) + Elems(plan) * KeysOf(old(debts))
      ensures trace == old(trace) + ReleaseEvents(old(debts))
      ensures !report.cleanupFailed ==> report.proof == Reconciled
      ensures YesFrom(old(asked)) ==> !report.cleanupFailed
    {
      NoKeys();
      hide KeysOf, Elems, Increasing, Distinct;
      terminal := true;
      var released := ReleaseAll();
      var drained := DrainFallback();
      var synchronized := Ask();
      var proof := TerminalProof();
      return TerminalReport(FinishedHardFailed, !(released && drained && synchronized), proof);
    }
  }

  lemma OneEach(key: Key, id: nat)
    ensures RestoreEvents([key]) == [Down(key)] && ReleaseEvents([Debt(id, key)]) == [Up(key)]
    ensures !DownAfter([Up(key), Down(key), Down(key), Up(key)], key, true)
  {
    assert [key][..0] == [] && [Debt(id, key)][..0] == [];
  }

  /**
   So a Shift held by the user is lost when a soft cancel interrupts the replay's own press of Shift: that press
   leaves a debt, and the debt is released after the held Shift was restored.  This is the run: the sixth answer is
   the soft cancel, every other one is yes, and the finish is clean.
   */
  method HeldShiftLost() returns (op: SyntheticOperation, report: TerminalReport)
    ensures op.frozen == {LEFTSHIFT} && (forall i: nat :: op.answers(i) <==> i != 5)
    ensures report == TerminalReport(FinishedSoftCancelled, false, Reconciled)
    ensures op.trace == [Up(LEFTSHIFT), Down(LEFTSHIFT), Down(LEFTSHIFT), Up(LEFTSHIFT)]
    ensures !DownAfter(op.trace, LEFTSHIFT, true)
  {
    hide KeysOf, Elems, Increasing, Distinct, DownAfter, RestoreEvents, ReleaseEvents;
    op := new SyntheticOperation({LEFTSHIFT}, i => i != 5);
    var lifted := op.Lift(LEFTSHIFT);
    var pressed := op.Press(LEFTSHIFT);
    assert op.plan == [LEFTSHIFT] && op.debts == [Debt(1, LEFTSHIFT)];
    assert op.asked == 6 && op.YesFrom(6);
    report := op.FinishWithRestore(true, true);
    OneEach(LEFTSHIFT, 1);
  }
}
