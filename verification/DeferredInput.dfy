/** The ledger of input deferred during a manual correction, as a queue with counters and two limits. */
module DeferredInput {
  import opened Common
  import opened Keys

  const U64_MAX: nat := 0xFFFF_FFFF_FFFF_FFFF
  const SOFT_LIMIT: nat := 256
  const HARD_LIMIT: nat := 16_384

  datatype Event = Event(sequenceId: nat, key: Key, value: int)

  datatype Admission = Queued | RequestCancellation | CapacityExceeded(limit: nat)

  datatype AckResult = Acked | AckError(expected: nat, received: nat)

  datatype Report = Report(accepted: nat, acknowledged: nat, reconciled: nat, queued: nat)

  datatype Ledger = Ledger(queue: seq<Event>, accepted: nat, acknowledged: nat, reported: bool, soft: nat, hard: nat)

  function SaturatingInc(n: nat): nat {
    Min(n + 1, U64_MAX)
  }

  function Empty(soft: nat, hard: nat): Ledger {
    Ledger([], 0, 0, false, soft, hard)
  }

  function Admit(l: Ledger, e: Event): (Ledger, Admission) {
    if |l.queue| >= l.hard then (l, CapacityExceeded(l.hard))
    else
      var l := l.(queue := l.queue + [e], accepted := SaturatingInc(l.accepted));
      if !l.reported && |l.queue| > l.soft then (l.(reported := true), RequestCancellation) else (l, Queued)
  }

  function Acknowledge(l: Ledger, id: nat): (Ledger, AckResult) {
    var expected := if l.queue == [] then 0 else l.queue[0].sequenceId;
    if expected != id then (l, AckError(expected, id))
    else (l.(queue := if l.queue == [] then [] else l.queue[1..], acknowledged := SaturatingInc(l.acknowledged)), Acked)
  }

  /** `finish_report`, after `reconciled` events were dropped from the queue. */
  function FinishReport(l: Ledger, reconciled: nat): (Ledger, Report) {
    (l.(accepted := 0, acknowledged := 0, reported := false), Report(l.accepted, l.acknowledged, reconciled, |l.queue|))
  }

  /** `reconcile_all` */
  function ReconcileAll(l: Ledger): (Ledger, Report) {
    FinishReport(l.(queue := []), Min(|l.queue|, U64_MAX))
  }

  // ----- runs of one ledger -----

  datatype Op = Accept(event: Event) | Ack(id: nat) | Reconcile | Drained

  /** The ledger with the history of the current episode: what an unfinished one left in the queue, what was admitted,
      what was acknowledged (phantom acknowledgements hit an empty queue), the longest queue after an admission, and
      the cancellation requests. */
  datatype History = History(ledger: Ledger, carried: seq<Event>, admitted: seq<Event>, acked: seq<Event>,
                             phantoms: nat, peak: nat, requests: nat)

  function Step(h: History, op: Op): History {
    match op
    case Accept(e) =>
      var (l, a) := Admit(h.ledger, e);
      h.(ledger := l,
         admitted := if a.CapacityExceeded? then h.admitted else h.admitted + [e],
         peak := if !a.CapacityExceeded? && |l.queue| > h.peak then |l.queue| else h.peak,
         requests := h.requests + if a.RequestCancellation? then 1 else 0)
    case Ack(id) =>
      var (l, r) := Acknowledge(h.ledger, id);
      if r.AckError? then h
      else if h.ledger.queue == [] then h.(ledger := l, phantoms := h.phantoms + 1)
      else h.(ledger := l, acked := h.acked + [h.ledger.queue[0]])
    case Reconcile => History(ReconcileAll(h.ledger).0, [], [], [], 0, 0, 0)
    case Drained => History(FinishReport(h.ledger, 0).0, h.ledger.queue, [], [], 0, 0, 0)
  }

  function Run(h: History, ops: seq<Op>): History
    decreases |ops|
  {
    if ops == [] then h else Run(Step(h, ops[0]), ops[1..])
  }

  predicate Conserved(h: History) {
    var l := h.ledger;
    && h.carried + h.admitted == h.acked + l.queue
    && |l.queue| <= l.hard
    && l.accepted == Min(|h.admitted|, U64_MAX)
    && l.acknowledged == Min(|h.acked| + h.phantoms, U64_MAX)
    && (l.reported <==> h.peak > l.soft)
    && h.requests == (if l.reported then 1 else 0)
    && (h.carried == [] ==> |l.queue| <= h.peak)
  }

  lemma StepConserves(h: History, op: Op)
    requires Conserved(h)
    ensures Conserved(Step(h, op))
  {
    var queue := h.ledger.queue;
    if op.Accept? {
      assert h.carried + (h.admitted + [op.event]) == h.carried + h.admitted + [op.event];
      assert h.acked + (queue + [op.event]) == h.acked + queue + [op.event];
    } else if op.Ack? && queue != [] {
      assert queue == [queue[0]] + queue[1..];
      assert h.acked + queue == h.acked + [queue[0]] + queue[1..];
    } else if op.Drained? {
      assert queue + [] == [] + queue;
    }
  }

  /** In every run: the events carried over and admitted are the acknowledged ones followed by the queued ones, in
      order; the queue stays within the hard limit; cancellation is requested once per episode, when an admission
      first passes the soft limit. */
  lemma {:induction false} RunConserves(h: History, ops: seq<Op>)
    requires Conserved(h)
    ensures Conserved(Run(h, ops))
    decreases |ops|
  {
    if ops != [] {
      StepConserves(h, ops[0]);
      RunConserves(Step(h, ops[0]), ops[1..]);
    }
  }

  function Fresh(soft: nat, hard: nat): History {
    History(Empty(soft, hard), [], [], [], 0, 0, 0)
  }

  /** With non-zero ids no acknowledgement is a phantom. */
  lemma {:induction false} NoPhantoms(h: History, ops: seq<Op>)
    requires h.phantoms == 0 && forall i :: 0 <= i < |ops| && ops[i].Ack? ==> ops[i].id != 0
    ensures Run(h, ops).phantoms == 0
    decreases |ops|
  {
    if ops != [] {
      NoPhantoms(Step(h, ops[0]), ops[1..]);
    }
  }

  /** The balance that `finish_report` asserts. */
  predicate Balanced(r: Report) {
    r.accepted == Min(Min(r.acknowledged + r.reconciled, U64_MAX) + r.queued, U64_MAX)
  }

  /** Nothing disturbs the balance of an episode: no event carried over and no phantom, or a saturated counter. */
  predicate Undisturbed(h: History) {
    (h.carried == [] && h.phantoms == 0) || |h.admitted| >= U64_MAX
  }

  lemma BalancedIff(h: History)
    requires Conserved(h)
    ensures Balanced(ReconcileAll(h.ledger).1) <==> Undisturbed(h)
    ensures Balanced(FinishReport(h.ledger, 0).1) <==> Undisturbed(h)
  {
    assert |h.carried| + |h.admitted| == |h.acked| + |h.ledger.queue| by {
      assert |h.carried + h.admitted| == |h.acked + h.ledger.queue|;
    }
  }

  /** Only `finish_drained` on a queue that is not empty carries events over. */
  lemma {:induction false} NothingCarried(h: History, ops: seq<Op>)
    requires h.carried == [] && forall i :: 0 <= i < |ops| ==> !ops[i].Drained?
    ensures Run(h, ops).carried == []
    decreases |ops|
  {
    if ops != [] {
      NothingCarried(Step(h, ops[0]), ops[1..]);
    }
  }

  /** The report of any run balances exactly when no event was carried over and no acknowledgement was a phantom, or
      the counter of accepted events is saturated; reconciling only, with non-zero ids, rules both out. */
  lemma ReportBalances(soft: nat, hard: nat, ops: seq<Op>)
    ensures var h := Run(Fresh(soft, hard), ops); var r := ReconcileAll(h.ledger).1;
            && r.queued == 0 && r.accepted == Min(|h.admitted|, U64_MAX)
            && (Balanced(r) <==> Undisturbed(h))
    ensures (forall i :: 0 <= i < |ops| ==> !ops[i].Drained? && (ops[i].Ack? ==> ops[i].id != 0)) ==>
              Undisturbed(Run(Fresh(soft, hard), ops))
  {
    RunConserves(Fresh(soft, hard), ops);
    BalancedIff(Run(Fresh(soft, hard), ops));
    if forall i :: 0 <= i < |ops| ==> !ops[i].Drained? && (ops[i].Ack? ==> ops[i].id != 0) {
      NoPhantoms(Fresh(soft, hard), ops);
      NothingCarried(Fresh(soft, hard), ops);
    }
  }

  /** The shortest unbalanced run: one acknowledgement of id 0 with nothing queued. */
  lemma PhantomUnbalances(soft: nat, hard: nat)
    ensures var h := Run(Fresh(soft, hard), [Ack(0)]);
            h.phantoms == 1 && h.admitted == [] && !Balanced(ReconcileAll(h.ledger).1)
  {
    var h := Fresh(soft, hard);
    assert [Ack(0)][1..] == [];
    assert Run(h, [Ack(0)]) == Run(Step(h, Ack(0)), []);
  }

  /** The ledger object.  It carries the history of the current episode, and its invariant is the conservation law. */
  class DeferredInputLedger {
    var queue: seq<Event>
    var accepted: nat
    var acknowledged: nat
    var reported: bool
    const soft: nat
    const hard: nat
    ghost var carried: seq<Event>
    ghost var admitted: seq<Event>
    ghost var acked: seq<Event>
    ghost var phantoms: nat
    ghost var peak: nat
    ghost var requests: nat

    ghost function Past(): History
      reads this
    {
      History(Ledger(queue, accepted, acknowledged, reported, soft, hard), carried, admitted, acked, phantoms, peak,
              requests)
    }

    ghost predicate Valid()
      reads this
    {
      Conserved(Past())
    }

    constructor (soft: nat, hard: nat)
      ensures Valid() && Past() == Fresh(soft, hard)
    {
      queue, accepted, acknowledged, reported := [], 0, 0, false;
      carried, admitted, acked, phantoms, peak, requests := [], [], [], 0, 0, 0;
      this.soft, this.hard := soft, hard;
    }

    /** `Default` */
    constructor Default()
      ensures Valid() && Past() == Fresh(256, 16_384)
    {
      queue, accepted, acknowledged, reported := [], 0, 0, false;
      carried, admitted, acked, phantoms, peak, requests := [], [], [], 0, 0, 0;
      soft, hard := SOFT_LIMIT, HARD_LIMIT;
    }

    /** `admit`: an event is lost only when the queue is full, and cancellation is requested by the event that
        takes the queue past the soft limit for the first time in its episode. */
    method Admit(e: Event) returns (a: Admission)
      requires Valid()
      modifies this
      ensures Valid() && Past() == Step(old(Past()), Accept(e))
      ensures a.CapacityExceeded? <==> |old(queue)| == hard
      ensures admitted == if a.CapacityExceeded? then old(admitted) else old(admitted) + [e]
      ensures acked == old(acked) && phantoms == old(phantoms) && carried == old(carried)
      ensures a.RequestCancellation? <==> !a.CapacityExceeded? && old(peak) <= soft < |queue|
      ensures requests == old(requests) + (if a.RequestCancellation? then 1 else 0) <= 1
    {
      StepConserves(Past(), Accept(e));
      if |queue| >= hard {
        return CapacityExceeded(hard);
      }
      queue := queue + [e];
      accepted := Min(accepted + 1, U64_MAX);
      admitted := admitted + [e];
      a := Queued;
      if !reported && |queue| > soft {
        reported := true;
        requests := requests + 1;
        a := RequestCancellation;
      }
      peak := if |queue| > peak then |queue| else peak;
    }

    /** `acknowledge`: the head leaves the queue for its own id only; without a head the id 0 is a phantom. */
    method Acknowledge(id: nat) returns (r: AckResult)
      requires Valid()
      modifies this
      ensures Valid() && Past() == Step(old(Past()), Ack(id))
      ensures r.Acked? <==> id == if old(queue) == [] then 0 else old(queue)[0].sequenceId
      ensures r.AckError? ==> Past() == old(Past()) && r.received == id != r.expected
      ensures admitted == old(admitted) && carried == old(carried)
      ensures acked == if r.Acked? && old(queue) != [] then old(acked) + [old(queue)[0]] else old(acked)
      ensures phantoms == old(phantoms) + if old(queue) == [] && id == 0 then 1 else 0
    {
      StepConserves(Past(), Ack(id));
      var expected := if |queue| > 0 then queue[0].sequenceId else 0;
      if expected != id {
        return AckError(expected, id);
      }
      if |queue| > 0 {
        acked := acked + [queue[0]];
        queue := queue[1..];
      } else {
        phantoms := phantoms + 1;
      }
      acknowledged := Min(acknowledged + 1, U64_MAX);
      return Acked;
    }

    /** `finish_report` */
    method FinishReport(reconciled: nat) returns (report: Report)
      modifies this
      ensures Past() == History(Ledger(old(queue), 0, 0, false, soft, hard), old(queue), [], [], 0, 0, 0)
      ensures report == Report(old(accepted), old(acknowledged), reconciled, |old(queue)|)
    {
      report := Report(accepted, acknowledged, reconciled, |queue|);
      accepted := 0;
      acknowledged := 0;
      reported := false;
      carried, admitted, acked, phantoms, peak, requests := queue, [], [], 0, 0, 0;
    }

    /** `reconcile_all`: the report accounts for every admitted event, acknowledged or dropped here, unless a
        phantom was counted or events were carried over; a new episode begins. */
    method ReconcileAll() returns (report: Report)
      requires Valid()
      modifies this
      ensures Valid() && Past() == Fresh(soft, hard)
      ensures report.accepted == Min(|old(admitted)|, U64_MAX) && report.queued == 0
      ensures report.reconciled == Min(|old(carried)| + |old(admitted)| - |old(acked)|, U64_MAX)
      ensures Balanced(report) <==> old(Undisturbed(Past()))
    {
      BalancedIff(Past());
      var reconciled := Min(|queue|, U64_MAX);
      queue := [];
      report := FinishReport(reconciled);
    }

    /** `finish_drained`: nothing is dropped; what is still queued is carried into the new episode, whose report then
        does not balance.  It is meant for an empty queue, when every event was acknowledged. */
    method FinishDrained() returns (report: Report)
      requires Valid()
      modifies this
      ensures Valid() && Past() == Step(old(Past()), Drained)
      ensures queue == old(queue) == carried && admitted == [] && report.reconciled == 0 && report.queued == |queue|
      ensures queue == [] ==> old(carried + admitted) == old(acked) && Past() == Fresh(soft, hard)
      ensures Balanced(report) <==> old(Undisturbed(Past()))
    {
      BalancedIff(Past());
      StepConserves(Past(), Drained);
      report := FinishReport(0);
    }

    /** `drain_deferred_head_with`: the oldest event not yet acknowledged is handed out, and acknowledged exactly
        when it was handled; that acknowledgement never fails and is never a phantom. */
    method DrainHead(handled: bool) returns (head: Option<Event>)
      requires Valid()
      modifies this
      ensures Valid()
      ensures head.Some? <==> |old(acked)| < |old(carried + admitted)|
      ensures head.Some? ==> head.value == old(carried + admitted)[|old(acked)|]
      ensures Past() == if head.Some? && handled then Step(old(Past()), Ack(head.value.sequenceId)) else old(Past())
      ensures acked == if head.Some? && handled then old(acked) + [head.value] else old(acked)
      ensures carried == old(carried) && admitted == old(admitted) && phantoms == old(phantoms)
      ensures accepted == old(accepted) && reported == old(reported)
      ensures acknowledged == if head.Some? && handled then Min(old(acknowledged) + 1, U64_MAX) else old(acknowledged)
    {
      if queue == [] {
        return None;
      }
      head := Some(queue[0]);
      if handled {
        var r := Acknowledge(head.value.sequenceId);
        assert r == Acked;
      }
    }
  }
}
