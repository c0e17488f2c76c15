/** The flow threads of MFS.c around the arbiter: each flow is Pending
    until its arrival, then Waiting or Transmitting after `requestPipe`,
    and Done after `releasePipe`. Each critical section is one atomic
    event; the invariant ties the flows' phases to the arbiter state. */
module Simulation {
  import opened Flows
  import opened WaitQueue
  import opened Arbiter

  datatype Phase = Pending | Waiting | Transmitting | Done

  /** All flows of a run, the phase of each, and the shared arbiter. */
  datatype Sim = Sim(flows: seq<Flow>, phase: seq<Phase>, arb: ArbiterState)

  /** Arrive: the thread's arrival sleep ends and it enters `requestPipe`.
      Wake: a waiting thread returns from `pthread_cond_wait` and re-checks
      the loop condition. Finish: the holder's transmission sleep ends and
      it calls `releasePipe`. */
  datatype Event = Arrive(i: nat) | Wake(i: nat) | Finish(i: nat)

  /** The flows in Waiting phase, in table order. */
  function WaitingFlows(flows: seq<Flow>, phase: seq<Phase>): seq<Flow>
    requires |flows| == |phase|
  {
    if |flows| == 0 then []
    else (if phase[0] == Waiting then [flows[0]] else []) + WaitingFlows(flows[1..], phase[1..])
  }

  predicate Inv(m: Sim) {
    && |m.phase| == |m.flows| <= MAXFLOW
    && DistinctIds(m.flows)
    && multiset(m.arb.queue) == multiset(WaitingFlows(m.flows, m.phase))
    && SortedByPriority(m.arb.queue)
    && (forall i :: 0 <= i < |m.phase| && m.phase[i] == Transmitting ==>
          m.arb.inPipe && m.arb.runningFlow == m.flows[i].id)
    && (m.arb.inPipe ==> exists i :: 0 <= i < |m.phase| && m.phase[i] == Transmitting)
  }

  /** A run before any thread has arrived. */
  function Init(flows: seq<Flow>): Sim {
    Sim(flows, seq(|flows|, _ => Pending), Initial)
  }

  predicate Enabled(m: Sim, e: Event) {
    && |m.phase| == |m.flows|
    && e.i < |m.flows|
    && match e
       case Arrive(i) => m.phase[i] == Pending
       case Wake(i) => m.phase[i] == Waiting
       case Finish(i) => m.phase[i] == Transmitting
  }

  // ---------------------------------------------------------------------
  // The waiting flows.

  /** The contribution of one flow to the waiting flows. */
  function Mark(f: Flow, ph: Phase): multiset<Flow> {
    if ph == Waiting then multiset{f} else multiset{}
  }

  lemma {:induction false} WaitingUnfold(flows: seq<Flow>, phase: seq<Phase>)
    requires |flows| == |phase| > 0
    ensures multiset(WaitingFlows(flows, phase)) == Mark(flows[0], phase[0]) + multiset(WaitingFlows(flows[1..], phase[1..]))
  {
  }

  /** Changing one flow's phase moves that flow into or out of the waiting
      flows and leaves every other entry alone. */
  lemma {:induction false} WaitingUpdate(flows: seq<Flow>, phase: seq<Phase>, i: int, p: Phase)
    requires |flows| == |phase| && 0 <= i < |flows|
    ensures multiset(WaitingFlows(flows, phase[i := p])) + Mark(flows[i], phase[i])
         == multiset(WaitingFlows(flows, phase)) + Mark(flows[i], p)
    decreases |flows|
  {
    if i > 0 {
      var q := phase[i := p];
      WaitingUnfold(flows, q);
      WaitingUnfold(flows, phase);
      assert q[1..] == phase[1..][i - 1 := p];
      assert flows[1..][i - 1] == flows[i];
      WaitingUpdate(flows[1..], phase[1..], i - 1, p);
      AddOnLeft(Mark(flows[0], phase[0]),
                multiset(WaitingFlows(flows[1..], q[1..])), Mark(flows[i], phase[i]),
                multiset(WaitingFlows(flows[1..], phase[1..])), Mark(flows[i], p));
    } else {
      WaitingUpdateHead(flows, phase, p);
    }
  }

  /** A change between two non-waiting phases keeps the waiting flows. */
  lemma WaitingKept(flows: seq<Flow>, phase: seq<Phase>, i: int, p: Phase)
    requires |flows| == |phase| && 0 <= i < |flows| && phase[i] != Waiting && p != Waiting
    ensures multiset(WaitingFlows(flows, phase[i := p])) == multiset(WaitingFlows(flows, phase))
  {
    WaitingUpdate(flows, phase, i, p);
    var after := multiset(WaitingFlows(flows, phase[i := p]));
    var before := multiset(WaitingFlows(flows, phase));
    assert Mark(flows[i], phase[i]) == multiset{} == Mark(flows[i], p);
    assert after + multiset{} == after && before + multiset{} == before;
  }

  /** A flow entering Waiting joins the waiting flows. */
  lemma WaitingJoined(flows: seq<Flow>, phase: seq<Phase>, i: int)
    requires |flows| == |phase| && 0 <= i < |flows| && phase[i] != Waiting
    ensures multiset(WaitingFlows(flows, phase[i := Waiting])) == multiset(WaitingFlows(flows, phase)) + multiset{flows[i]}
  {
    WaitingUpdate(flows, phase, i, Waiting);
    assert Mark(flows[i], phase[i]) == multiset{};
  }

  /** A flow leaving Waiting leaves the waiting flows. */
  lemma WaitingLeft(flows: seq<Flow>, phase: seq<Phase>, i: int, p: Phase)
    requires |flows| == |phase| && 0 <= i < |flows| && phase[i] == Waiting && p != Waiting
    ensures multiset(WaitingFlows(flows, phase[i := p])) + multiset{flows[i]} == multiset(WaitingFlows(flows, phase))
  {
    WaitingUpdate(flows, phase, i, p);
    assert Mark(flows[i], p) == multiset{};
  }

  lemma WaitingUpdateHead(flows: seq<Flow>, phase: seq<Phase>, p: Phase)
    requires |flows| == |phase| > 0
    ensures multiset(WaitingFlows(flows, phase[0 := p])) + Mark(flows[0], phase[0])
         == multiset(WaitingFlows(flows, phase)) + Mark(flows[0], p)
  {
  }

  lemma AddOnLeft(h: multiset<Flow>, lhs: multiset<Flow>, a: multiset<Flow>, rhs: multiset<Flow>, b: multiset<Flow>)
    requires lhs + a == rhs + b
    ensures (h + lhs) + a == (h + rhs) + b
  {
    forall y ensures ((h + lhs) + a)[y] == ((h + rhs) + b)[y] {
      assert (lhs + a)[y] == (rhs + b)[y];
    }
  }

  lemma {:induction false} WaitingWitness(flows: seq<Flow>, phase: seq<Phase>, x: Flow) returns (j: nat)
    requires |flows| == |phase| && x in multiset(WaitingFlows(flows, phase))
    ensures j < |flows| && flows[j] == x && phase[j] == Waiting
    decreases |flows|
  {
    if phase[0] == Waiting && flows[0] == x {
      j := 0;
    } else {
      var j' := WaitingWitness(flows[1..], phase[1..], x);
      j := j' + 1;
    }
  }

  lemma {:induction false} WaitingMember(flows: seq<Flow>, phase: seq<Phase>, j: int)
    requires |flows| == |phase| && 0 <= j < |flows| && phase[j] == Waiting
    ensures flows[j] in multiset(WaitingFlows(flows, phase))
    decreases |flows|
  {
    if j > 0 {
      WaitingMember(flows[1..], phase[1..], j - 1);
    }
  }

  lemma {:induction false} WaitingFewer(flows: seq<Flow>, phase: seq<Phase>, i: int)
    requires |flows| == |phase| && 0 <= i < |flows| && phase[i] != Waiting
    ensures |WaitingFlows(flows, phase)| < |flows|
    decreases |flows|
  {
    if i > 0 {
      WaitingFewer(flows[1..], phase[1..], i - 1);
    } else {
      WaitingAtMost(flows[1..], phase[1..]);
    }
  }

  lemma {:induction false} WaitingAtMost(flows: seq<Flow>, phase: seq<Phase>)
    requires |flows| == |phase|
    ensures |WaitingFlows(flows, phase)| <= |flows|
    decreases |flows|
  {
    if |flows| > 0 {
      WaitingAtMost(flows[1..], phase[1..]);
    }
  }

  lemma {:induction false} NoneWaiting(flows: seq<Flow>, phase: seq<Phase>)
    requires |flows| == |phase| && forall k :: 0 <= k < |phase| ==> phase[k] != Waiting
    ensures WaitingFlows(flows, phase) == []
    decreases |flows|
  {
    if |flows| > 0 {
      NoneWaiting(flows[1..], phase[1..]);
    }
  }

  lemma {:induction false} WaitingDistinct(flows: seq<Flow>, phase: seq<Phase>)
    requires |flows| == |phase| && DistinctIds(flows)
    ensures DistinctIds(WaitingFlows(flows, phase))
    decreases |flows|
  {
    if |flows| > 0 {
      var tail := flows[1..];
      assert DistinctIds(tail) by {
        forall a, b | 0 <= a < b < |tail| ensures tail[a].id != tail[b].id {
          assert tail[a] == flows[a + 1] && tail[b] == flows[b + 1];
        }
      }
      WaitingDistinct(tail, phase[1..]);
      var rest := WaitingFlows(tail, phase[1..]);
      if phase[0] == Waiting {
        var w := [flows[0]] + rest;
        forall a, b | 0 <= a < b < |w| ensures w[a].id != w[b].id {
          if a == 0 {
            assert w[b] == rest[b - 1];
            var j := WaitingWitness(tail, phase[1..], rest[b - 1]);
            assert flows[j + 1] == rest[b - 1];
          } else {
            assert w[a] == rest[a - 1] && w[b] == rest[b - 1];
          }
        }
      }
    }
  }

  // ---------------------------------------------------------------------
  // Consequences of the invariant.

  /** Every queued entry is a flow of the run that is in Waiting phase. */
  lemma QueuedIsWaiting(m: Sim, k: int) returns (j: nat)
    requires Inv(m) && 0 <= k < |m.arb.queue|
    ensures j < |m.flows| && m.flows[j] == m.arb.queue[k] && m.phase[j] == Waiting
  {
    assert m.arb.queue[k] in multiset(m.arb.queue);
    j := WaitingWitness(m.flows, m.phase, m.arb.queue[k]);
  }

  /** A flow that is not Waiting has no entry in the queue. */
  lemma NotWaitingNotQueued(m: Sim, i: int)
    requires Inv(m) && 0 <= i < |m.flows| && m.phase[i] != Waiting
    ensures !HasId(m.arb.queue, m.flows[i].id)
  {
    if HasId(m.arb.queue, m.flows[i].id) {
      var k :| 0 <= k < |m.arb.queue| && m.arb.queue[k].id == m.flows[i].id;
      var j := QueuedIsWaiting(m, k);
    }
  }

  /** Capacity: with at most MAXFLOW flows in the run, the queue has room
      whenever a flow arrives, so `addToList` never writes past the array. */
  lemma QueueRoom(m: Sim, i: int)
    requires Inv(m) && 0 <= i < |m.flows| && m.phase[i] == Pending
    ensures |m.arb.queue| < MAXFLOW
  {
    WaitingFewer(m.flows, m.phase, i);
    assert |multiset(m.arb.queue)| == |multiset(WaitingFlows(m.flows, m.phase))|;
  }

  /** Each flow appears in the queue at most once. */
  lemma QueueIdsDistinct(m: Sim)
    requires Inv(m)
    ensures DistinctIds(m.arb.queue)
  {
    WaitingDistinct(m.flows, m.phase);
    PermutationKeepsDistinctIds(m.arb.queue, WaitingFlows(m.flows, m.phase));
  }

  /** Mutual exclusion: at most one flow transmits. */
  lemma MutualExclusion(m: Sim, i: int, j: int)
    requires Inv(m) && 0 <= i < |m.flows| && 0 <= j < |m.flows|
    requires m.phase[i] == Transmitting && m.phase[j] == Transmitting
    ensures i == j
  {
  }

  /** The flow holding the pipe is never also in the queue. */
  lemma HolderNotQueued(m: Sim)
    requires Inv(m) && m.arb.inPipe
    ensures !HasId(m.arb.queue, m.arb.runningFlow)
  {
    var h :| 0 <= h < |m.phase| && m.phase[h] == Transmitting;
    NotWaitingNotQueued(m, h);
  }

  // ---------------------------------------------------------------------
  // Transitions.

  /** One atomic event of the run. */
  function Step(m: Sim, e: Event): (r: Sim)
    requires Inv(m) && Enabled(m, e)
    ensures r.flows == m.flows && |r.phase| == |m.phase|
    ensures forall j :: 0 <= j < |m.phase| && j != e.i ==> r.phase[j] == m.phase[j]
    ensures e.Finish? ==> r.phase[e.i] == Done && !r.arb.inPipe
    ensures !e.Finish? ==> r.phase[e.i] == Waiting || r.phase[e.i] == Transmitting
    ensures !e.Finish? && r.phase[e.i] == Transmitting ==>
              !m.arb.inPipe && r.arb.inPipe && r.arb.runningFlow == m.flows[e.i].id
    ensures !e.Finish? && r.phase[e.i] == Waiting ==>
              r.arb.inPipe == m.arb.inPipe && r.arb.runningFlow == m.arb.runningFlow
  {
    match e
    case Arrive(i) =>
      QueueRoom(m, i);
      NotWaitingNotQueued(m, i);
      var t := RequestPipe(m.arb, m.flows[i]);
      Sim(m.flows, m.phase[i := if t.holding then Transmitting else Waiting], t.state)
    case Wake(i) =>
      var t := WaitCheck(m.arb, m.flows[i]);
      Sim(m.flows, m.phase[i := if t.holding then Transmitting else Waiting], t.state)
    case Finish(i) =>
      Sim(m.flows, m.phase[i := Done], ReleasePipe(m.arb))
  }

  /** Pointwise cancellation of one added entry on both sides. */
  lemma CancelOne(a: multiset<Flow>, b: multiset<Flow>, x: Flow)
    requires a + multiset{x} == b + multiset{x}
    ensures a == b
  {
    forall y ensures a[y] == b[y] {
      assert (a + multiset{x})[y] == (b + multiset{x})[y];
    }
  }

  lemma InitInv(flows: seq<Flow>)
    requires |flows| <= MAXFLOW && DistinctIds(flows)
    ensures Inv(Init(flows))
  {
    NoneWaiting(flows, Init(flows).phase);
  }

  /** Only the flow that starts holds the pipe afterwards: before the
      grant the pipe was free, so nobody else transmitted. */
  lemma StartKeepsHolder(m: Sim, e: Event)
    requires Inv(m) && Enabled(m, e)
    ensures var r := Step(m, e);
            !e.Finish? && r.phase[e.i] == Transmitting ==>
              forall j :: 0 <= j < |r.phase| && r.phase[j] == Transmitting ==>
                r.arb.inPipe && r.arb.runningFlow == r.flows[j].id
  {
  }

  /** An arriving flow granted the pipe at once, or straight after joining
      the queue as its head. */
  lemma ArriveStartPreservesInv(m: Sim, i: nat)
    requires Inv(m) && Enabled(m, Arrive(i))
    requires Step(m, Arrive(i)).phase[i] == Transmitting
    ensures Inv(Step(m, Arrive(i)))
  {
    var r := Step(m, Arrive(i));
    NotWaitingNotQueued(m, i);
    QueueRoom(m, i);
    var t := RequestPipe(m.arb, m.flows[i]);
    assert t.holding && r.arb == t.state;
    assert r.phase == m.phase[i := Transmitting];
    WaitingKept(m.flows, m.phase, i, Transmitting);
    assert multiset(r.arb.queue) == multiset(m.arb.queue);
    StartKeepsHolder(m, Arrive(i));
  }

  /** A waiting flow that wakes at the head of the queue with the pipe
      free. */
  lemma WakeStartPreservesInv(m: Sim, i: nat)
    requires Inv(m) && Enabled(m, Wake(i))
    requires Step(m, Wake(i)).phase[i] == Transmitting
    ensures Inv(Step(m, Wake(i)))
  {
    var r := Step(m, Wake(i));
    var t := WaitCheck(m.arb, m.flows[i]);
    assert t.holding && r.arb == t.state;
    assert r.phase == m.phase[i := Transmitting];
    var j := QueuedIsWaiting(m, 0);
    assert m.arb.queue[0] == m.flows[i];
    RmvFromListKeepsOrder(m.arb.queue);
    WaitingLeft(m.flows, m.phase, i, Transmitting);
    assert multiset(r.arb.queue) + multiset{m.flows[i]} == multiset(m.arb.queue);
    CancelOne(multiset(r.arb.queue), multiset(WaitingFlows(m.flows, r.phase)), m.flows[i]);
    StartKeepsHolder(m, Wake(i));
  }

  /** A flow that joins or stays in the queue leaves the holder alone. */
  lemma QueuePreservesInv(m: Sim, e: Event)
    requires Inv(m) && Enabled(m, e) && !e.Finish?
    requires Step(m, e).phase[e.i] == Waiting
    ensures Inv(Step(m, e))
  {
    var r := Step(m, e);
    var i := e.i;
    match e
    case Arrive(_) =>
      NotWaitingNotQueued(m, i);
      QueueRoom(m, i);
      var t := RequestPipe(m.arb, m.flows[i]);
      assert !t.holding && r.arb == t.state;
      WaitingJoined(m.flows, m.phase, i);
      assert r.phase == m.phase[i := Waiting];
      assert multiset(r.arb.queue) == multiset(m.arb.queue) + multiset{m.flows[i]};
      if r.arb.inPipe {
        var h :| 0 <= h < |m.phase| && m.phase[h] == Transmitting;
        assert r.phase[h] == Transmitting;
      }
    case Wake(_) =>
      assert r.phase == m.phase;
  }

  /** `releasePipe` by the holder: nobody transmits afterwards. */
  lemma FinishPreservesInv(m: Sim, e: Event)
    requires Inv(m) && Enabled(m, e) && e.Finish?
    ensures Inv(Step(m, e))
  {
    var r := Step(m, e);
    var i := e.i;
    WaitingKept(m.flows, m.phase, i, Done);
    assert r.phase == m.phase[i := Done];
    forall j | 0 <= j < |r.phase| ensures r.phase[j] != Transmitting {
      if j != i { assert m.flows[j].id != m.flows[i].id; }
    }
  }

  /** The invariant holds in every reachable state of the run. */
  lemma StepPreservesInv(m: Sim, e: Event)
    requires Inv(m) && Enabled(m, e)
    ensures Inv(Step(m, e))
  {
    if e.Finish? {
      FinishPreservesInv(m, e);
    } else if Step(m, e).phase[e.i] == Transmitting {
      if e.Arrive? {
        ArriveStartPreservesInv(m, e.i);
      } else {
        WakeStartPreservesInv(m, e.i);
      }
    } else {
      QueuePreservesInv(m, e);
    }
  }

  /** Whoever starts transmitting is at least as urgent (priority value no
      greater) as every flow still waiting afterwards. */
  lemma StartIsMostUrgent(m: Sim, e: Event, j: int)
    requires Inv(m) && Enabled(m, e) && 0 <= j < |m.flows|
    ensures var r := Step(m, e);
            !e.Finish? && r.phase[e.i] == Transmitting && r.phase[j] == Waiting ==>
              m.flows[e.i].priority <= m.flows[j].priority
  {
    var r := Step(m, e);
    if !e.Finish? && r.phase[e.i] == Transmitting && r.phase[j] == Waiting {
      StepPreservesInv(m, e);
      WaitingMember(r.flows, r.phase, j);
      assert m.flows[j] in r.arb.queue;
      match e
      case Arrive(i) =>
        QueueRoom(m, i);
        NotWaitingNotQueued(m, i);
      case Wake(i) =>
        var h := QueuedIsWaiting(m, 0);
        assert m.flows[h].id == m.flows[i].id;
        HeadIsMostUrgent(m.arb.queue);
        RmvFromListKeepsOrder(m.arb.queue);
    }
  }

  /** When the pipe is free and someone waits, a re-check by the head is an
      enabled event and it succeeds. Whether the head is in fact woken to
      perform it is not modelled: the broadcast can be lost. */
  lemma HeadCanStart(m: Sim) returns (i: nat)
    requires Inv(m) && !m.arb.inPipe && |m.arb.queue| > 0
    ensures Enabled(m, Wake(i)) && Step(m, Wake(i)).phase[i] == Transmitting
    ensures m.flows[i] == m.arb.queue[0]
  {
    i := QueuedIsWaiting(m, 0);
  }

  // ---------------------------------------------------------------------
  // The queue is never full.

  /** Some flow has held the pipe: it transmits now or is done. */
  predicate Served(m: Sim) {
    exists i :: 0 <= i < |m.phase| && (m.phase[i] == Transmitting || m.phase[i] == Done)
  }

  /** Nobody queues before some flow has held the pipe: the first arrival
      finds the pipe free and the queue empty, and is granted at once. */
  predicate QueueBehindService(m: Sim) {
    |m.arb.queue| == 0 || Served(m)
  }

  lemma InitQueueBehindService(flows: seq<Flow>)
    ensures QueueBehindService(Init(flows))
    ensures !Served(Init(flows))
  {
  }

  /** Every event keeps the queue behind service. */
  lemma StepKeepsQueueBehindService(m: Sim, e: Event)
    requires Inv(m) && QueueBehindService(m) && Enabled(m, e)
    ensures QueueBehindService(Step(m, e))
    ensures Served(m) ==> Served(Step(m, e))
  {
    var r := Step(m, e);
    if Served(m) {
      var j :| 0 <= j < |m.phase| && (m.phase[j] == Transmitting || m.phase[j] == Done);
      if j == e.i {
        assert e.Finish? && r.phase[j] == Done;
      } else {
        assert r.phase[j] == m.phase[j];
      }
    } else {
      assert !m.arb.inPipe;
      match e
      case Arrive(i) =>
        assert r.phase[i] == Transmitting;
      case Wake(i) =>
        WaitingMember(m.flows, m.phase, i);
        assert false;
      case Finish(i) =>
        assert false;
    }
  }

  /** In a run of at most MAXFLOW flows the queue never holds MAXFLOW of
      them: while anyone queues, some flow that has held the pipe is not in
      the queue. */
  lemma QueueNeverFull(m: Sim)
    requires Inv(m) && QueueBehindService(m)
    ensures |m.arb.queue| < MAXFLOW
  {
    if |m.arb.queue| > 0 {
      var j :| 0 <= j < |m.phase| && (m.phase[j] == Transmitting || m.phase[j] == Done);
      WaitingFewer(m.flows, m.phase, j);
      assert |multiset(m.arb.queue)| == |multiset(WaitingFlows(m.flows, m.phase))|;
    }
  }
}
