/** The arbiter of the single transmission pipe: the globals `inPipe`,
    `runningFlow` and the wait queue, and the critical sections of
    `requestPipe` and `releasePipe`, each taken as one atomic transition. */
module Arbiter {
  import opened Flows
  import opened Compare
  import opened WaitQueue

  datatype ArbiterState = ArbiterState(inPipe: bool, runningFlow: int, queue: seq<Flow>)

  /** What a critical section of `requestPipe` leaves behind: the new state
      and whether the calling flow now holds the pipe (returns) or still
      waits on the condition variable. */
  datatype Turn = Turn(state: ArbiterState, holding: bool)

  /** The globals as `main` leaves them before any flow thread starts. */
  const Initial: ArbiterState := ArbiterState(false, 0, [])

  /** The exit condition of the wait loop: the pipe is free and the flow is
      at the head of the queue. */
  predicate MayStart(s: ArbiterState, f: Flow) {
    !s.inPipe && |s.queue| > 0 && s.queue[0].id == f.id
  }

  /** One evaluation of the wait loop's condition, with the grant to the
      head when the loop exits. It runs right after enqueueing and again
      after every wake-up. */
  function WaitCheck(s: ArbiterState, f: Flow): (t: Turn)
    ensures t.holding <==> MayStart(s, f)
    ensures t.holding ==> t.state.inPipe && t.state.runningFlow == f.id
    ensures t.holding ==> |s.queue| > 0 && t.state.queue == RmvFromList(s.queue)
    ensures !t.holding ==> t.state == s
  {
    if MayStart(s, f) then
      Turn(ArbiterState(true, s.queue[0].id, RmvFromList(s.queue)), true)
    else
      Turn(s, false)
  }

  /** The head of the queue just built for `f` carries `f`'s id only if it
      is `f` itself, as long as no other queued flow had that id. */
  lemma HeadWithOwnIdIsSelf(q: seq<Flow>, f: Flow)
    requires |q| < MAXFLOW && !HasId(q, f.id)
    requires AddToList(q, f)[0].id == f.id
    ensures AddToList(q, f)[0] == f
  {
    var r := AddToList(q, f);
    assert r[0] in multiset(q) + multiset{f};
  }

  /** Taking the entry just added back off the head leaves the old
      contents. */
  lemma DropHeadMultiset(q: seq<Flow>, old_q: seq<Flow>, f: Flow)
    requires |q| > 0 && q[0] == f && multiset(q) == multiset(old_q) + multiset{f}
    ensures multiset(RmvFromList(q)) == multiset(old_q)
  {
    var rest := RmvFromList(q);
    assert multiset(rest) + multiset{f} == multiset(old_q) + multiset{f};
    forall x ensures multiset(rest)[x] == multiset(old_q)[x] {
      assert (multiset(rest) + multiset{f})[x] == (multiset(old_q) + multiset{f})[x];
    }
  }

  /** The enqueue path of `requestPipe`: `addToList`, then the first check
      of the wait loop. */
  lemma EnqueueThenCheck(s: ArbiterState, f: Flow, q: seq<Flow>, t: Turn)
    requires |s.queue| < MAXFLOW && !HasId(s.queue, f.id)
    requires q == AddToList(s.queue, f) && t == WaitCheck(s.(queue := q), f)
    ensures s.inPipe ==> !t.holding
    ensures t.holding ==> multiset(t.state.queue) == multiset(s.queue)
    ensures t.holding ==> forall g :: g in t.state.queue ==> f.priority <= g.priority
    ensures !t.holding ==> multiset(t.state.queue) == multiset(s.queue) + multiset{f}
    ensures SortedByPriority(t.state.queue)
  {
    if t.holding {
      HeadWithOwnIdIsSelf(s.queue, f);
      var rest := RmvFromList(q);
      assert t.state.queue == rest;
      DropHeadMultiset(q, s.queue, f);
      HeadIsMostUrgent(q);
      RmvFromListKeepsOrder(q);
    }
  }

  /** The critical section of `requestPipe`: immediate grant when the pipe
      is free and nobody waits; otherwise `addToList` followed by the first
      check of the wait loop, under the same lock. */
  function RequestPipe(s: ArbiterState, f: Flow): (t: Turn)
    requires |s.queue| < MAXFLOW
    requires !HasId(s.queue, f.id)
    ensures !s.inPipe && |s.queue| == 0 ==> t.holding && t.state.queue == s.queue
    ensures s.inPipe ==> !t.holding
    ensures t.holding ==> t.state.inPipe && t.state.runningFlow == f.id
    ensures t.holding ==> multiset(t.state.queue) == multiset(s.queue)
    ensures t.holding ==> forall g :: g in t.state.queue ==> f.priority <= g.priority
    ensures !t.holding ==> t.state.inPipe == s.inPipe && t.state.runningFlow == s.runningFlow
    ensures !t.holding ==> multiset(t.state.queue) == multiset(s.queue) + multiset{f}
    ensures SortedByPriority(t.state.queue)
  {
    if !s.inPipe && |s.queue| == 0 then
      Turn(s.(inPipe := true, runningFlow := f.id), true)
    else
      var q := AddToList(s.queue, f);
      var t := WaitCheck(s.(queue := q), f);
      EnqueueThenCheck(s, f, q, t);
      t
  }

  /** `releasePipe`: the pipe is marked free; the queue and `runningFlow`
      are left as they are. */
  function ReleasePipe(s: ArbiterState): (r: ArbiterState)
    ensures !r.inPipe
    ensures r.runningFlow == s.runningFlow && r.queue == s.queue
  {
    s.(inPipe := false)
  }
}
