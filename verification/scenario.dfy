/** A worked run of the arbiter on three flows. */
module Scenario {
  import opened Flows
  import opened WaitQueue
  import opened Arbiter

  /** Flow 1 arrives at 0.0 s, sends for 0.5 s, priority 2; flow 2 arrives
      at 0.0 s, sends for 0.3 s, priority 1; flow 3 arrives at 0.2 s, sends
      for 0.2 s, priority 1. */
  const F1: Flow := Flow(1, 0, 5, 2)
  const F2: Flow := Flow(2, 0, 3, 1)
  const F3: Flow := Flow(3, 2, 2, 1)

  /** Flow 3 arrives after flow 1 but is queued ahead of it. */
  lemma QueueOrderAfterArrivals()
    ensures AddToList([F1], F3) == [F3, F1]
  {
  }

  /** Flows 1 and 2 both arrive at 0.0 s, and whichever takes the mutex
      first gets the free pipe while the other waits. */
  lemma SimultaneousArrivalsEitherOrder()
    ensures RequestPipe(Initial, F1) == Turn(ArbiterState(true, 1, []), true)
    ensures RequestPipe(RequestPipe(Initial, F1).state, F2) == Turn(ArbiterState(true, 1, [F2]), false)
    ensures RequestPipe(Initial, F2) == Turn(ArbiterState(true, 2, []), true)
    ensures RequestPipe(RequestPipe(Initial, F2).state, F1) == Turn(ArbiterState(true, 2, [F1]), false)
  {
  }

  /** The interleaving in which flow 2 locks first: it takes the free pipe,
      flow 1 waits, flow 3 queues ahead of flow 1; once flow 2 releases,
      flow 1's re-check fails and flow 3's succeeds. */
  lemma LaterArrivalJumpsAhead()
    ensures var t1 := RequestPipe(Initial, F2);
            t1 == Turn(ArbiterState(true, 2, []), true) &&
            var t2 := RequestPipe(t1.state, F1);
            t2 == Turn(ArbiterState(true, 2, [F1]), false) &&
            var t3 := RequestPipe(t2.state, F3);
            t3 == Turn(ArbiterState(true, 2, [F3, F1]), false) &&
            var s4 := ReleasePipe(t3.state);
            !WaitCheck(s4, F1).holding &&
            WaitCheck(s4, F3) == Turn(ArbiterState(true, 3, [F1]), true)
  {
  }
}
