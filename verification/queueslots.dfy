/** The wait queue at the level of the C array: `queueList` has MAXFLOW
    pointer slots, of which the first `queueSize` are occupied and the rest
    are meant to be NULL (`None` here). This level is where `rmvFromList`
    clears the wrong slot. */
module QueueSlots {
  import opened Flows
  import opened WaitQueue

  /** Occupied slots exactly below `size`, NULL slots from `size` on. */
  predicate WellFormed(slots: seq<Option<Flow>>, size: int) {
    && |slots| == MAXFLOW
    && 0 <= size <= MAXFLOW
    && (forall k :: 0 <= k < size ==> slots[k].Some?)
    && (forall k :: size <= k < |slots| ==> slots[k].None?)
  }

  /** The queue the occupied slots hold, head first. */
  function Contents(slots: seq<Option<Flow>>, size: int): (q: seq<Flow>)
    requires WellFormed(slots, size)
    ensures |q| == size
    ensures forall k :: 0 <= k < size ==> slots[k] == Some(q[k])
  {
    seq(size, k requires 0 <= k < size => slots[k].value)
  }

  /** `rmvFromList` exactly as written: the shifting loop, then a NULL
      stored at index `queueSize` (the old size). `None` stands for a store
      outside the array. */
  function RmvSlotsAsWritten(slots: seq<Option<Flow>>, size: int): (r: Option<seq<Option<Flow>>>)
    requires |slots| == MAXFLOW && 1 <= size <= MAXFLOW
    ensures r.None? <==> size == MAXFLOW
    ensures r.Some? ==> |r.value| == MAXFLOW
    ensures r.Some? ==> forall k :: 0 <= k < size - 1 ==> r.value[k] == slots[k + 1]
    ensures r.Some? ==> r.value[size - 1] == slots[size - 1]
  {
    var shifted := seq(|slots|, k requires 0 <= k < |slots| => if k < size - 1 then slots[k + 1] else slots[k]);
    if size < |slots| then Some(shifted[size := None]) else None
  }

  /** Removing from any non-full queue as written leaves the vacated slot
      pointing at the old last flow: the slots past the new size are no
      longer all NULL. For a one-entry queue, slot 0 still holds the flow
      that just left. */
  lemma RmvAsWrittenLeavesStaleSlot(slots: seq<Option<Flow>>, size: int)
    requires WellFormed(slots, size) && 1 <= size < MAXFLOW
    ensures RmvSlotsAsWritten(slots, size).Some?
    ensures RmvSlotsAsWritten(slots, size).value[size - 1] == slots[size - 1]
    ensures RmvSlotsAsWritten(slots, size).value[size - 1].Some?
    ensures size == 1 ==> RmvSlotsAsWritten(slots, size).value[0] == slots[0]
    ensures !WellFormed(RmvSlotsAsWritten(slots, size).value, size - 1)
  {
  }

  /** A full queue makes the as-written NULL store fall one past the array.
      `addToList` accepts a queue of MAXFLOW - 1 entries, but a run of at
      most MAXFLOW flows never queues MAXFLOW of them
      (`Simulation.QueueNeverFull`): only an input with more than MAXFLOW
      flows, which already overruns `flowList` while it is read, gets there. */
  lemma RmvAsWrittenFullQueue(q: seq<Flow>, item: Flow)
    requires |q| == MAXFLOW - 1
    ensures var full := AddToList(q, item);
            var slots := seq(MAXFLOW, k requires 0 <= k < MAXFLOW => Some(full[k]));
            WellFormed(slots, MAXFLOW) && RmvSlotsAsWritten(slots, MAXFLOW).None?
  {
  }

  /** `rmvFromList` with the vacated slot `queueSize - 1` cleared: the array
      stays well formed and holds the old queue without its head. */
  method RmvFromSlots(slots: seq<Option<Flow>>, size: int) returns (r: seq<Option<Flow>>)
    requires WellFormed(slots, size) && size >= 1
    ensures WellFormed(r, size - 1)
    ensures Contents(r, size - 1) == RmvFromList(Contents(slots, size))
  {
    r := slots;
    var k := 0;
    while k < size - 1
      invariant 0 <= k <= size - 1
      invariant |r| == |slots|
      invariant forall j :: 0 <= j < k ==> r[j] == slots[j + 1]
      invariant forall j :: k <= j < |r| ==> r[j] == slots[j]
    {
      r := r[k := r[k + 1]];
      k := k + 1;
    }
    r := r[size - 1 := None];
    var before := Contents(slots, size);
    var after := Contents(r, size - 1);
    assert forall j :: 0 <= j < size - 1 ==> after[j] == before[j + 1];
  }
}
