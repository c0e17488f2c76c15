# Multi-flow scheduler: arbitration of the transmission pipe

MFS.c simulates flows that each arrive at a given time and then need the one
shared transmission pipe for a fixed time. This project models the sequential
core of that program in Dafny. The core decides which flow transmits, which
flows wait, and in what order they wait. Its parts are:

- the `flow` record and the `MAXFLOW` bound (`Flows`);
- the wait-queue comparator `cmpfunc` (`Compare`). It orders by priority,
  lower value first. Ties are broken by the transmission-time difference in
  seconds, truncated toward zero;
- the wait queue with `addToList` and `rmvFromList` (`WaitQueue`), and the
  same queue seen as the C array of `MAXFLOW` pointer slots (`QueueSlots`);
- the arbiter state `inPipe`, `runningFlow` and `queueList[0..queueSize)`,
  together with the critical sections of `requestPipe` and `releasePipe`
  (`Arbiter`). Each critical section is one atomic transition:
  - the immediate grant;
  - the enqueue followed by the first check of the wait loop;
  - a re-check of the wait loop after a wake-up;
  - the release;
- the flow threads around the arbiter (`Simulation`). Each flow moves
  Pending → Waiting/Transmitting → Done. One invariant ties the flows'
  phases to the arbiter state. From it the model proves:
  - mutual exclusion;
  - that the holder is never queued;
  - that no flow id is queued twice;
  - that the queue always has room for an arriving flow, and never fills
    all MAXFLOW slots;
  - that a flow that starts is at least as urgent as every flow still
    waiting;
  - that once the pipe is free, a re-check by the head of the queue is
    possible and succeeds. Whether the head is actually woken for it is not
    modelled (see "Left out");
- a worked three-flow run (`Scenario`). Flows 1 and 2 arrive together, and
  either may take the mutex first and get the pipe. In the run followed
  through, flow 2 takes the free pipe and flow 1 waits. Flow 3 arrives after flow 1, with the better priority.
  After flow 2 releases, flow 3 starts ahead of flow 1.

Times are integer tenths of a second, the unit the input file uses before
the program divides by 10.0. The comparator's tie-break is therefore
"truncate (ta − tb) / 10 toward zero". The tie-break is coarse because the
difference of the two `float` transmission times is stored in `int trans`
(MFS.c:46), which drops the fraction: two times less than one second apart
compare equal. The source states no intent either way. That makes
"compares equal" non-transitive (`Compare.TieNotTransitive`). The model keeps
this behaviour.

## Model

| member | source | states |
|---|---|---|
| Compare.TruncDiv10 | MFS.c:46 | converting a time difference from tenths to whole seconds truncates toward zero: the result has the sign of the difference and its magnitude is rounded down |
| Compare.TransKey | MFS.c:46 | the tie-break is 0 exactly when the transmission times are less than one second apart; otherwise its sign is the sign of ta − tb |
| Compare.Cmp | MFS.c:41-55 | a lower priority value sorts first whatever the times; with equal priorities the result is 0 exactly when the times differ by less than one second, and otherwise the shorter transmission sorts first |
| Compare.CmpSelf | MFS.c:41-55 | a flow compares equal to itself |
| Compare.CmpSwap | MFS.c:41-55 | swapping the arguments negates the result |
| Compare.CmpTotal | MFS.c:41-55 | for any two flows, one of them compares at or below the other (derived from `CmpSwap`) |
| Compare.TieNotTransitive | MFS.c:46-53 | there are three flows a, b, c with a ~ b and b ~ c but a < c, so the tie-break relation is not transitive |
| Compare.CmpAsWritten | MFS.c:45-53 | the comparator with 32-bit `int` arithmetic returns an `int`; on equal priorities it agrees with `Cmp` |
| Compare.CmpAsWrittenAgrees | MFS.c:45-49 | whenever the priority difference fits in 32 bits, the comparator as written equals `Cmp` |
| Compare.CmpAsWrittenOverflow | MFS.c:45-49 | with priorities 2147483647 and -1 the subtraction wraps and the less urgent flow sorts first |
| WaitQueue.Insert | MFS.c:62 | inserting into a priority-ordered queue adds exactly that flow and keeps the queue ordered by priority |
| WaitQueue.Sort | MFS.c:62 | the re-sort keeps the same flows with the same multiplicities and orders them by non-decreasing priority value |
| WaitQueue.AddToList | MFS.c:58-63 | needs a queue shorter than MAXFLOW; the queue grows by one and holds the old flows plus the new one, ordered by priority |
| WaitQueue.InsertAsWritten | MFS.c:45-62 | inserting with the wrapping comparator adds exactly that flow |
| WaitQueue.SortAsWritten | MFS.c:45-62 | re-sorting with the wrapping comparator keeps the same flows with the same multiplicities |
| WaitQueue.AddToListAsWritten | MFS.c:58-63 | `addToList` with the wrapping comparator grows the queue by exactly the new flow |
| WaitQueue.InsertAsWrittenAgrees | MFS.c:45-62 | when all priorities lie in [-2^30, 2^30), inserting with the wrapping comparator gives the priority-ordered insertion |
| WaitQueue.SortAsWrittenAgrees | MFS.c:45-62 | when all priorities lie in [-2^30, 2^30), the re-sort with the wrapping comparator equals the priority-ordered re-sort |
| WaitQueue.AddToListAsWrittenAgrees | MFS.c:45-63 | when all priorities lie in [-2^30, 2^30), `addToList` with the wrapping comparator yields exactly the queue of `AddToList` |
| WaitQueue.AddToListAsWrittenMisorders | MFS.c:45-63 | with priorities 2147483647 and -1 the comparator as written reports each flow as sorting before the other; a sort that compares the queued flow with the new one, as the model's stand-in does, keeps the priority-2147483647 flow ahead, where the priority order puts the new flow first (with the argument order reversed the result would be the other one) |
| WaitQueue.RmvFromList | MFS.c:66-74 | needs a non-empty queue; the queue shrinks by one, loses exactly its head, and every remaining flow moves one place forward |
| WaitQueue.RmvFromListKeepsOrder | MFS.c:66-74 | removing the head keeps the queue ordered, keeps ids distinct, and adds no flow |
| WaitQueue.HeadIsMostUrgent | MFS.c:95-103 | the head of an ordered queue, the flow the wait loop lets through, has a priority value no greater than any queued flow |
| WaitQueue.PermutationKeepsDistinctIds | MFS.c:62 | reordering a queue whose ids are distinct cannot create a repeated id |
| WaitQueue.AddToListKeepsDistinctIds | MFS.c:58-63 | enqueueing a flow whose id is not yet queued keeps ids distinct, and the flow can then be found by its id |
| QueueSlots.RmvSlotsAsWritten | MFS.c:66-74 | the shift loop as written, then the NULL store at index `queueSize`: the store is out of bounds exactly when the queue is full, and the vacated slot keeps its old pointer |
| QueueSlots.RmvAsWrittenLeavesStaleSlot | MFS.c:71-73 | after any removal from a non-full queue, the slot just past the new size still holds its old, non-NULL pointer, so the array is no longer well formed; for a one-entry queue, slot 0 still holds the removed flow |
| QueueSlots.RmvAsWrittenFullQueue | MFS.c:58-74 | a queue that `addToList` fills to MAXFLOW entries makes the as-written NULL store fall outside the array |
| QueueSlots.RmvFromSlots | MFS.c:66-74 | removal with the vacated slot cleared keeps the array well formed, and the occupied slots hold the old queue without its head |
| Arbiter.WaitCheck | MFS.c:95-106 | the flow proceeds exactly when the pipe is free and it heads the queue; it then holds the pipe and the queue is the old tail; otherwise nothing changes |
| Arbiter.HeadWithOwnIdIsSelf | MFS.c:93-103 | after enqueueing a flow whose id was not queued, a head carrying that id is the flow itself |
| Arbiter.EnqueueThenCheck | MFS.c:93-106 | on the enqueue path the flow never passes an occupied pipe; if it passes, the other queued flows stay queued and none of them is more urgent; if it waits, it has joined the queue |
| Arbiter.RequestPipe | MFS.c:77-109 | a free pipe with an empty queue is granted at once and the queue is untouched; an occupied pipe is never granted; a flow that gets through holds the pipe with its own id and is at least as urgent as every flow left waiting; a flow that waits joins the queue while `inPipe` and `runningFlow` stay unchanged; the queue stays ordered |
| Arbiter.ReleasePipe | MFS.c:114-124 | the pipe becomes free while the queue and `runningFlow` stay unchanged |
| Simulation.Step | MFS.c:127-143 | one event changes only the acting flow's phase: arrival and wake-up lead to Waiting or Transmitting, finishing leads to Done and frees the pipe; a flow starts only on a free pipe and then is `runningFlow`, and a flow that waits leaves the pipe state alone |
| Simulation.InitInv | MFS.c:146-149 | the state before any thread runs satisfies the invariant, given distinct ids and at most MAXFLOW flows |
| Simulation.StepPreservesInv | MFS.c:77-124 | every event keeps the invariant: the queue holds exactly the waiting flows and stays ordered, every transmitting flow is `runningFlow` with `inPipe` set, and `inPipe` implies a transmitting flow |
| Simulation.MutualExclusion | MFS.c:82-106 | two transmitting flows are the same flow |
| Simulation.HolderNotQueued | MFS.c:95-106 | while the pipe is held, no queued flow carries the holder's id |
| Simulation.QueueIdsDistinct | MFS.c:93-106 | each flow appears in the queue at most once |
| Simulation.InitQueueBehindService | MFS.c:146-149 | before any thread runs, no flow has held the pipe and the queue is empty |
| Simulation.StepKeepsQueueBehindService | MFS.c:77-124 | every event keeps the rule that the queue is empty until some flow has held the pipe, and once a flow has held the pipe some flow stays transmitting or done |
| Simulation.QueueNeverFull | MFS.c:58-74 | in a run of at most MAXFLOW flows the queue never holds MAXFLOW flows, so a full queue, and with it the out-of-bounds store of `rmvFromList`, needs an input of more than MAXFLOW flows |
| Simulation.QueueRoom | MFS.c:58-60 | with at most MAXFLOW flows, the queue has room whenever a flow arrives, so `addToList` stays inside the array |
| Simulation.StartIsMostUrgent | MFS.c:95-103 | a flow that starts has a priority value no greater than any flow still waiting after it starts |
| Simulation.HeadCanStart | MFS.c:95-98 | when the pipe is free and the queue is non-empty, the head is a waiting flow, its re-check is an enabled event, and that re-check lets it start (it does not state that the head is woken) |
| Scenario.QueueOrderAfterArrivals | MFS.c:58-63 | flow 3 (priority 1), which arrives after flow 1 (priority 2), is queued ahead of it |
| Scenario.SimultaneousArrivalsEitherOrder | MFS.c:77-92 | of the two flows arriving at 0.0 s, whichever requests first is granted the free pipe and the other joins the queue |
| Scenario.LaterArrivalJumpsAhead | MFS.c:77-124 | in the three-flow run where flow 2 locks first, flow 2 starts at once and flows 1 and 3 wait; after the release, flow 1's re-check fails and flow 3's succeeds |

## Left out

- Threads, the mutex and the condition variable (MFS.c:25-26, 79, 97, 108, 120, 186, 191). Each critical section is one atomic transition.
- Lock discipline of `releasePipe`. It writes `inPipe` without holding `trans_mtx` (MFS.c:114-124). A waiter that has found `inPipe` true but has not yet entered `pthread_cond_wait` can miss the broadcast. Because every critical section is atomic here, this lost wake-up is not represented.
- When a waiter wakes. A `Wake` event lets a waiting flow re-check at any time, which includes spurious wake-ups. This allows more interleavings than broadcast-driven wake-ups, so the safety properties cover the real ones too.
- Sleeping, clocks and timestamps (`usleep`, `gettimeofday`, `get_time`, MFS.c:34-38, 131, 138). They affect only when events happen, not what the arbiter decides.
- Log output (`printf`). It is formatting only.
- Input parsing in `main` (MFS.c:155-178). Flows are taken as already-parsed integer records. `numFlows` is never checked against MAXFLOW (MFS.c:164). The simulation's invariant therefore assumes at most MAXFLOW flows with distinct ids.
- The `float` fields and float rounding (MFS.c:15-16, 169, 171). Times are exact integer tenths. Cases where a float difference truncates differently from the exact tenths are not modelled.
- WaitQueue.Insert: ordered by the corrected comparator `Cmp`, which compares priorities exactly. The program's `cmpfunc` subtracts priorities in 32 bits and gives the same order only while every priority difference fits in 32 bits. `WaitQueue.InsertAsWrittenAgrees` proves equality when all priorities lie in [-2^30, 2^30).
- WaitQueue.Sort: the priority order is that of the corrected comparator. For the program it holds only while every priority difference fits in 32 bits (`WaitQueue.SortAsWrittenAgrees`).
- WaitQueue.AddToList: the priority order is that of the corrected comparator. For the program it holds only while every priority difference fits in 32 bits. `WaitQueue.AddToListAsWrittenAgrees` proves this for priorities in [-2^30, 2^30), and `WaitQueue.AddToListAsWrittenMisorders` shows an input outside that range.
- Arbiter.RequestPipe: "at least as urgent as every flow left waiting" rests on the corrected queue order. For the program it holds only while every priority difference fits in 32 bits.
- Simulation.StartIsMostUrgent: rests on the corrected queue order. For the program it holds only while every priority difference fits in 32 bits.
- WaitQueue.AddToList: states only "same flows plus the new one, ordered by priority". The order among equal-priority flows is not stated. `qsort` with a non-transitive comparator gives no defined order there, and the model's insertion sort is one admissible outcome.
- Arbiter.ReleasePipe: the source does not check that the caller holds the pipe. The arbiter-level function accepts any state, and the simulation lets only the transmitting flow finish.
- Arbiter.RequestPipe: requires that the requester's id is not already queued. Ids are unique within a run, and each thread requests once.

## Findings

| source | as written | input that shows it | evidently intended | confidence | as-written member | corrected member |
|---|---|---|---|---|---|---|
| MFS.c:45 | `int priority = a1->priority - a2->priority` is a 32-bit subtraction whose result's sign is the comparison | priorities 2147483647 and -1: the difference wraps to a negative value, so the less urgent flow sorts first | the sign of the priority comparison itself | low: needs extreme priorities; signed overflow is undefined in C and wraps on common targets; not executed | Compare.CmpAsWritten, Compare.CmpAsWrittenOverflow, WaitQueue.AddToListAsWrittenMisorders | Compare.Cmp, WaitQueue.AddToList |
| MFS.c:71 | `queueList[queueSize]=NULL` runs before `queueSize--`, so it clears the slot past the vacated one | removing the only entry of a one-entry queue leaves slot 0 pointing at the removed flow; with MAXFLOW queued flows the store writes one past the array | clear slot `queueSize - 1`, the one the shift vacated | medium: the stale pointer is never read by the rest of the program; a full queue needs more than MAXFLOW flows in the input (`Simulation.QueueNeverFull`), which `main` does not reject (MFS.c:164); not executed | QueueSlots.RmvSlotsAsWritten, QueueSlots.RmvAsWrittenLeavesStaleSlot | QueueSlots.RmvFromSlots |
