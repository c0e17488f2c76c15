/** The wait queue `queueList[0..queueSize)`: `addToList` appends a flow and
    re-sorts with `cmpfunc`; `rmvFromList` drops the head and shifts the rest
    left. */
module WaitQueue {
  import opened Flows
  import opened Compare

  /** Non-decreasing priority value from head to tail. */
  predicate SortedByPriority(q: seq<Flow>) {
    forall i, j :: 0 <= i < j < |q| ==> q[i].priority <= q[j].priority
  }

  /** No two queued entries carry the same flow id. */
  predicate DistinctIds(q: seq<Flow>) {
    forall i, j :: 0 <= i < j < |q| ==> q[i].id != q[j].id
  }

  predicate HasId(q: seq<Flow>, id: int) {
    exists k :: 0 <= k < |q| && q[k].id == id
  }

  /** Places `x` in front of the first entry it compares strictly below. */
  function Insert(x: Flow, q: seq<Flow>): (r: seq<Flow>)
    requires SortedByPriority(q)
    ensures |r| == |q| + 1
    ensures multiset(r) == multiset(q) + multiset{x}
    ensures SortedByPriority(r)
  {
    if |q| == 0 then [x]
    else if Cmp(x, q[0]) < 0 then
      HeadIsMostUrgent(q);
      [x] + q
    else
      var rest := Insert(x, q[1..]);
      ConsSorted(q, x, rest);
      [q[0]] + rest
  }

  /** The step of `Insert` that keeps the old head in front. */
  lemma ConsSorted(q: seq<Flow>, x: Flow, rest: seq<Flow>)
    requires |q| > 0 && SortedByPriority(q) && q[0].priority <= x.priority
    requires multiset(rest) == multiset(q[1..]) + multiset{x} && SortedByPriority(rest)
    ensures multiset([q[0]] + rest) == multiset(q) + multiset{x}
    ensures SortedByPriority([q[0]] + rest)
  {
    assert q == [q[0]] + q[1..];
    var r := [q[0]] + rest;
    forall k | 0 <= k < |rest| ensures q[0].priority <= rest[k].priority {
      assert rest[k] in multiset(q[1..]) + multiset{x};
      if rest[k] != x {
        assert rest[k] in q[1..];
        var m :| 0 <= m < |q[1..]| && q[1..][m] == rest[k];
        assert q[m + 1] == rest[k];
      }
    }
    forall i, j | 0 <= i < j < |r| ensures r[i].priority <= r[j].priority {
      if i > 0 { assert r[i] == rest[i - 1] && r[j] == rest[j - 1]; }
      else { assert r[j] == rest[j - 1]; }
    }
  }

  /** An insertion sort driven by `cmpfunc`, standing in for `qsort`. */
  function Sort(q: seq<Flow>): (r: seq<Flow>)
    ensures |r| == |q|
    ensures multiset(r) == multiset(q)
    ensures SortedByPriority(r)
  {
    if |q| == 0 then []
    else
      assert q == [q[0]] + q[1..];
      Insert(q[0], Sort(q[1..]))
  }

  /** `addToList`: the queue grows by the one new entry, keeps every old
      one, and is ordered by priority. */
  function AddToList(q: seq<Flow>, item: Flow): (r: seq<Flow>)
    requires |q| < MAXFLOW
    ensures |r| == |q| + 1 <= MAXFLOW
    ensures multiset(r) == multiset(q) + multiset{item}
    ensures SortedByPriority(r)
  {
    Sort(q + [item])
  }

  /** Every entry fits the 32-bit fields `main` reads into. */
  predicate AllParsed(q: seq<Flow>) {
    forall g :: g in q ==> ParsedFlow(g)
  }

  /** Every priority lies in [-2^30, 2^30), so any difference of two of them
      fits in 32 bits. */
  predicate SmallPriorities(q: seq<Flow>) {
    forall g :: g in q ==> -0x4000_0000 <= g.priority < 0x4000_0000
  }

  /** `Insert` driven by the comparator as written, with its wrapping
      priority subtraction. */
  function InsertAsWritten(x: Flow, q: seq<Flow>): (r: seq<Flow>)
    requires ParsedFlow(x) && AllParsed(q)
    ensures |r| == |q| + 1
    ensures multiset(r) == multiset(q) + multiset{x}
  {
    if |q| == 0 then [x]
    else if CmpAsWritten(x, q[0]) < 0 then [x] + q
    else
      assert q == [q[0]] + q[1..];
      [q[0]] + InsertAsWritten(x, q[1..])
  }

  /** `Sort` driven by the comparator as written. */
  function SortAsWritten(q: seq<Flow>): (r: seq<Flow>)
    requires AllParsed(q)
    ensures |r| == |q|
    ensures multiset(r) == multiset(q)
  {
    if |q| == 0 then []
    else
      assert q == [q[0]] + q[1..];
      var rest := SortAsWritten(q[1..]);
      assert AllParsed(rest) by {
        forall g | g in rest ensures ParsedFlow(g) {
          assert g in multiset(rest);
        }
      }
      InsertAsWritten(q[0], rest)
  }

  /** `addToList` as compiled: the new entry is appended and the queue is
      re-sorted with the wrapping comparator. */
  function AddToListAsWritten(q: seq<Flow>, item: Flow): (r: seq<Flow>)
    requires |q| < MAXFLOW && AllParsed(q) && ParsedFlow(item)
    ensures |r| == |q| + 1
    ensures multiset(r) == multiset(q) + multiset{item}
  {
    SortAsWritten(q + [item])
  }

  /** With small priorities the wrapping comparator never misfires, so
      inserting with it gives exactly the priority-ordered `Insert`. */
  lemma {:induction false} InsertAsWrittenAgrees(x: Flow, q: seq<Flow>)
    requires ParsedFlow(x) && AllParsed(q) && SortedByPriority(q)
    requires SmallPriorities([x] + q)
    ensures InsertAsWritten(x, q) == Insert(x, q)
  {
    if |q| > 0 {
      assert x in [x] + q && q[0] in [x] + q;
      CmpAsWrittenAgrees(x, q[0]);
      assert SmallPriorities([x] + q[1..]) by {
        forall g | g in [x] + q[1..] ensures g in [x] + q { }
      }
      InsertAsWrittenAgrees(x, q[1..]);
    }
  }

  /** With small priorities the re-sort as compiled equals `Sort`. */
  lemma {:induction false} SortAsWrittenAgrees(q: seq<Flow>)
    requires AllParsed(q) && SmallPriorities(q)
    ensures SortAsWritten(q) == Sort(q)
  {
    if |q| > 0 {
      assert q == [q[0]] + q[1..];
      SortAsWrittenAgrees(q[1..]);
      var rest := Sort(q[1..]);
      assert AllParsed(rest) && SmallPriorities([q[0]] + rest) by {
        forall g | g in [q[0]] + rest ensures g in q {
          if g != q[0] { assert g in multiset(rest); }
        }
      }
      InsertAsWrittenAgrees(q[0], rest);
    }
  }

  /** While every priority lies in [-2^30, 2^30), `addToList` as compiled
      produces exactly the priority-ordered queue of `AddToList`. */
  lemma AddToListAsWrittenAgrees(q: seq<Flow>, item: Flow)
    requires |q| < MAXFLOW && AllParsed(q) && ParsedFlow(item)
    requires SmallPriorities(q + [item])
    ensures AddToListAsWritten(q, item) == AddToList(q, item)
  {
    SortAsWrittenAgrees(q + [item]);
  }

  /** A flow of priority 2147483647 queued alone, then a flow of priority -1.
      The wrapped subtraction makes the comparator inconsistent here: it
      reports each flow as sorting before the other. Which one `qsort` puts
      first therefore depends on the order in which it passes the two
      arguments. The stand-in sort, which compares the queued flow with the
      new one, keeps the less urgent flow at the head, where the priority
      order puts the new flow first. */
  lemma AddToListAsWrittenMisorders()
    ensures var a := Flow(1, 0, 0, INT32_MAX);
            var b := Flow(2, 0, 0, -1);
            AllParsed([a]) && ParsedFlow(b) &&
            CmpAsWritten(a, b) < 0 && CmpAsWritten(b, a) < 0 &&
            AddToListAsWritten([a], b) == [a, b] &&
            AddToList([a], b) == [b, a]
  {
  }

  /** `rmvFromList`: the queue shrinks by one, the head leaves and the
      remaining entries keep their order. */
  function RmvFromList(q: seq<Flow>): (r: seq<Flow>)
    requires |q| > 0
    ensures |r| == |q| - 1
    ensures forall k :: 0 <= k < |r| ==> r[k] == q[k + 1]
    ensures multiset(r) + multiset{q[0]} == multiset(q)
  {
    assert q == [q[0]] + q[1..];
    q[1..]
  }

  /** Removing the head keeps the queue ordered and free of repeated ids. */
  lemma RmvFromListKeepsOrder(q: seq<Flow>)
    requires |q| > 0
    ensures SortedByPriority(q) ==> SortedByPriority(RmvFromList(q))
    ensures DistinctIds(q) ==> DistinctIds(RmvFromList(q))
    ensures forall g :: g in RmvFromList(q) ==> g in q
  {
  }

  /** The head of a priority-ordered queue is at least as urgent as every
      entry behind it. */
  lemma HeadIsMostUrgent(q: seq<Flow>)
    requires |q| > 0 && SortedByPriority(q)
    ensures forall g :: g in q ==> q[0].priority <= g.priority
  {
  }

  /** Two positions holding the same entry give it multiplicity two. */
  lemma {:induction false} RepeatCounts(q: seq<Flow>, i: int, j: int)
    requires 0 <= i < j < |q| && q[i] == q[j]
    ensures multiset(q)[q[i]] >= 2
  {
    assert q == q[..j] + [q[j]] + q[j + 1..];
    assert q[..j] == q[..i] + [q[i]] + q[i + 1..j];
    assert multiset(q) == multiset(q[..i]) + multiset{q[i]} + multiset(q[i + 1..j]) + multiset{q[j]} + multiset(q[j + 1..]);
  }

  /** In a queue with distinct ids every entry occurs at most once. */
  lemma {:induction false} DistinctIdsCountOne(q: seq<Flow>, x: Flow)
    requires DistinctIds(q)
    ensures multiset(q)[x] <= 1
  {
    if |q| > 0 {
      var tail := q[1..];
      assert q == [q[0]] + tail;
      assert DistinctIds(tail) by {
        forall i, j | 0 <= i < j < |tail| ensures tail[i].id != tail[j].id {
          assert tail[i] == q[i + 1] && tail[j] == q[j + 1];
        }
      }
      DistinctIdsCountOne(tail, x);
      if q[0] == x {
        assert forall k :: 0 <= k < |tail| ==> tail[k].id != x.id;
      }
    }
  }

  /** A rearrangement of a queue with distinct ids has distinct ids. */
  lemma {:induction false} PermutationKeepsDistinctIds(a: seq<Flow>, b: seq<Flow>)
    requires multiset(a) == multiset(b) && DistinctIds(b)
    ensures DistinctIds(a)
  {
    forall i, j | 0 <= i < j < |a| ensures a[i].id != a[j].id {
      if a[i] == a[j] {
        RepeatCounts(a, i, j);
        DistinctIdsCountOne(b, a[i]);
      } else {
        assert a[i] in multiset(b) && a[j] in multiset(b);
        var p :| 0 <= p < |b| && b[p] == a[i];
        var s :| 0 <= s < |b| && b[s] == a[j];
        assert p != s;
      }
    }
  }

  /** Enqueueing a flow whose id is not yet queued keeps ids distinct, and
      the new flow can be found in the queue by its id. */
  lemma AddToListKeepsDistinctIds(q: seq<Flow>, item: Flow)
    requires |q| < MAXFLOW && DistinctIds(q) && !HasId(q, item.id)
    ensures DistinctIds(AddToList(q, item))
    ensures HasId(AddToList(q, item), item.id)
  {
    var r := AddToList(q, item);
    var appended := q + [item];
    assert DistinctIds(appended) by {
      forall i, j | 0 <= i < j < |appended| ensures appended[i].id != appended[j].id {
        if j == |q| { assert appended[i] == q[i]; }
      }
    }
    assert multiset(r) == multiset(appended);
    PermutationKeepsDistinctIds(r, appended);
    assert item in multiset(r);
    var k :| 0 <= k < |r| && r[k] == item;
  }
}
