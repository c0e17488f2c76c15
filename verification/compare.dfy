/** The wait-queue comparator `cmpfunc`: priority first (lower value sorts
    first), then transmission time, but only through the integer-truncated
    difference of the two times in seconds. */
module Compare {
  import opened Flows

  /** Tenths of a second to whole seconds, truncating toward zero as C's
      conversion of a floating-point value to `int` does (Dafny's `/` is
      Euclidean). */
  function TruncDiv10(a: int): (q: int)
    ensures a >= 0 ==> 0 <= q && q * 10 <= a < q * 10 + 10
    ensures a < 0 ==> q <= 0 && q * 10 - 10 < a <= q * 10
  {
    if a >= 0 then a / 10 else -((-a) / 10)
  }

  /** Transmission-time tie-break: the difference of the two times in whole
      seconds, truncated toward zero. */
  function TransKey(a: Flow, b: Flow): (t: int)
    ensures t == 0 <==> -10 < a.transTime - b.transTime < 10
    ensures t < 0 <==> a.transTime - b.transTime <= -10
    ensures t > 0 <==> a.transTime - b.transTime >= 10
  {
    TruncDiv10(a.transTime - b.transTime)
  }

  /** `cmpfunc` with the priority difference taken over the mathematical
      integers: a negative result puts `a` before `b`. */
  function Cmp(a: Flow, b: Flow): (r: int)
    ensures a.priority < b.priority ==> r < 0
    ensures a.priority > b.priority ==> r > 0
    ensures a.priority == b.priority ==> (r == 0 <==> -10 < a.transTime - b.transTime < 10)
    ensures a.priority == b.priority ==> (r < 0 <==> a.transTime - b.transTime <= -10)
    ensures a.priority == b.priority ==> (r > 0 <==> a.transTime - b.transTime >= 10)
  {
    var priority := a.priority - b.priority;
    var trans := TransKey(a, b);
    if priority != 0 then priority
    else if trans != 0 then trans
    else 0
  }

  /** A flow compares equal to itself. */
  lemma CmpSelf(a: Flow)
    ensures Cmp(a, a) == 0
  {
  }

  /** Swapping the arguments flips the sign, and the magnitude is kept. */
  lemma CmpSwap(a: Flow, b: Flow)
    ensures Cmp(b, a) == -Cmp(a, b)
  {
  }

  /** The comparator never leaves a pair unordered in both directions, so
      `Cmp(a, b) <= 0` is a total relation; a consequence of `CmpSwap`. */
  lemma CmpTotal(a: Flow, b: Flow)
    ensures Cmp(a, b) <= 0 || Cmp(b, a) <= 0
  {
    CmpSwap(a, b);
  }

  /** Whether `Cmp` treats "compares equal" as a transitive relation. */
  ghost predicate TieTransitive() {
    forall a: Flow, b: Flow, c: Flow :: Cmp(a, b) == 0 && Cmp(b, c) == 0 ==> Cmp(a, c) == 0
  }

  /** The truncated tie-break is not transitive: with equal priorities,
      0.0 s ~ 0.9 s and 0.9 s ~ 1.8 s, yet 0.0 s sorts before 1.8 s. */
  lemma TieNotTransitive()
    ensures !TieTransitive()
  {
    var a := Flow(1, 0, 0, 1);
    var b := Flow(2, 0, 9, 1);
    var c := Flow(3, 0, 18, 1);
    assert Cmp(a, b) == 0 && Cmp(b, c) == 0 && Cmp(a, c) < 0;
  }

  // ---------------------------------------------------------------------
  // The comparator as written: `int priority = a1->priority - a2->priority`
  // is a 32-bit subtraction.

  /** Two's-complement wrap-around of an integer into 32 bits. */
  function Wrap32(x: int): (w: int)
    ensures InInt32(w)
    ensures (w - x) % 0x1_0000_0000 == 0
    ensures InInt32(x) ==> w == x
  {
    (x - INT32_MIN) % 0x1_0000_0000 + INT32_MIN
  }

  /** `cmpfunc` exactly as written, with the priority difference computed in
      32-bit `int` arithmetic (wrapping on overflow). */
  function CmpAsWritten(a: Flow, b: Flow): (r: int)
    requires ParsedFlow(a) && ParsedFlow(b)
    ensures InInt32(r)
    ensures a.priority == b.priority ==> r == Cmp(a, b)
  {
    var priority := Wrap32(a.priority - b.priority);
    var trans := TransKey(a, b);
    if priority != 0 then priority
    else if trans != 0 then trans
    else 0
  }

  /** While the priority difference fits in 32 bits the comparator as
      written and `Cmp` agree. */
  lemma CmpAsWrittenAgrees(a: Flow, b: Flow)
    requires ParsedFlow(a) && ParsedFlow(b)
    requires InInt32(a.priority - b.priority)
    ensures CmpAsWritten(a, b) == Cmp(a, b)
  {
  }

  /** Priorities 2147483647 and -1: the difference overflows, the comparator
      as written reports the higher-valued (less urgent) priority as sorting
      first, while `Cmp` keeps the intended order. */
  lemma CmpAsWrittenOverflow()
    ensures var a := Flow(1, 0, 0, INT32_MAX);
            var b := Flow(2, 0, 0, -1);
            ParsedFlow(a) && ParsedFlow(b) && a.priority > b.priority &&
            CmpAsWritten(a, b) < 0 && Cmp(a, b) > 0
  {
  }
}
