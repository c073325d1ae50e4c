/** What the operators of the language give, said without the functions that source and machine share: the laws of
    32-bit arithmetic, of comparisons and of the heap. */
module Laws {
  import opened Options
  import opened Symbols
  import opened Ast
  import opened Types
  import opened Machine
  import opened Semantics
  import opened Lowering
  import opened Simulation
  import opened Items

  // ----- arithmetic -----

  predicate IsCongruent(x: int, y: int) {
    (x - y) % 0x1_0000_0000 == 0
  }

  function Magnitude(x: int): nat {
    if x < 0 then -x else x
  }

  /** q and r are quotient and remainder of x by y, rounded toward zero. */
  predicate IsDivision(x: int, y: int, q: int, r: int) {
    x == q * y + r && Magnitude(r) < Magnitude(y) && (r > 0 ==> x > 0) && (r < 0 ==> x < 0)
  }

  /** x by y has no 32-bit quotient. */
  predicate HasNoQuotient(x: int, y: int) {
    y == 0 || (x == -0x8000_0000 && y == -1)
  }

  lemma WrapIsCongruent(i: int)
    ensures IsCongruent(Wrap(i), i) && -0x8000_0000 <= Wrap(i) <= 0x7fff_ffff
  {
  }

  lemma TimesAtLeast(a: nat, k: nat, d: nat)
    requires a >= k
    ensures a * d >= k * d
  {
    assert a * d == k * d + (a - k) * d;
  }

  lemma Signs(x: int, y: int)
    ensures x * -y == -(x * y) && -x * -y == x * y && x * y == y * x
  {
  }

  /** Dividing a magnitude: what is left is smaller than the divisor, and the quotient is no larger. */
  lemma MagnitudeDivides(m: nat, y: int)
    requires y != 0
    ensures var d := m / y;
            && m == d * y + m % y && 0 <= m % y < Magnitude(y) && m % y <= m
            && Magnitude(d) * Magnitude(y) <= m
  {
    var d := m / y;
    Signs(y, d);
    assert m == y * d + m % y;
    MagnitudeOfProduct(d, y);
    if d != 0 {
      TimesAtLeast(Magnitude(d), 1, Magnitude(y));
    }
  }

  lemma MagnitudeOfProduct(x: int, y: int)
    ensures Magnitude(x * y) == Magnitude(x) * Magnitude(y)
  {
    Signs(x, y);
    Signs(-x, -y);
    Signs(x, -y);
    if x == 0 || y == 0 {
    } else if (x > 0) == (y > 0) {
      assert x * y == Magnitude(x) * Magnitude(y);
    } else {
      assert -(x * y) == Magnitude(x) * Magnitude(y) by { Signs(y, x); }
    }
  }

  lemma SmallProduct(d: nat, y: nat)
    requires d * y < y
    ensures d == 0
  {
    if d > 0 {
      TimesAtLeast(d, 1, y);
    }
  }

  /** Division rounding toward zero: the remainder is smaller and on the side of the dividend, the quotient in range. */
  lemma QuotientDivides(x: int, y: int)
    requires y != 0 && InRange(x) && InRange(y)
    ensures IsDivision(x, y, Quotient(x, y), x - y * Quotient(x, y))
    ensures !HasNoQuotient(x, y) ==> InRange(Quotient(x, y)) && InRange(x - y * Quotient(x, y))
  {
    var m := Magnitude(x);
    var d, q := m / y, Quotient(x, y);
    MagnitudeDivides(m, y);
    Signs(y, d);
    Signs(y, q);
    assert q == if x >= 0 then d else -d;
    assert x - y * q == if x >= 0 then m % y else -(m % y);
    var a, e := Magnitude(y), Magnitude(d);
    TimesAtLeast(a, 1, e);
    Signs(a, e);
    if a > 1 {
      TimesAtLeast(a, 2, e);
    } else {
      assert y == 1 || y == -1;
      assert d * y == m;
    }
  }

  /** Quotient and remainder of two numbers: both fail where there is no 32-bit quotient, and otherwise they are those
      of the division that rounds toward zero. The product is the 32-bit number congruent to the exact one. */
  lemma ProductsAreRight(l: Term, f: Factor, s: Memory, s1: Memory, s2: Memory, x: int, y: int)
    requires EvalFactor(f, s) == Some((IntV(y), s1)) && EvalTerm(l, s1) == Some((IntV(x), s2))
    requires InRange(x) && InRange(y)
    ensures EvalTerm(Slash(l, f), s).None? <==> HasNoQuotient(x, y)
    ensures EvalTerm(Percent(l, f), s).None? <==> HasNoQuotient(x, y)
    ensures !HasNoQuotient(x, y) ==>
              exists q, r :: IsDivision(x, y, q, r) && EvalTerm(Slash(l, f), s) == Some((IntV(q), s2)) &&
                             EvalTerm(Percent(l, f), s) == Some((IntV(r), s2))
    ensures exists z :: InRange(z) && IsCongruent(z, x * y) && EvalTerm(Times(l, f), s) == Some((IntV(z), s2))
  {
    hide EvalFactor, IsDivision, IsCongruent, HasNoQuotient;
    ProductsAreGiven(l, f, s, s1, s2, x, y);
    ArithIsDivision(x, y);
    var z := Arith(Mul, x, y);
    assert EvalTerm(Times(l, f), s) == Some((IntV(z.value), s2));
  }

  /** Products are what the arithmetic of two numbers gives. */
  lemma ProductsAreGiven(l: Term, f: Factor, s: Memory, s1: Memory, s2: Memory, x: int, y: int)
    requires EvalFactor(f, s) == Some((IntV(y), s1)) && EvalTerm(l, s1) == Some((IntV(x), s2))
    ensures forall t :: t == Times(l, f) || t == Slash(l, f) || t == Percent(l, f) ==>
                          var r := Arith(if t.Times? then Mul else if t.Slash? then SDiv else SRem, x, y);
                          EvalTerm(t, s) == if r.Some? then Some((IntV(r.value), s2)) else None
  {
    hide EvalFactor, Arith;
  }

  lemma ArithIsDivision(x: int, y: int)
    requires InRange(x) && InRange(y)
    ensures Arith(SDiv, x, y).None? <==> HasNoQuotient(x, y)
    ensures Arith(SRem, x, y).None? <==> HasNoQuotient(x, y)
    ensures !HasNoQuotient(x, y) ==> IsDivision(x, y, Arith(SDiv, x, y).value, Arith(SRem, x, y).value)
    ensures Arith(Mul, x, y).Some? && InRange(Arith(Mul, x, y).value)
    ensures IsCongruent(Arith(Mul, x, y).value, x * y)
  {
    hide Quotient, IsDivision, IsCongruent, Wrap;
    WrapIsCongruent(x * y);
    if !HasNoQuotient(x, y) {
      QuotientDivides(x, y);
      var q, r := Quotient(x, y), x - y * Quotient(x, y);
      assert Arith(SDiv, x, y) == Some(q) && Arith(SRem, x, y) == Some(r);
    }
  }

  /** A division has one result. */
  lemma DivisionIsUnique(x: int, y: int, q: int, r: int, q': int, r': int)
    requires y != 0 && IsDivision(x, y, q, r) && IsDivision(x, y, q', r')
    ensures q == q' && r == r'
  {
    assert (q - q') * y == q * y - q' * y == r' - r;
    MagnitudeOfProduct(q - q', y);
    SmallProduct(Magnitude(q - q'), Magnitude(y));
  }

  /** The generated code of a product, quotient or remainder in the fragment gives the same. */
  lemma ProductsRunRight(c: Scope, t: Term, b: nat, at: nat, s: Memory, s1: Memory, s2: Memory, x: int, y: int,
                         st: State)
    requires SoundScope(c) && Related(c, s, st) && b != 0 && !t.JustFactor?
    requires TermHasType(c.env, t, Int) && PlainTerm(c.env, t)
    requires EvalFactor(t.factor, s) == Some((IntV(y), s1)) && EvalTerm(t.left, s1) == Some((IntV(x), s2))
    requires InRange(x) && InRange(y)
    ensures var code := TermCode(c, t, b, at);
            var end := ExecSeq(code.instrs, b, at, st);
            && (end.None? <==> !t.Times? && HasNoQuotient(x, y))
            && (end.Some? ==>
                  var v := Read(end.value, code.result);
                  && v.Some? && v.value.IntV?
                  && (t.Times? ==> InRange(v.value.i) && IsCongruent(v.value.i, x * y))
                  && (t.Slash? ==> exists r :: IsDivision(x, y, v.value.i, r))
                  && (t.Percent? ==> exists q :: IsDivision(x, y, q, v.value.i)))
  {
    TermRuns(c, t, Int, b, at, s, st);
    ProductsAreRight(t.left, t.factor, s, s1, s2, x, y);
    hide Related, SoundScope, TermCode, EvalTerm, EvalFactor, ExecSeq, IsDivision, IsCongruent, Framed, TermHasType,
         PlainTerm;
    assert t == Times(t.left, t.factor) || t == Slash(t.left, t.factor) || t == Percent(t.left, t.factor);
  }

  /** Sums and differences of numbers wrap; a pointer moves by a number of words. */
  lemma SumsAreRight(l: Expr, t: Term, s: Memory, s1: Memory, s2: Memory, v: Value, w: Value)
    requires EvalTerm(t, s) == Some((w, s1)) && EvalExpr(l, s1) == Some((v, s2))
    ensures v.IntV? && w.IntV? ==>
              && (exists z ::
                    InRange(z) && IsCongruent(z, v.i + w.i) && EvalExpr(Plus(l, t), s) == Some((IntV(z), s2)))
              && (exists z ::
                    InRange(z) && IsCongruent(z, v.i - w.i) && EvalExpr(Minus(l, t), s) == Some((IntV(z), s2)))
    ensures v.PtrV? && w.IntV? ==>
              EvalExpr(Plus(l, t), s) == Some((PtrV(v.block, v.offset + w.i), s2))
    ensures v.IntV? && w.PtrV? ==>
              EvalExpr(Plus(l, t), s) == Some((PtrV(w.block, w.offset + v.i), s2))
    ensures v.PtrV? && w.IntV? && InRange(w.i) && w.i > -0x8000_0000 ==>
              EvalExpr(Minus(l, t), s) == Some((PtrV(v.block, v.offset - w.i), s2))
  {
    if v.IntV? && w.IntV? {
      WrapIsCongruent(v.i + w.i);
      WrapIsCongruent(v.i - w.i);
      hide EvalTerm, IsCongruent;
      assert EvalExpr(Plus(l, t), s) == Some((IntV(Wrap(v.i + w.i)), s2));
      assert EvalExpr(Minus(l, t), s) == Some((IntV(Wrap(v.i - w.i)), s2));
    }
  }

  // ----- comparisons -----

  /** What a comparison of two numbers says. */
  predicate IsOrdered(op: Symbol, x: int, y: int)
    requires IsComparison(op)
  {
    && (op == EQ ==> x == y) && (op == NE ==> x < y || y < x) && (op == LT ==> x < y)
    && (op == LE ==> x < y || x == y) && (op == GE ==> y < x || x == y) && (op == GT ==> y < x)
  }

  /** A test of two numbers decides by their order, of two pointers by whether they are the same, and by the order of
      their addresses. */
  lemma TestsAreRight(t: Test, s: Memory, s1: Memory, s2: Memory, v: Value, w: Value)
    requires IsComparison(t.op) && EvalExpr(t.right, s) == Some((w, s1)) && EvalExpr(t.left, s1) == Some((v, s2))
    ensures v.IntV? && w.IntV? ==> EvalTest(t, s) == Some((IsOrdered(t.op, v.i, w.i), s2))
    ensures v.PtrV? && w.PtrV? && (t.op == EQ || t.op == NE) ==>
              EvalTest(t, s) == Some(((v == w) == (t.op == EQ), s2))
    ensures v.PtrV? && w.PtrV? && t.op != EQ && t.op != NE ==>
              EvalTest(t, s) == Some((IsOrdered(t.op, s2.world.address(v), s2.world.address(w)), s2))
  {
  }

  // ----- the heap -----

  /** Allocations are numbered from 1 up to the last one. */
  predicate IsHeap(h: Heap) {
    forall b :: b in h.live ==> 0 < b <= h.next
  }

  /** A new array: a place that is neither NULL nor in use, holding as many zeros as words are asked for; nothing else
      changes. */
  lemma ArraysAreFresh(size: Expr, s: Memory, s1: Memory, n: int)
    requires EvalExpr(size, s) == Some((IntV(n), s1)) && IsHeap(s1.heap) && 0 <= n < 0x4000_0000
    ensures match EvalFactor(NewArray(size), s)
            case None => false
            case Some((p, s2)) =>
              && p.PtrV? && p.offset == 0 && p != NULL_POINTER && p.block !in s1.heap.live
              && IsHeap(s2.heap) && s2 == s1.(heap := s2.heap)
              && (forall i: int :: HeapLoad(s2.heap, PtrV(p.block, i)) == if 0 <= i < n then Some(0) else None)
              && (forall q: Value :: q.PtrV? && q.block != p.block ==>
                                       HeapLoad(s2.heap, q) == HeapLoad(s1.heap, q))
  {
    WordsAreRight(n);
    AllocatedIsFresh(s1.heap, n);
    hide ArrayWords, HeapAlloc, HeapLoad, IsHeap;
  }

  lemma WordsAreRight(n: int)
    requires 0 <= n < 0x4000_0000
    ensures ArrayWords(n) == n
  {
    assert (4 * n + 0x8000_0000) % 0x1_0000_0000 - 0x8000_0000 ==
           if n < 0x2000_0000 then 4 * n else 4 * n - 0x1_0000_0000;
  }

  lemma AllocatedIsFresh(h: Heap, n: nat)
    requires IsHeap(h)
    ensures var (h', p) := HeapAlloc(h, n);
            && p.PtrV? && p.offset == 0 && p != NULL_POINTER && p.block !in h.live && IsHeap(h')
            && (forall i: int :: HeapLoad(h', PtrV(p.block, i)) == if 0 <= i < n then Some(0) else None)
            && (forall q: Value :: q.PtrV? && q.block != p.block ==> HeapLoad(h', q) == HeapLoad(h, q))
  {
  }

  /** A store to a live word, and to nothing else, is seen by loads from that word and by no others. */
  lemma StoresAreSeen(h: Heap, p: Value, v: Value)
    ensures HeapStore(h, p, v).Some? <==> v.IntV? && HeapLoad(h, p).Some?
    ensures HeapStore(h, p, v).Some? ==>
              var h' := HeapStore(h, p, v).value;
              && HeapLoad(h', p) == Some(v.i)
              && (forall q :: q != p ==> HeapLoad(h', q) == HeapLoad(h, q))
              && h'.next == h.next && h'.live.Keys == h.live.Keys
  {
  }

  /** A pointer can be freed if it is NULL, which does nothing, or the start of an allocation in use. Then nothing can
      be loaded from the allocation any more, and all else stays. */
  lemma FreedIsGone(h: Heap, p: Value)
    requires IsHeap(h)
    ensures HeapFree(h, NULL_POINTER) == Some(h)
    ensures p != NULL_POINTER ==> (HeapFree(h, p).Some? <==> p.PtrV? && p.offset == 0 && p.block in h.live)
    ensures p != NULL_POINTER && HeapFree(h, p).Some? ==>
              var h' := HeapFree(h, p).value;
              && IsHeap(h') && h'.next == h.next && p.block !in h'.live
              && forall q: Value :: q.PtrV? ==>
                                      HeapLoad(h', q) == if q.block == p.block then None else HeapLoad(h, q)
  {
  }

  /** Nothing is at NULL, and a pointer reads what is there only inside an allocation in use. */
  lemma LoadsAreInside(h: Heap, p: Value)
    requires IsHeap(h)
    ensures HeapLoad(h, NULL_POINTER) == None
    ensures HeapLoad(h, p).Some? <==> p.PtrV? && p.block in h.live && 0 <= p.offset < |h.live[p.block]|
  {
  }
}
