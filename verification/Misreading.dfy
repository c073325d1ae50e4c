/** When the reader does not give a tree back together with its cursor: the name of a called procedure leaves the items
    of a variable behind, and an operand or argument to its left is read from them. Counting leaves shows that the
    cursor then stops elsewhere, even where those items happen to spell the same tree. */
module Misreading {
  import opened Options
  import opened Symbols
  import opened Earley
  import opened Wlp4Grammar
  import opened Tokens
  import opened Ast
  import opened Types
  import opened Yields
  import opened Items
  import opened Reading
  import opened Checking
  import opened ReadBack

  // ----- leaves -----

  /** Completed from a name, a number or NULL, or as a call. */
  predicate IsLeaf(r: nat) {
    35 <= r <= 37 || r == 42 || r == 43 || r == 46
  }

  function Count(xs: seq<Elem>): nat {
    if xs == [] then 0 else Count(xs[..|xs| - 1]) + if IsLeaf(xs[|xs| - 1].rule) then 1 else 0
  }

  lemma {:induction false} CountAppend(xs: seq<Elem>, ys: seq<Elem>)
    ensures Count(xs + ys) == Count(xs) + Count(ys)
  {
    if ys == [] {
      assert xs + ys == xs;
    } else {
      CountAppend(xs, ys[..|ys| - 1]);
      assert (xs + ys)[..|xs + ys| - 1] == xs + ys[..|ys| - 1];
    }
  }

  lemma CountOne(x: Elem)
    ensures Count([x]) == if IsLeaf(x.rule) then 1 else 0
  {
    assert [x][..0] == [];
  }

  lemma CountDone(r: nat, s: nat)
    requires r < 49
    ensures Count([Done(r, s)]) == if IsLeaf(r) then 1 else 0
  {
    CountOne(Done(r, s));
  }

  lemma CountTop(r: nat, s: nat, k: seq<Elem>)
    requires r < 49
    ensures Count([Done(r, s)] + k) == Count(k) + if IsLeaf(r) then 1 else 0
  {
    CountAppend([Done(r, s)], k);
    CountOne(Done(r, s));
  }

  /** An operand, what it completes, another operand, and the item of the whole. */
  lemma CountBinary(x: seq<Elem>, k: seq<Elem>, y: seq<Elem>, r: nat, s: nat)
    requires r < 49
    ensures Count(x + k + y + [Done(r, s)]) == Count(x) + Count(k) + Count(y) + if IsLeaf(r) then 1 else 0
  {
    CountAppend(x, k);
    CountAppend(x + k, y);
    CountUnary(x + k + y, r, s);
  }

  lemma CountUnary(x: seq<Elem>, r: nat, s: nat)
    requires r < 49
    ensures Count(x + [Done(r, s)]) == Count(x) + if IsLeaf(r) then 1 else 0
  {
    CountAppend(x, [Done(r, s)]);
    CountDone(r, s);
  }

  lemma NoneIsZero()
    ensures Count([]) == 0
  {
  }

  function ExprLeaves(e: Expr): nat {
    match e
    case JustTerm(term) => TermLeaves(term)
    case _ => ExprLeaves(e.left) + TermLeaves(e.term)
  }

  function TermLeaves(t: Term): nat {
    match t
    case JustFactor(factor) => FactorLeaves(factor)
    case _ => TermLeaves(t.left) + FactorLeaves(t.factor)
  }

  function FactorLeaves(f: Factor): nat {
    match f
    case Paren(e) => ExprLeaves(e)
    case NewArray(size) => ExprLeaves(size)
    case AddressOf(lvalue) => LvalueLeaves(lvalue)
    case Deref(pointer) => FactorLeaves(pointer)
    case Call(_, args) => 1 + ArgsLeaves(args)
    case _ => 1
  }

  function ArgsLeaves(args: Arglist): nat {
    match args
    case NoArgs => 0
    case Args(e, rest) => ExprLeaves(e) + ArgsLeaves(rest)
  }

  function LvalueLeaves(l: Lvalue): nat {
    match l
    case Var(_) => 1
    case Target(pointer) => FactorLeaves(pointer)
    case Enclosed(inner) => LvalueLeaves(inner)
  }

  // ----- the items of a tree hold its leaves, and more if some call is not first -----

  /** The leaves among the items: those left behind, those of the tree, and at least extra more. */
  predicate IsAccounted(items: seq<Elem>, residue: seq<Elem>, leaves: nat, callsFirst: bool, opens: bool) {
    && Count(items) >= Count(residue) + leaves + (if callsFirst then 0 else 1)
    && (opens ==> Count(residue) >= 1)
  }

  lemma {:induction false} ExprHolds(e: Expr, s: nat, k: seq<Elem>)
    requires Count(k) == 0
    ensures IsAccounted(ExprItems(e, s, k), ExprResidue(e, s, k), ExprLeaves(e), ExprCallsFirst(e),
                        ExprOpensWithCall(e))
    decreases e
  {
    hide Count, Done, TermItems, TermResidue, ExprYield;
    var top := Done(ExprRule(e), s);
    CountTop(ExprRule(e), s, k);
    match e
    case JustTerm(term) =>
      TermHolds(term, s, [top] + k);
      CountUnary(TermItems(term, s, [top] + k), 28, s);
    case _ =>
      var s' := s + |ExprYield(e.left)| + 1;
      var l, t := ExprItems(e.left, s, k), TermItems(e.term, s', [top] + k);
      ExprHolds(e.left, s, k);
      TermHolds(e.term, s', [top] + k);
      CountBinary(l, k, t, ExprRule(e), s);
  }

  lemma {:induction false} TermHolds(t: Term, s: nat, k: seq<Elem>)
    requires Count(k) == 0
    ensures IsAccounted(TermItems(t, s, k), TermResidue(t, s, k), TermLeaves(t), TermCallsFirst(t),
                        TermOpensWithCall(t))
    decreases t
  {
    hide Count, Done, FactorItems, FactorResidue, TermYield;
    var top := Done(TermRule(t), s);
    CountTop(TermRule(t), s, k);
    match t
    case JustFactor(factor) =>
      FactorHolds(factor, s, [top] + k);
      CountUnary(FactorItems(factor, s, [top] + k), 31, s);
    case _ =>
      var s' := s + |TermYield(t.left)| + 1;
      var l, f := TermItems(t.left, s, k), FactorItems(t.factor, s', [top] + k);
      TermHolds(t.left, s, k);
      FactorHolds(t.factor, s', [top] + k);
      CountBinary(l, k, f, TermRule(t), s);
  }

  lemma {:induction false} FactorHolds(f: Factor, s: nat, k: seq<Elem>)
    requires Count(k) == 0
    ensures IsAccounted(FactorItems(f, s, k), FactorResidue(f, s, k), FactorLeaves(f), FactorCallsFirst(f),
                        FactorOpensWithCall(f))
    decreases f
  {
    hide Count, Done, ExprItems, ExprResidue, LvalueItems, LvalueResidue, ArgsItems, ArgsResidue;
    NoneIsZero();
    match f
    case Id(_) => CountDone(35, s);
    case Num(_) => CountDone(36, s);
    case NullValue => CountDone(37, s);
    case Paren(e) =>
      ExprHolds(e, s + 1, []);
      CountUnary(ExprItems(e, s + 1, []), 38, s);
    case NewArray(e) =>
      ExprHolds(e, s + 3, []);
      CountUnary(ExprItems(e, s + 3, []), 41, s);
    case AddressOf(l) =>
      CountTop(39, s, k);
      LvalueHolds(l, s + 1, [Done(39, s)] + k);
      CountUnary(LvalueItems(l, s + 1, [Done(39, s)] + k), 39, s);
    case Deref(g) =>
      CountTop(40, s, k);
      FactorHolds(g, s + 1, [Done(40, s)] + k);
      CountUnary(FactorItems(g, s + 1, [Done(40, s)] + k), 40, s);
    case Call(_, args) => CallHolds(f, args, s, k);
  }

  lemma {:induction false} CallHolds(f: Factor, args: Arglist, s: nat, k: seq<Elem>)
    requires f.Call? && f.args == args && Count(k) == 0
    ensures IsAccounted(FactorItems(f, s, k), FactorResidue(f, s, k), FactorLeaves(f), FactorCallsFirst(f), true)
    decreases f, 0
  {
    assert args.NoArgs? ==> ArgsResidue(args, s + 2, []) == [];
    hide Count, Done, ArgsItems, ArgsResidue;
    NoneIsZero();
    var name, x, r := [Done(35, s)] + k, ArgsItems(args, s + 2, []), ArgsResidue(args, s + 2, []);
    CountTop(35, s, k);
    CountAppend(name, r);
    if args.NoArgs? {
      CountUnary(name, 42, s);
      assert r == [] && name + r == name;
    } else {
      ArgsHold(args, s + 2, []);
      CountAppend(name, x);
      CountUnary(name + x, 43, s);
    }
  }

  lemma {:induction false} ArgsHold(args: Arglist, s: nat, k: seq<Elem>)
    requires args.Args? && Count(k) == 0
    ensures IsAccounted(ArgsItems(args, s, k), ArgsResidue(args, s, k), ArgsLeaves(args), ArgsCallsFirst(args),
                        ExprOpensWithCall(args.expr))
    decreases args
  {
    hide Count, Done, ExprItems, ExprResidue, ExprYield;
    var e, one := args.expr, [Done(44, s)] + k;
    var x := ExprItems(e, s, one);
    CountTop(44, s, k);
    ExprHolds(e, s, one);
    if args.rest.NoArgs? {
      CountUnary(x, 44, s);
    } else {
      var s', more := s + |ExprYield(e)| + 1, [Done(45, s)] + k;
      var y := ArgsItems(args.rest, s', more);
      CountTop(45, s, k);
      ArgsHold(args.rest, s', more);
      assert x + [Done(44, s)] + k == x + one;
      CountBinary(x, one, y, 45, s);
    }
  }

  lemma {:induction false} LvalueHolds(l: Lvalue, s: nat, k: seq<Elem>)
    requires Count(k) == 0
    ensures IsAccounted(LvalueItems(l, s, k), LvalueResidue(l, s, k), LvalueLeaves(l), LvalueCallsFirst(l),
                        LvalueOpensWithCall(l))
    decreases l
  {
    hide Count, Done, FactorItems, FactorResidue;
    NoneIsZero();
    match l
    case Var(_) => CountDone(46, s);
    case Target(pointer) =>
      CountTop(47, s, k);
      FactorHolds(pointer, s + 1, [Done(47, s)] + k);
      CountUnary(FactorItems(pointer, s + 1, [Done(47, s)] + k), 47, s);
    case Enclosed(inner) =>
      LvalueHolds(inner, s + 1, []);
      CountUnary(LvalueItems(inner, s + 1, []), 48, s);
  }

  // ----- the items of a tree are stacked in a fixed way -----

  /** Items with a lower neighbour that is the end of an earlier operand, or none. */
  predicate IsFirst(r: nat) {
    35 <= r <= 37 || r == 42 || r == 46
  }

  /** Items an operand can end in: EXPR, ARGLIST or TEST. */
  predicate IsLast(r: nat) {
    28 <= r <= 30 || r == 44 || r == 45 || 22 <= r <= 27
  }

  /** A completed rule right above another. */
  predicate Fits(lower: nat, upper: nat) {
    && (22 <= upper <= 27 || upper == 38 || upper == 41 || upper == 44 ==> 28 <= lower <= 30)
    && (28 <= upper <= 30 ==> 31 <= lower <= 34)
    && (31 <= upper <= 34 || upper == 40 || upper == 47 ==> 35 <= lower <= 43)
    && (upper == 39 || upper == 48 ==> 46 <= lower <= 48)
    && (upper == 43 || upper == 45 ==> lower == 44 || lower == 45)
    && (IsFirst(upper) ==> IsLast(lower))
  }

  predicate Stacked(xs: seq<Elem>) {
    forall j :: 0 < j < |xs| ==> Fits(xs[j - 1].rule, xs[j].rule)
  }

  /** Stacked from a first leaf up. */
  predicate Rises(xs: seq<Elem>) {
    |xs| > 0 && Stacked(xs) && IsFirst(xs[0].rule)
  }

  /** Stacked on top of a completed rule r, up to the end of an operand. */
  predicate Follows(r: nat, k: seq<Elem>) {
    Stacked(k) && if k == [] then IsLast(r) else Fits(r, k[0].rule) && IsLast(k[|k| - 1].rule)
  }

  lemma RiseTop(x: seq<Elem>, r: nat, s: nat)
    requires r < 49 && Rises(x) && Fits(x[|x| - 1].rule, r)
    ensures Rises(x + [Done(r, s)])
  {
    hide Fits;
  }

  lemma RiseOver(x: seq<Elem>, k: seq<Elem>, y: seq<Elem>)
    requires Rises(x) && Follows(x[|x| - 1].rule, k) && Rises(y)
    ensures Rises(x + k + y) && (x + k + y)[|x + k + y| - 1] == y[|y| - 1]
  {
    var z := x + k;
    assert IsLast(z[|z| - 1].rule) && IsFirst(y[0].rule);
    assert Fits(z[|z| - 1].rule, y[0].rule) by {
      FirstOnLast(z[|z| - 1].rule, y[0].rule);
    }
    hide Fits;
  }

  lemma FirstOnLast(lower: nat, upper: nat)
    requires IsLast(lower) && IsFirst(upper)
    ensures Fits(lower, upper)
  {
  }

  lemma FollowTop(r: nat, q: nat, s: nat, k: seq<Elem>)
    requires q < 49 && Fits(r, q) && Follows(q, k)
    ensures Follows(r, [Done(q, s)] + k)
  {
    hide Fits;
  }

  /** What follows one rule of a left-hand side follows every other. */
  lemma FollowSame(p: nat, q: nat, k: seq<Elem>)
    requires Follows(p, k)
    requires (28 <= p <= 30 && 28 <= q <= 30) || (31 <= p <= 34 && 31 <= q <= 34) || (35 <= p <= 43 && 35 <= q <= 43) ||
             (46 <= p <= 48 && 46 <= q <= 48) || (44 <= p <= 45 && 44 <= q <= 45)
    ensures Follows(q, k)
  {
    hide Stacked;
  }

  /** The items rise to one with a rule from p to q. */
  predicate RisesTo(xs: seq<Elem>, p: nat, q: nat) {
    Rises(xs) && p <= xs[|xs| - 1].rule <= q
  }

  lemma RiseToTop(x: seq<Elem>, p: nat, q: nat, r: nat, s: nat)
    requires r < 49 && RisesTo(x, p, q) && p <= q
    requires forall j :: p <= j <= q ==> Fits(j, r)
    ensures RisesTo(x + [Done(r, s)], r, r)
  {
    hide Fits, Rises;
    RiseTop(x, r, s);
  }

  lemma RiseToOver(x: seq<Elem>, p: nat, q: nat, k: seq<Elem>, y: seq<Elem>, p': nat, q': nat, r: nat, s: nat)
    requires r < 49 && RisesTo(x, p, q) && RisesTo(y, p', q') && forall j :: p <= j <= q ==> Follows(j, k)
    requires forall j :: p' <= j <= q' ==> Fits(j, r)
    ensures RisesTo(x + k + y + [Done(r, s)], r, r)
  {
    hide Fits, Rises, Follows;
    RiseOver(x, k, y);
    RiseTop(x + k + y, r, s);
  }

  lemma {:induction false} ExprRises(env: TypeEnv, e: Expr, ty: DclType, s: nat, k: seq<Elem>)
    requires ExprHasType(env, e, ty) && Follows(28, k)
    ensures RisesTo(ExprItems(e, s, k), 28, 30)
    decreases e
  {
    hide Follows, Rises, TermItems, ExprYield, TermHasType;
    var top := Done(ExprRule(e), s);
    FollowSame(28, ExprRule(e), k);
    FollowTop(31, ExprRule(e), s, k);
    match e
    case JustTerm(term) =>
      TermRises(env, term, ty, s, [top] + k);
      RiseToTop(TermItems(term, s, [top] + k), 31, 34, 28, s);
    case _ =>
      var tl, tt := OperandTypes(env, e, ty);
      var s' := s + |ExprYield(e.left)| + 1;
      ExprRises(env, e.left, tl, s, k);
      TermRises(env, e.term, tt, s', [top] + k);
      forall j | 28 <= j <= 30 ensures Follows(j, k) { FollowSame(28, j, k); }
      RiseToOver(ExprItems(e.left, s, k), 28, 30, k, TermItems(e.term, s', [top] + k), 31, 34, ExprRule(e), s);
  }

  lemma {:induction false} TermRises(env: TypeEnv, t: Term, ty: DclType, s: nat, k: seq<Elem>)
    requires TermHasType(env, t, ty) && Follows(31, k)
    ensures RisesTo(TermItems(t, s, k), 31, 34)
    decreases t
  {
    hide Follows, Rises, FactorItems, TermYield, FactorHasType;
    var top := Done(TermRule(t), s);
    FollowSame(31, TermRule(t), k);
    FollowTop(35, TermRule(t), s, k);
    match t
    case JustFactor(factor) =>
      FactorRises(env, factor, ty, s, [top] + k);
      RiseToTop(FactorItems(factor, s, [top] + k), 35, 43, 31, s);
    case _ =>
      var s' := s + |TermYield(t.left)| + 1;
      TermRises(env, t.left, Int, s, k);
      FactorRises(env, t.factor, Int, s', [top] + k);
      forall j | 31 <= j <= 34 ensures Follows(j, k) { FollowSame(31, j, k); }
      RiseToOver(TermItems(t.left, s, k), 31, 34, k, FactorItems(t.factor, s', [top] + k), 35, 43, TermRule(t), s);
  }

  lemma LeafRises(r: nat, s: nat)
    requires r < 49 && IsFirst(r)
    ensures RisesTo([Done(r, s)], r, r)
  {
  }

  /** A call has type int, so it is not what a star stands before, and what it completes ends an operand. */
  lemma {:induction false} FactorRises(env: TypeEnv, f: Factor, ty: DclType, s: nat, k: seq<Elem>)
    requires FactorHasType(env, f, ty) && (f.Call? ==> Follows(35, k))
    ensures RisesTo(FactorItems(f, s, k), 35, 43)
    decreases f
  {
    hide Follows, Rises, ExprItems, LvalueItems, ArgsItems, Done, ExprHasType, LvalueHasType, ArgsHaveTypes;
    match f
    case Id(_) => LeafRises(35, s);
    case Num(_) => LeafRises(36, s);
    case NullValue => LeafRises(37, s);
    case Paren(e) =>
      NothingFollows();
      ExprRises(env, e, ty, s + 1, []);
      RiseToTop(ExprItems(e, s + 1, []), 28, 30, 38, s);
    case NewArray(e) =>
      NothingFollows();
      ExprRises(env, e, Int, s + 3, []);
      RiseToTop(ExprItems(e, s + 3, []), 28, 30, 41, s);
    case AddressOf(l) =>
      LvalueRises(env, l, Int, s + 1, [Done(39, s)] + k);
      RiseToTop(LvalueItems(l, s + 1, [Done(39, s)] + k), 46, 48, 39, s);
    case Deref(g) =>
      FactorRises(env, g, IntStar, s + 1, [Done(40, s)] + k);
      RiseToTop(FactorItems(g, s + 1, [Done(40, s)] + k), 35, 43, 40, s);
    case Call(_, args) => CallRises(env, f, args, s, k);
  }

  lemma NothingFollows()
    ensures Follows(28, []) && Follows(44, [])
  {
  }

  lemma {:induction false} CallRises(env: TypeEnv, f: Factor, args: Arglist, s: nat, k: seq<Elem>)
    requires f.Call? && f.args == args && ArgsHaveTypes(env, args) && Follows(35, k)
    ensures RisesTo(FactorItems(f, s, k), 35, 43)
    decreases f, 0
  {
    LeafRises(35, s);
    if args.NoArgs? {
      LeafRises(42, s);
      RiseOver([Done(35, s)], k, [Done(42, s)]);
    } else {
      NothingFollows();
      ArgsRise(env, args, s + 2, []);
      RiseToOver([Done(35, s)], 35, 35, k, ArgsItems(args, s + 2, []), 44, 45, 43, s);
    }
  }

  lemma {:induction false} ArgsRise(env: TypeEnv, args: Arglist, s: nat, k: seq<Elem>)
    requires args.Args? && ArgsHaveTypes(env, args) && Follows(44, k)
    ensures RisesTo(ArgsItems(args, s, k), 44, 45)
    decreases args
  {
    hide Follows, Rises, ExprItems, ExprYield, Done, ExprHasType;
    var e, one := args.expr, [Done(44, s)] + k;
    FollowTop(28, 44, s, k);
    ExprRises(env, e, if ExprHasType(env, e, Int) then Int else IntStar, s, one);
    if args.rest.NoArgs? {
      RiseToTop(ExprItems(e, s, one), 28, 30, 44, s);
    } else {
      var s', more := s + |ExprYield(e)| + 1, [Done(45, s)] + k;
      FollowSame(44, 45, k);
      FollowTop(44, 45, s, k);
      ArgsRise(env, args.rest, s', more);
      assert ExprItems(e, s, one) + [Done(44, s)] + k == ExprItems(e, s, one) + one;
      forall j | 28 <= j <= 30 ensures Follows(j, one) { FollowSame(28, j, one); }
      RiseToOver(ExprItems(e, s, one), 28, 30, one, ArgsItems(args.rest, s', more), 44, 45, 45, s);
    }
  }

  lemma {:induction false} LvalueRises(env: TypeEnv, l: Lvalue, ty: DclType, s: nat, k: seq<Elem>)
    requires LvalueHasType(env, l, ty)
    ensures RisesTo(LvalueItems(l, s, k), 46, 48)
    decreases l
  {
    hide Rises, FactorItems, Done;
    match l
    case Var(_) => LeafRises(46, s);
    case Target(pointer) =>
      FactorRises(env, pointer, IntStar, s + 1, [Done(47, s)] + k);
      RiseToTop(FactorItems(pointer, s + 1, [Done(47, s)] + k), 35, 43, 47, s);
    case Enclosed(inner) =>
      LvalueRises(env, inner, ty, s + 1, []);
      RiseToTop(LvalueItems(inner, s + 1, []), 46, 48, 48, s);
  }

  // ----- reading passes no leaf over -----

  /** The number of leaves from item i up to item j. */
  function CountIn(chart: seq<Elem>, i: int, j: int): nat
    requires 0 <= i <= j <= |chart|
  {
    if i == j then 0 else CountIn(chart, i, j - 1) + if IsLeaf(chart[j - 1].rule) then 1 else 0
  }

  lemma {:induction false} CountInSplit(chart: seq<Elem>, i: int, m: int, j: int)
    requires 0 <= i <= m <= j <= |chart|
    ensures CountIn(chart, i, j) == CountIn(chart, i, m) + CountIn(chart, m, j)
    decreases j - m
  {
    if m < j {
      CountInSplit(chart, i, m, j - 1);
    }
  }

  lemma {:induction false} CountInIsCount(chart: seq<Elem>, i: int, j: int)
    requires 0 <= i <= j <= |chart|
    ensures CountIn(chart, i, j) == Count(chart[i..j])
    decreases j - i
  {
    if i < j {
      CountInIsCount(chart, i, j - 1);
      assert chart[i..j][..j - i - 1] == chart[i..j - 1];
    }
  }

  /** Items lo to i are stacked. */
  ghost predicate StackedIn(c: Context, lo: nat, i: int) {
    && Ready(c, i)
    && forall j :: lo < j <= i ==> Fits(c.chart[j - 1].rule, c.chart[j].rule)
  }

  /** The reader went from item i down to a first leaf right above item j, and the tree has exactly the leaves
      passed. */
  ghost predicate Passed(c: Context, i: int, j: int, leaves: nat) {
    -1 <= j < i < |c.chart| && CountIn(c.chart, j + 1, i + 1) == leaves && IsFirst(c.chart[j + 1].rule)
  }

  lemma PassedOver(c: Context, i: int, k: int, j: int, leaves: nat)
    requires Passed(c, k, j, leaves) && k <= i < |c.chart| && CountIn(c.chart, k + 1, i + 1) == 0
    ensures Passed(c, i, j, leaves)
  {
    CountInSplit(c.chart, j + 1, k + 1, i + 1);
  }

  lemma PassedTop(c: Context, i: int, j: int, leaves: nat)
    requires Passed(c, i - 1, j, leaves) && i < |c.chart|
    ensures Passed(c, i, j, leaves + if IsLeaf(c.chart[i].rule) then 1 else 0)
  {
  }

  lemma PassedBoth(c: Context, i: int, m: int, j: int, more: nat, leaves: nat)
    requires Passed(c, i, m, more) && Passed(c, m, j, leaves)
    ensures Passed(c, i, j, leaves + more)
  {
    CountInSplit(c.chart, j + 1, m + 1, i + 1);
  }

  lemma ExprOrTermRule(r: nat)
    requires r < 49
    ensures RuleAt(r).lhs == EXPR <==> 28 <= r <= 30
    ensures RuleAt(r).lhs == TERM <==> 31 <= r <= 34
    ensures 28 <= r <= 34 ==> RuleAt(r).rhs != []
    ensures r == 28 || r == 31 ==> |RuleAt(r).rhs| == 1
  {
  }

  lemma SmallerRule(r: nat)
    requires r < 49
    ensures RuleAt(r).lhs == FACTOR <==> 35 <= r <= 43
    ensures RuleAt(r).lhs == LVALUE <==> 46 <= r <= 48
    ensures RuleAt(r).lhs == ARGLIST <==> 44 <= r <= 45
  {
  }

  /** Going down from the end of an operand to its EXPR item. */
  lemma {:induction false} ExprBelowLast(c: Context, lo: nat, i: int)
    requires StackedIn(c, lo, i) && lo <= i && IsLast(c.chart[i].rule) && lo <= Find(c.chart, EXPR, i)
    ensures var k := Find(c.chart, EXPR, i); 28 <= c.chart[k].rule <= 30 && CountIn(c.chart, k + 1, i + 1) == 0
    decreases i
  {
    ExprOrTermRule(c.chart[i].rule);
    hide RuleAt;
    if Lhs(c.chart, i) != EXPR {
      assert i > lo;
      ExprBelowLast(c, lo, i - 1);
    }
  }

  /** Going down from the end of an operand, or from its TERM item, to the TERM item. */
  lemma {:induction false} TermBelowLast(c: Context, lo: nat, i: int)
    requires StackedIn(c, lo, i) && lo <= i && lo <= Find(c.chart, TERM, i)
    requires IsLast(c.chart[i].rule) || 31 <= c.chart[i].rule <= 34
    ensures var k := Find(c.chart, TERM, i); 31 <= c.chart[k].rule <= 34 && CountIn(c.chart, k + 1, i + 1) == 0
    decreases i
  {
    ExprOrTermRule(c.chart[i].rule);
    hide RuleAt;
    if Lhs(c.chart, i) != TERM {
      assert i > lo;
      TermBelowLast(c, lo, i - 1);
    }
  }

  lemma {:induction false} ReadExprPasses(c: Context, lo: nat, i: int)
    requires StackedIn(c, lo, i) && lo <= i && IsLast(c.chart[i].rule)
    requires ReadExpr(c, i).Ok? && lo - 1 <= ReadExpr(c, i).value.1
    ensures Passed(c, i, ReadExpr(c, i).value.1, ExprLeaves(ReadExpr(c, i).value.0))
    decreases i
  {
    hide Passed, RuleAt, Find, ReadTerm, CountIn, TermLeaves, ExprType;
    var k := Find(c.chart, EXPR, i);
    ExprBelowLast(c, lo, i);
    ReadTermPasses(c, lo, k - 1);
    var (t, j) := ReadTerm(c, k - 1).value;
    PassedTop(c, k, j, TermLeaves(t));
    var (e, m) := ReadExpr(c, i).value;
    if !e.JustTerm? {
      PassedIsAfterLast(c, lo, k, j, TermLeaves(t));
      ReadExprPasses(c, lo, j);
      PassedBoth(c, k, j, m, TermLeaves(t), ExprLeaves(e.left));
    }
    PassedOver(c, i, k, m, ExprLeaves(e));
  }

  lemma PassedIsAfterLast(c: Context, lo: nat, i: int, j: int, leaves: nat)
    requires StackedIn(c, lo, i) && Passed(c, i, j, leaves) && lo <= j
    ensures IsLast(c.chart[j].rule) && StackedIn(c, lo, j)
  {
    assert Fits(c.chart[j].rule, c.chart[j + 1].rule);
  }

  lemma {:induction false} ReadTermPasses(c: Context, lo: nat, i: int)
    requires StackedIn(c, lo, i) && lo <= i && (IsLast(c.chart[i].rule) || 31 <= c.chart[i].rule <= 34)
    requires ReadTerm(c, i).Ok? && lo - 1 <= ReadTerm(c, i).value.1
    ensures Passed(c, i, ReadTerm(c, i).value.1, TermLeaves(ReadTerm(c, i).value.0))
    decreases i
  {
    hide Passed, RuleAt, Find, ReadFactor, CountIn, FactorLeaves, TermType;
    var k := Find(c.chart, TERM, i);
    TermBelowLast(c, lo, i);
    ReadFactorPasses(c, lo, k - 1);
    var (f, j) := ReadFactor(c, k - 1).value;
    PassedTop(c, k, j, FactorLeaves(f));
    var (t, m) := ReadTerm(c, i).value;
    if !t.JustFactor? {
      PassedIsAfterLast(c, lo, k, j, FactorLeaves(f));
      ReadTermPasses(c, lo, j);
      PassedBoth(c, k, j, m, FactorLeaves(f), TermLeaves(t.left));
    }
    PassedOver(c, i, k, m, TermLeaves(t));
  }

  /** What a factor was read from. */
  lemma FactorParts(c: Context, i: int)
    requires 0 <= i && Ready(c, i) && 35 <= c.chart[i].rule <= 43 && ReadFactor(c, i).Ok?
    ensures var (f, j) := ReadFactor(c, i).value;
            match c.chart[i].rule
            case 39 => (match ReadLvalue(c, i - 1) case Ok((l, m)) => f == AddressOf(l) && j == m case Err(_) => false)
            case 40 => (match ReadFactor(c, i - 1) case Ok((g, m)) => f == Deref(g) && j == m case Err(_) => false)
            case 38 => (match ReadExpr(c, i - 1) case Ok((e, m)) => f == Paren(e) && j == m case Err(_) => false)
            case 41 => (match ReadExpr(c, i - 1) case Ok((e, m)) => f == NewArray(e) && j == m case Err(_) => false)
            case 42 => f.Call? && f.args == NoArgs && j == i - 1
            case 43 =>
              (match ReadArglist(c, i - 1)
               case Ok((args, m)) => f.Call? && f.args == args && j == m
               case Err(_) => false)
            case _ => (f.Id? || f.Num? || f.NullValue?) && j == i - 1
  {
    SmallerRule(c.chart[i].rule);
    hide ReadExpr, ReadLvalue, ReadArglist, ExprType, LvalueType, FactorType, CheckCall;
    assert Find(c.chart, FACTOR, i) == i;
    if c.chart[i].rule >= 42 {
      assert ReadFactor(c, i) == ReadCall(c, i);
    } else if c.chart[i].rule <= 37 {
      assert ReadFactor(c, i) == ReadLeaf(c, i);
    }
  }

  lemma FitsBelow(c: Context, lo: nat, i: int)
    requires StackedIn(c, lo, i)
    ensures lo < i ==> StackedIn(c, lo, i - 1) && Fits(c.chart[i - 1].rule, c.chart[i].rule)
    ensures Ready(c, i)
  {
    hide Fits;
  }

  lemma {:induction false} ReadFactorPasses(c: Context, lo: nat, i: int)
    requires StackedIn(c, lo, i) && lo <= i && 35 <= c.chart[i].rule <= 43
    requires ReadFactor(c, i).Ok? && lo - 1 <= ReadFactor(c, i).value.1
    ensures Passed(c, i, ReadFactor(c, i).value.1, FactorLeaves(ReadFactor(c, i).value.0))
    decreases i
  {
    hide RuleAt, ReadFactor, Find, ReadExpr, ReadLvalue, ReadArglist, Passed, CountIn, StackedIn, ExprLeaves,
         LvalueLeaves;
    FitsBelow(c, lo, i);
    FactorParts(c, i);
    var (f, j) := ReadFactor(c, i).value;
    match c.chart[i].rule
    case 38 =>
      ReadExprPasses(c, lo, i - 1);
      PassedTop(c, i, j, FactorLeaves(f));
    case 41 =>
      ReadExprPasses(c, lo, i - 1);
      PassedTop(c, i, j, FactorLeaves(f));
    case 39 =>
      ReadLvaluePasses(c, lo, i - 1);
      PassedTop(c, i, j, FactorLeaves(f));
    case 40 =>
      ReadFactorPasses(c, lo, i - 1);
      PassedTop(c, i, j, FactorLeaves(f));
    case 43 =>
      ReadArglistPasses(c, lo, i - 1);
      PassedTop(c, i, j, ArgsLeaves(f.args));
    case _ => LeafPassed(c, i);
  }

  lemma LeafPassed(c: Context, i: int)
    requires 0 <= i < |c.chart| && IsFirst(c.chart[i].rule)
    ensures Passed(c, i, i - 1, 1)
  {
  }

  lemma LvalueParts(c: Context, i: int)
    requires 0 <= i && Ready(c, i) && 46 <= c.chart[i].rule <= 48 && ReadLvalue(c, i).Ok?
    ensures var (l, j) := ReadLvalue(c, i).value;
            match c.chart[i].rule
            case 47 => (match ReadFactor(c, i - 1) case Ok((f, m)) => l == Target(f) && j == m case Err(_) => false)
            case 48 => (match ReadLvalue(c, i - 1) case Ok((l', m)) => l == Enclosed(l') && j == m case Err(_) => false)
            case _ => l.Var? && j == i - 1
  {
    hide RuleAt, ReadFactor, FactorType;
    TheLvalueRules();
    FindHere(c.chart, LVALUE, i);
  }

  lemma {:induction false} ReadLvaluePasses(c: Context, lo: nat, i: int)
    requires StackedIn(c, lo, i) && lo <= i && 46 <= c.chart[i].rule <= 48
    requires ReadLvalue(c, i).Ok? && lo - 1 <= ReadLvalue(c, i).value.1
    ensures Passed(c, i, ReadLvalue(c, i).value.1, LvalueLeaves(ReadLvalue(c, i).value.0))
    decreases i
  {
    hide RuleAt, ReadFactor, Find, ReadLvalue, Passed, CountIn, StackedIn, FactorLeaves;
    FitsBelow(c, lo, i);
    LvalueParts(c, i);
    var (l, j) := ReadLvalue(c, i).value;
    match c.chart[i].rule
    case 47 =>
      ReadFactorPasses(c, lo, i - 1);
      PassedTop(c, i, j, LvalueLeaves(l));
    case 48 =>
      ReadLvaluePasses(c, lo, i - 1);
      PassedTop(c, i, j, LvalueLeaves(l));
    case _ => LeafPassed(c, i);
  }

  lemma ArglistRule(r: nat)
    requires 44 <= r <= 45
    ensures RuleAt(r).lhs == ARGLIST && (|RuleAt(r).rhs| == 1 <==> r == 44)
  {
  }

  lemma ArglistParts(c: Context, i: int)
    requires 0 <= i && Ready(c, i) && 44 <= c.chart[i].rule <= 45 && ReadArglist(c, i).Ok?
    ensures var (args, j) := ReadArglist(c, i).value;
            match c.chart[i].rule
            case 44 =>
              (match ReadExpr(c, i - 1) case Ok((e, m)) => args == Args(e, NoArgs) && j == m case Err(_) => false)
            case _ =>
              match ReadArglist(c, i - 1)
              case Err(_) => false
              case Ok((rest, m)) =>
                match ReadExpr(c, m)
                case Err(_) => false
                case Ok((e, n)) => args == Args(e, rest) && j == n
  {
    SmallerRule(c.chart[i].rule);
    ArglistRule(c.chart[i].rule);
    hide ReadExpr, RuleAt;
    assert Find(c.chart, ARGLIST, i) == i;
  }

  lemma {:induction false} ReadArglistPasses(c: Context, lo: nat, i: int)
    requires StackedIn(c, lo, i) && lo <= i && 44 <= c.chart[i].rule <= 45
    requires ReadArglist(c, i).Ok? && lo - 1 <= ReadArglist(c, i).value.1
    ensures Passed(c, i, ReadArglist(c, i).value.1, ArgsLeaves(ReadArglist(c, i).value.0))
    decreases i
  {
    hide RuleAt, ReadArglist, Find, ReadExpr, Passed, CountIn, StackedIn, ExprLeaves;
    FitsBelow(c, lo, i);
    ArglistParts(c, i);
    var (args, j) := ReadArglist(c, i).value;
    if c.chart[i].rule == 44 {
      ReadExprPasses(c, lo, i - 1);
      assert ArgsLeaves(args.rest) == 0;
      PassedTop(c, i, j, ExprLeaves(args.expr));
    } else {
      var m := ReadArglist(c, i - 1).value.1;
      ReadArglistPasses(c, lo, i - 1);
      PassedTop(c, i, m, ArgsLeaves(args.rest));
      PassedIsAfterLast(c, lo, i, m, ArgsLeaves(args.rest));
      ReadExprPasses(c, lo, m);
      PassedBoth(c, i, m, j, ArgsLeaves(args.rest), ExprLeaves(args.expr));
    }
  }

  // ----- exactly when -----

  /** The part of the chart the items are in. */
  lemma ShownIsStacked(c: Context, i: int, xs: seq<Elem>, items: seq<Elem>)
    requires Shows(c, i, xs + items) && items != [] && Stacked(items)
    ensures StackedIn(c, |xs|, i) && c.chart[|xs|..i + 1] == items
  {
    hide Fits;
    assert c.chart[|xs|..i + 1] == c.chart[..i + 1][|xs|..];
    forall j | |xs| < j <= i
      ensures Fits(c.chart[j - 1].rule, c.chart[j].rule)
    {
      assert Fits(items[j - 1 - |xs|].rule, items[j - |xs|].rule);
    }
  }

  /** A tree that is read back has its calls first. */
  lemma ExprReadOnlyIf(c: Context, i: int, xs: seq<Elem>, e: Expr, s: nat, k: seq<Elem>)
    requires Shows(c, i, xs + ExprItems(e, s, k)) && Follows(28, k) && Count(k) == 0
    requires Gives(c, ReadExpr(c, i), e, xs + ExprResidue(e, s, k))
    ensures ExprCallsFirst(e)
  {
    hide Passed, Fits, RuleAt, ReadExpr, ExprItems, ExprResidue, ExprCallsFirst, CountIn, Count, Follows;
    var items, residue := ExprItems(e, s, k), ExprResidue(e, s, k);
    ReadExprIsSound(c, i);
    ExprRises(c.env, e, ExprType(c.env, e), s, k);
    ShownIsStacked(c, i, xs, items);
    ReadExprPasses(c, |xs|, i);
    ExprHolds(e, s, k);
    CountReadBack(c, i, xs, items, residue, ExprLeaves(e), ExprCallsFirst(e), ExprOpensWithCall(e));
  }

  lemma CountReadBack(c: Context, i: int, xs: seq<Elem>, items: seq<Elem>, residue: seq<Elem>, leaves: nat,
                      callsFirst: bool, opens: bool)
    requires Shows(c, i, xs + items) && Shows(c, |xs + residue| - 1, xs + residue)
    requires IsAccounted(items, residue, leaves, callsFirst, opens) && Passed(c, i, |xs + residue| - 1, leaves)
    ensures callsFirst
  {
    var m := |xs + residue|;
    CountInSplit(c.chart, |xs|, m, i + 1);
    CountInIsCount(c.chart, |xs|, m);
    CountInIsCount(c.chart, |xs|, i + 1);
    assert c.chart[|xs|..m] == c.chart[..m][|xs|..] == residue;
    assert c.chart[|xs|..i + 1] == c.chart[..i + 1][|xs|..] == items;
  }

  /** The reader, at the top item of a tree, gives the tree back and goes on from what it leaves behind, if and only if
      the tree is typed, its calls resolve, and no right operand and no later argument opens with a call. */
  lemma ExprReadExactly(c: Context, i: int, xs: seq<Elem>, e: Expr, s: nat, k: seq<Elem>)
    requires Shows(c, i, xs + ExprItems(e, s, k)) && IsContext(k) && ExprSpelled(c.tokens, s, e)
    ensures Ready(c, i)
    ensures Gives(c, ReadExpr(c, i), e, xs + ExprResidue(e, s, k)) <==>
            ExprCallsFirst(e) && ExprIsSound(c, e)
  {
    hide ExprItems, ExprResidue, ReadExpr, ExprCallsFirst, ExprType, ExprHasType, ExprResolves;
    ContextIsQuiet(k);
    if Gives(c, ReadExpr(c, i), e, xs + ExprResidue(e, s, k)) {
      ReadExprIsSound(c, i);
      ExprReadOnlyIf(c, i, xs, e, s, k);
    }
    if ExprCallsFirst(e) && ExprIsSound(c, e) {
      ExprReadBack(c, i, xs, e, ExprType(c.env, e), s, k);
    }
  }

  /** What an expression completes in turn: nothing, the test it ends, or the argument lists it ends. */
  predicate IsContext(k: seq<Elem>) {
    || k == []
    || (|k| == 1 && 22 <= k[0].rule <= 27)
    || (k[0].rule == 44 && forall j :: 0 < j < |k| ==> k[j].rule == 45)
  }

  lemma {:induction false} ContextIsQuiet(k: seq<Elem>)
    requires IsContext(k)
    ensures Lacks(k, EXPR) && Lacks(k, TERM) && Follows(28, k) && Count(k) == 0
  {
    if k != [] {
      ContextIsQuiet(k[..|k| - 1]);
    }
  }
}
