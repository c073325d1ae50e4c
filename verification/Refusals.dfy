/** Where calls come first, what is read from the items of a tree is the tree itself, or the first of its faults. */
module Refusals {
  import opened Options
  import opened Symbols
  import opened Earley
  import opened Wlp4Grammar
  import opened Tokens
  import opened Ast
  import opened Types
  import opened Yields
  import opened Items
  import opened Reading
  import opened Checking
  import opened ReadBack
  import opened ReadStatements
  import opened Faults

  // ----- one step of the reader -----

  function Unless<T>(bad: bool, error: ParseError, value: T): Result<T> {
    if bad then Err(error) else Ok(value)
  }

  lemma TermAloneIs(c: Context, i: int)
    requires 0 <= i && Ready(c, i) && c.chart[i].rule == 28
    ensures ReadExpr(c, i) ==
            var (t, j) :- ReadTerm(c, i - 1);
            Unless(ExprType(c.env, JustTerm(t)) == Invalid, InvalidExpr, (JustTerm(t), j))
  {
    hide ReadTerm, ExprType;
  }

  function SumOf(e: Expr, l: Expr, t: Term): Expr
    requires !e.JustTerm?
  {
    if e.Plus? then Plus(l, t) else Minus(l, t)
  }

  lemma TermOfSumIs(c: Context, i: int, e: Expr)
    requires 0 <= i && Ready(c, i) && !e.JustTerm? && c.chart[i].rule == ExprRule(e)
    ensures ReadExpr(c, i) ==
            var (t, j) :- ReadTerm(c, i - 1);
            var (l, m) :- ReadExpr(c, j);
            Unless(ExprType(c.env, SumOf(e, l, t)) == Invalid, InvalidExpr, (SumOf(e, l, t), m))
  {
    hide RuleAt, Find, Lhs, ReadTerm, ExprType, TermType;
    assert Find(c.chart, EXPR, i) == i &&
           RuleAt(c.chart[i].rule).rhs == [EXPR, if e.Plus? then PLUS else MINUS, TERM] by {
      SumRule(e);
      FindHere(c.chart, EXPR, i);
    }
  }

  lemma FactorAloneIs(c: Context, i: int)
    requires 0 <= i && Ready(c, i) && c.chart[i].rule == 31
    ensures ReadTerm(c, i) == var (f, j) :- ReadFactor(c, i - 1); Ok((JustFactor(f), j))
  {
    hide ReadFactor;
  }

  function ProductOf(t: Term, l: Term, f: Factor): Term
    requires !t.JustFactor?
  {
    if t.Times? then Times(l, f) else if t.Slash? then Slash(l, f) else Percent(l, f)
  }

  lemma FactorOfProductIs(c: Context, i: int, t: Term)
    requires 0 <= i && Ready(c, i) && !t.JustFactor? && c.chart[i].rule == TermRule(t)
    ensures ReadTerm(c, i) ==
            var (f, j) :- ReadFactor(c, i - 1);
            var (l, m) :- ReadTerm(c, j);
            Unless(TermType(c.env, ProductOf(t, l, f)) == Invalid, IntsExpected, (ProductOf(t, l, f), m))
  {
    hide RuleAt, Find, Lhs, ReadFactor, TermType;
    assert Find(c.chart, TERM, i) == i && RuleAt(c.chart[i].rule) == RuleAt(TermRule(t)) by {
      ProductRule(t);
      FindHere(c.chart, TERM, i);
    }
    ProductRule(t);
  }

  /** The rule of a factor that is read from one tree inside it. */
  lemma FactorAt(c: Context, i: int)
    requires 0 <= i && Ready(c, i) && 38 <= c.chart[i].rule <= 41
    ensures Find(c.chart, FACTOR, i) == i
    ensures var r, rhs := c.chart[i].rule, RuleAt(c.chart[i].rule).rhs;
            && (r == 38 ==> rhs == [LPAREN, EXPR, RPAREN]) && (r == 39 ==> rhs == [AMP, LVALUE])
            && (r == 40 ==> rhs == [STAR, FACTOR]) && (r == 41 ==> rhs == [NEW, INT, LBRACK, EXPR, RBRACK])
  {
    assert RuleAt(c.chart[i].rule).lhs == FACTOR;
    FindHere(c.chart, FACTOR, i);
  }

  lemma ExprInFactorIs(c: Context, i: int)
    requires 0 <= i && Ready(c, i) && (c.chart[i].rule == 38 || c.chart[i].rule == 41)
    ensures ReadFactor(c, i) ==
            var (e, j) :- ReadExpr(c, i - 1);
            if c.chart[i].rule == 38 then Ok((Paren(e), j))
            else Unless(ExprType(c.env, e) != Int, IntExpected, (NewArray(e), j))
  {
    hide RuleAt, Find, Lhs, ExprType, FactorType, LvalueType, ReadLeaf, ReadCall, ReadExpr, ReadLvalue;
    FactorAt(c, i);
  }

  lemma LvalueInFactorIs(c: Context, i: int)
    requires 0 <= i && Ready(c, i) && c.chart[i].rule == 39
    ensures ReadFactor(c, i) ==
            var (l, j) :- ReadLvalue(c, i - 1);
            Unless(LvalueType(c.env, l) != Int, IntExpected, (AddressOf(l), j))
  {
    hide RuleAt, Find, Lhs, ExprType, FactorType, LvalueType, ReadLeaf, ReadCall, ReadExpr, ReadLvalue;
    FactorAt(c, i);
  }

  lemma FactorInFactorIs(c: Context, i: int)
    requires 0 <= i && Ready(c, i) && c.chart[i].rule == 40
    ensures ReadFactor(c, i) ==
            var (f, j) :- ReadFactor(c, i - 1);
            Unless(FactorType(c.env, f) != IntStar, PointerExpected, (Deref(f), j))
  {
    hide RuleAt, Find, Lhs, ExprType, FactorType, LvalueType, ReadLeaf, ReadCall, ReadExpr, ReadLvalue;
    FactorAt(c, i);
  }

  /** The first fault, or else the value. */
  ghost function Answer<T>(faults: seq<ParseError>, value: T): Result<T> {
    if faults != [] then Err(faults[0]) else Ok(value)
  }

  lemma CallIs(c: Context, i: int, callee: string)
    requires 0 <= i && Ready(c, i) && 42 <= c.chart[i].rule <= 43 && Spells(c.tokens, c.chart[i].start, callee)
    ensures var r := ReadFactor(c, i);
            && (CalleeFaults(c, callee) != [] ==> r == Err(CalleeFaults(c, callee)[0]))
            && (CalleeFaults(c, callee) == [] && c.chart[i].rule == 42 ==>
                  r == Answer(ArityFaults(c, callee, NoArgs), (Call(callee, NoArgs), i - 1)))
            && (CalleeFaults(c, callee) == [] && c.chart[i].rule == 43 ==>
                  r == var (args, j) :- ReadArglist(c, i - 1);
                       Answer(ArityFaults(c, callee, args), (Call(callee, args), j)))
  {
    hide ReadArglist, ReadFactor, RuleAt, CalleeFaults, CheckCall, DeclaredInTime, Find, Lhs;
    CallIsRead(c, i);
    CalleeIsChecked(c, callee);
    CallRules();
  }

  lemma CallRules()
    ensures |RuleAt(42).rhs| == 3 && |RuleAt(43).rhs| == 4
  {
  }

  lemma CallIsRead(c: Context, i: int)
    requires 0 <= i && Ready(c, i) && 42 <= c.chart[i].rule <= 43
    ensures ReadFactor(c, i) == ReadCall(c, i)
  {
    hide ReadCall;
  }

  lemma CalleeIsChecked(c: Context, callee: string)
    ensures CheckCall(c, callee) == if CalleeFaults(c, callee) != [] then Some(CalleeFaults(c, callee)[0]) else None
    ensures CalleeFaults(c, callee) == [] ==> callee in c.arity
  {
    hide DeclaredInTime;
  }

  lemma LastArgIs(c: Context, i: int)
    requires 0 <= i && Ready(c, i) && c.chart[i].rule == 44
    ensures ReadArglist(c, i) == var (e, j) :- ReadExpr(c, i - 1); Ok((Args(e, NoArgs), j))
  {
    hide ReadExpr;
  }

  lemma EarlierArgIs(c: Context, i: int)
    requires 0 <= i && Ready(c, i) && c.chart[i].rule == 45
    ensures ReadArglist(c, i) ==
            var (rest, j) :- ReadArglist(c, i - 1);
            var (e, m) :- ReadExpr(c, j);
            Ok((Args(e, rest), m))
  {
    hide ReadExpr;
  }

  lemma LvalueIs(c: Context, i: int)
    requires 0 <= i && Ready(c, i) && 47 <= c.chart[i].rule <= 48
    ensures c.chart[i].rule == 47 ==>
              ReadLvalue(c, i) ==
              var (f, j) :- ReadFactor(c, i - 1);
              Unless(FactorType(c.env, f) != IntStar, PointerExpected, (Target(f), j))
    ensures c.chart[i].rule == 48 ==>
              ReadLvalue(c, i) == var (l, j) :- ReadLvalue(c, i - 1); Ok((Enclosed(l), j))
  {
    hide RuleAt, Find, Lhs, ReadFactor, FactorType;
    TheLvalueRules();
    FindHere(c.chart, LVALUE, i);
  }

  // ----- computed types and typing rules -----

  /** Where the parts are well-checked, an expression has no computed type exactly if it has none by the rules. */
  lemma ExprTypeIsRight(c: Context, e: Expr)
    requires TermIsSound(c, e.term) && (!e.JustTerm? ==> ExprIsSound(c, e.left))
    ensures ExprType(c.env, e) == Invalid <==> !HasType(c.env, e)
  {
    forall ty | ExprHasType(c.env, e, ty)
      ensures ExprType(c.env, e) == ty != Invalid
    {
      ExprTypeIsUnique(c.env, e, ty);
    }
    hide TermHasType, TermType, TermResolves, ExprResolves;
    var ty := ExprType(c.env, e);
    if ty != Invalid {
      assert ExprHasType(c.env, e, ty);
    }
  }

  /** An int or a pointer, by computation or by the rules. */
  lemma ExprHasItsType(c: Context, e: Expr, ty: DclType)
    requires ExprIsSound(c, e)
    ensures ExprType(c.env, e) == ty <==> ExprHasType(c.env, e, ty)
  {
    hide ExprType, ExprResolves;
    if ExprHasType(c.env, e, ty) {
      ExprTypeIsUnique(c.env, e, ty);
    }
  }

  lemma TermTypeIsRight(c: Context, t: Term)
    requires !t.JustFactor? && TermIsSound(c, t.left) && FactorIsSound(c, t.factor)
    ensures TermType(c.env, t) == Invalid <==> !TermHasType(c.env, t, Int)
  {
    if TermHasType(c.env, t, Int) {
      TermTypeIsUnique(c.env, t, Int);
    }
    hide FactorHasType, FactorType, FactorResolves, TermResolves;
    if TermType(c.env, t) != Invalid {
      assert TermHasType(c.env, t.left, Int) && FactorHasType(c.env, t.factor, Int);
    }
  }

  lemma FactorTypeIsRight(c: Context, f: Factor)
    requires FactorIsSound(c, f)
    ensures FactorType(c.env, f) == IntStar <==> FactorHasType(c.env, f, IntStar)
  {
    hide FactorType, FactorResolves;
    if FactorHasType(c.env, f, IntStar) {
      FactorTypeIsUnique(c.env, f, IntStar);
    }
  }

  lemma LvalueTypeIsRight(c: Context, l: Lvalue, ty: DclType)
    requires LvalueIsSound(c, l) && ty != Invalid
    ensures LvalueType(c.env, l) == ty <==> LvalueHasType(c.env, l, ty)
  {
    hide LvalueType, LvalueResolves;
    if LvalueHasType(c.env, l, ty) {
      LvalueTypeIsUnique(c.env, l, ty);
    }
  }

  // ----- expressions -----

  /** The reader gives the tree and stops above the chart xs, or the first fault. */
  ghost predicate Answers<T(!new)>(c: Context, r: Result<(T, int)>, faults: seq<ParseError>, tree: T, xs: seq<Elem>) {
    if faults == [] then Gives(c, r, tree, xs) else r == Err(faults[0])
  }

  /** From the items of an expression in which calls come first, the reader gives that expression if it is without
      fault, and its first fault if not. */
  lemma {:induction false} ExprIsAnswered(c: Context, i: int, xs: seq<Elem>, e: Expr, s: nat, k: seq<Elem>)
    requires Shows(c, i, xs + ExprItems(e, s, k)) && Lacks(k, EXPR) && Lacks(k, TERM)
    requires ExprSpelled(c.tokens, s, e) && ExprCallsFirst(e)
    ensures Ready(c, i) && Answers(c, ReadExpr(c, i), ExprFaults(c, e), e, xs + ExprResidue(e, s, k))
    decreases e
  {
    hide ReadExpr, ReadTerm, RuleAt, Lacks, Shows, TermItems, TermResidue, ExprYield, TermSpelled, TermFaults,
         ExprHasType, ExprType, TermIsSound;
    var top := Done(ExprRule(e), s);
    LacksTop(k, ExprRule(e), s);
    match e
    case JustTerm(t) =>
      var y := TermItems(t, s, [top] + k);
      assert xs + ExprItems(e, s, k) == (xs + y) + [top];
      TopShows(c, i, xs + y, 28, s);
      TermIsAnswered(c, i - 1, xs, t, s, [top] + k);
      TermAloneIs(c, i);
      if TermFaults(c, t) == [] {
        ReadTermIsSound(c, i - 1);
        ExprTypeIsRight(c, e);
      }
    case _ => SumIsAnswered(c, i, xs, e, s, k);
  }

  lemma {:induction false} SumIsAnswered(c: Context, i: int, xs: seq<Elem>, e: Expr, s: nat, k: seq<Elem>)
    requires !e.JustTerm? && Shows(c, i, xs + ExprItems(e, s, k)) && Lacks(k, EXPR) && Lacks(k, TERM)
    requires ExprSpelled(c.tokens, s, e) && ExprCallsFirst(e)
    ensures Ready(c, i) && Answers(c, ReadExpr(c, i), ExprFaults(c, e), e, xs + ExprResidue(e, s, k))
    decreases e, 0
  {
    hide ReadExpr, ReadTerm, RuleAt, Lacks, Shows, TermItems, TermResidue, ExprYield, TermSpelled, TermFaults,
         ExprHasType, ExprType, TermIsSound, ExprIsSound;
    var top, s' := Done(ExprRule(e), s), s + |ExprYield(e.left)| + 1;
    LacksTop(k, ExprRule(e), s);
    var l, t := ExprItems(e.left, s, k), TermItems(e.term, s', [top] + k);
    assert xs + ExprItems(e, s, k) == ((xs + l + k) + t) + [top];
    TopShows(c, i, (xs + l + k) + t, ExprRule(e), s);
    TermIsAnswered(c, i - 1, xs + l + k, e.term, s', [top] + k);
    TermOfSumIs(c, i, e);
    if TermFaults(c, e.term) == [] {
      ReadTermIsSound(c, i - 1);
      TermLeavesNothing(e.term, s', [top] + k);
      assert (xs + l + k) + [] == (xs + l) + k;
      SkipExpr(c, |xs + l + k| - 1, xs + l, k);
      ExprIsAnswered(c, |xs + l| - 1, xs, e.left, s, k);
      if ExprFaults(c, e.left) == [] {
        ReadExprIsSound(c, |xs + l| - 1);
        ExprTypeIsRight(c, e);
      }
    }
  }

  lemma {:induction false} TermIsAnswered(c: Context, i: int, xs: seq<Elem>, t: Term, s: nat, k: seq<Elem>)
    requires Shows(c, i, xs + TermItems(t, s, k)) && Lacks(k, TERM)
    requires TermSpelled(c.tokens, s, t) && TermCallsFirst(t)
    ensures Ready(c, i) && Answers(c, ReadTerm(c, i), TermFaults(c, t), t, xs + TermResidue(t, s, k))
    decreases t
  {
    hide ReadTerm, ReadFactor, RuleAt, Lacks, Shows, FactorItems, FactorResidue, TermYield, FactorSpelled,
         FactorFaults;
    var top := Done(TermRule(t), s);
    match t
    case JustFactor(f) =>
      var y := FactorItems(f, s, [top] + k);
      assert xs + TermItems(t, s, k) == (xs + y) + [top];
      TopShows(c, i, xs + y, 31, s);
      FactorIsAnswered(c, i - 1, xs, f, s, [top] + k);
      FactorAloneIs(c, i);
    case _ => ProductIsAnswered(c, i, xs, t, s, k);
  }

  lemma {:induction false} ProductIsAnswered(c: Context, i: int, xs: seq<Elem>, t: Term, s: nat, k: seq<Elem>)
    requires !t.JustFactor? && Shows(c, i, xs + TermItems(t, s, k)) && Lacks(k, TERM)
    requires TermSpelled(c.tokens, s, t) && TermCallsFirst(t)
    ensures Ready(c, i) && Answers(c, ReadTerm(c, i), TermFaults(c, t), t, xs + TermResidue(t, s, k))
    decreases t, 0
  {
    hide ReadTerm, ReadFactor, RuleAt, Lacks, Shows, FactorItems, FactorResidue, TermYield, FactorSpelled,
         FactorFaults, TermHasType, TermType, TermIsSound, FactorIsSound;
    var top, s' := Done(TermRule(t), s), s + |TermYield(t.left)| + 1;
    var l, f := TermItems(t.left, s, k), FactorItems(t.factor, s', [top] + k);
    assert xs + TermItems(t, s, k) == ((xs + l + k) + f) + [top];
    TopShows(c, i, (xs + l + k) + f, TermRule(t), s);
    FactorIsAnswered(c, i - 1, xs + l + k, t.factor, s', [top] + k);
    FactorOfProductIs(c, i, t);
    if FactorFaults(c, t.factor) == [] {
      ReadFactorIsSound(c, i - 1);
      FactorLeavesNothing(t.factor, s', [top] + k);
      assert (xs + l + k) + [] == (xs + l) + k;
      SkipTerm(c, |xs + l + k| - 1, xs + l, k);
      TermIsAnswered(c, |xs + l| - 1, xs, t.left, s, k);
      if TermFaults(c, t.left) == [] {
        ReadTermIsSound(c, |xs + l| - 1);
        TermTypeIsRight(c, t);
      }
    }
  }

  lemma {:induction false} FactorIsAnswered(c: Context, i: int, xs: seq<Elem>, f: Factor, s: nat, k: seq<Elem>)
    requires Shows(c, i, xs + FactorItems(f, s, k)) && FactorSpelled(c.tokens, s, f) && FactorCallsFirst(f)
    ensures Ready(c, i) && Answers(c, ReadFactor(c, i), FactorFaults(c, f), f, xs + FactorResidue(f, s, k))
    decreases f
  {
    hide ReadExpr, ReadFactor, ReadLvalue, RuleAt, Shows, ExprItems, ExprResidue, ExprSpelled, LvalueItems,
         LvalueResidue, LvalueSpelled, ArgsItems, ExprFaults, LvalueFaults, ExprHasType, LvalueHasType, ExprType,
         LvalueType, FactorType, ExprIsSound, LvalueIsSound, FactorIsSound;
    match f
    case Paren(e) =>
      var y := ExprItems(e, s + 1, []);
      assert xs + FactorItems(f, s, k) == (xs + y) + [Done(38, s)];
      TopShows(c, i, xs + y, 38, s);
      LacksNone();
      ExprIsAnswered(c, i - 1, xs, e, s + 1, []);
      ExprInFactorIs(c, i);
    case NewArray(e) =>
      var y := ExprItems(e, s + 3, []);
      assert xs + FactorItems(f, s, k) == (xs + y) + [Done(41, s)];
      TopShows(c, i, xs + y, 41, s);
      LacksNone();
      ExprIsAnswered(c, i - 1, xs, e, s + 3, []);
      ExprInFactorIs(c, i);
      if ExprFaults(c, e) == [] {
        ReadExprIsSound(c, i - 1);
        ExprHasItsType(c, e, Int);
      }
    case AddressOf(l) =>
      var k' := [Done(39, s)] + k;
      var y := LvalueItems(l, s + 1, k');
      assert xs + FactorItems(f, s, k) == (xs + y) + [Done(39, s)];
      TopShows(c, i, xs + y, 39, s);
      LvalueIsAnswered(c, i - 1, xs, l, s + 1, k');
      LvalueInFactorIs(c, i);
      if LvalueFaults(c, l) == [] {
        ReadLvalueIsSound(c, i - 1);
        LvalueTypeIsRight(c, l, Int);
      }
    case Deref(g) =>
      var k' := [Done(40, s)] + k;
      var y := FactorItems(g, s + 1, k');
      assert xs + FactorItems(f, s, k) == (xs + y) + [Done(40, s)];
      TopShows(c, i, xs + y, 40, s);
      FactorIsAnswered(c, i - 1, xs, g, s + 1, k');
      FactorInFactorIs(c, i);
      if FactorFaults(c, g) == [] {
        ReadFactorIsSound(c, i - 1);
        FactorTypeIsRight(c, g);
      }
    case Call(_, _) => CallIsAnswered(c, i, xs, f, s, k);
    case _ =>
      TopShows(c, i, xs, if f.Id? then 35 else if f.Num? then 36 else 37, s);
      LeafReadBack(c, i, xs, f, s, k);
  }

  lemma {:induction false} CallIsAnswered(c: Context, i: int, xs: seq<Elem>, f: Factor, s: nat, k: seq<Elem>)
    requires f.Call? && Shows(c, i, xs + FactorItems(f, s, k))
    requires FactorSpelled(c.tokens, s, f) && FactorCallsFirst(f)
    ensures Ready(c, i) && Answers(c, ReadFactor(c, i), FactorFaults(c, f), f, xs + FactorResidue(f, s, k))
    decreases f, 0
  {
    hide ReadFactor, ReadArglist, RuleAt, Shows, Lacks, ArgsItems, ArgsSpelled, CalleeFaults, ArityFaults;
    var args, name := f.args, [Done(35, s)] + k;
    assert xs + FactorResidue(f, s, k) == (xs + name) + ArgsResidue(args, s + 2, []);
    if args.NoArgs? {
      assert xs + FactorItems(f, s, k) == (xs + name) + [Done(42, s)];
      TopShows(c, i, xs + name, 42, s);
      CallIs(c, i, f.callee);
      assert (xs + name) + [] == xs + name;
    } else {
      var y := ArgsItems(args, s + 2, []);
      assert xs + FactorItems(f, s, k) == ((xs + name) + y) + [Done(43, s)];
      TopShows(c, i, (xs + name) + y, 43, s);
      LacksNone();
      ArgsAreAnswered(c, i - 1, xs + name, args, s + 2, []);
      CallIs(c, i, f.callee);
    }
  }

  lemma {:induction false} ArgsAreAnswered(c: Context, i: int, xs: seq<Elem>, args: Arglist, s: nat, k: seq<Elem>)
    requires args.Args? && Shows(c, i, xs + ArgsItems(args, s, k)) && Lacks(k, EXPR) && Lacks(k, TERM)
    requires ArgsSpelled(c.tokens, s, args) && ArgsCallsFirst(args)
    ensures Ready(c, i) && Answers(c, ReadArglist(c, i), ArgsFaults(c, args), args, xs + ArgsResidue(args, s, k))
    decreases args
  {
    hide ReadExpr, ReadArglist, RuleAt, Lacks, Shows, ExprItems, ExprResidue, ExprYield, ExprSpelled, ExprFaults;
    var e, rest, one := args.expr, args.rest, [Done(44, s)] + k;
    LacksTop(k, 44, s);
    var x := ExprItems(e, s, one);
    if rest.NoArgs? {
      assert xs + ArgsItems(args, s, k) == (xs + x) + [Done(44, s)];
      TopShows(c, i, xs + x, 44, s);
      ExprIsAnswered(c, i - 1, xs, e, s, one);
      LastArgIs(c, i);
      assert [] + ExprFaults(c, e) == ExprFaults(c, e);
    } else {
      var s', more := s + |ExprYield(e)| + 1, [Done(45, s)] + k;
      LacksTop(k, 45, s);
      var y := ArgsItems(rest, s', more);
      assert xs + ArgsItems(args, s, k) == ((xs + x + one) + y) + [Done(45, s)];
      TopShows(c, i, (xs + x + one) + y, 45, s);
      ArgsAreAnswered(c, i - 1, xs + x + one, rest, s', more);
      EarlierArgIs(c, i);
      if ArgsFaults(c, rest) == [] {
        ExprLeavesNothing(rest.expr, s', [Done(44, s')] + more);
        assert (xs + x + one) + [] == (xs + x) + one;
        SkipExpr(c, |xs + x + one| - 1, xs + x, one);
        ExprIsAnswered(c, |xs + x| - 1, xs, e, s, one);
      }
    }
  }

  lemma {:induction false} LvalueIsAnswered(c: Context, i: int, xs: seq<Elem>, l: Lvalue, s: nat, k: seq<Elem>)
    requires Shows(c, i, xs + LvalueItems(l, s, k)) && LvalueSpelled(c.tokens, s, l) && LvalueCallsFirst(l)
    ensures Ready(c, i) && Answers(c, ReadLvalue(c, i), LvalueFaults(c, l), l, xs + LvalueResidue(l, s, k))
    decreases l
  {
    hide ReadLvalue, ReadFactor, RuleAt, Shows, FactorItems, FactorResidue, FactorSpelled, FactorFaults, FactorHasType,
         FactorType, FactorIsSound;
    match l
    case Var(_) =>
      TopShows(c, i, xs, 46, s);
      LvalueStep(c, i, l, i - 1);
      assert xs + [] == xs;
    case Target(pointer) =>
      var k' := [Done(47, s)] + k;
      var x := FactorItems(pointer, s + 1, k');
      assert xs + LvalueItems(l, s, k) == (xs + x) + [Done(47, s)];
      TopShows(c, i, xs + x, 47, s);
      FactorIsAnswered(c, i - 1, xs, pointer, s + 1, k');
      LvalueIs(c, i);
      if FactorFaults(c, pointer) == [] {
        ReadFactorIsSound(c, i - 1);
        FactorTypeIsRight(c, pointer);
      }
    case Enclosed(inner) =>
      var x := LvalueItems(inner, s + 1, []);
      assert xs + LvalueItems(l, s, k) == (xs + x) + [Done(48, s)];
      TopShows(c, i, xs + x, 48, s);
      LvalueIsAnswered(c, i - 1, xs, inner, s + 1, []);
      LvalueIs(c, i);
  }
}
