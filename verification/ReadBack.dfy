/** Reading the items of a tree backward gives the tree back. */
module ReadBack {
  import opened Options
  import opened Symbols
  import opened Grammar
  import opened Earley
  import opened Wlp4Grammar
  import opened Tokens
  import opened Ast
  import opened Types
  import opened Yields
  import opened Items
  import opened Reading
  import opened Checking

  /** The chart up to item i is xs. */
  predicate Shows(c: Context, i: int, xs: seq<Elem>) {
    IsChart(c.chart) && |xs| == i + 1 && |xs| <= |c.chart| && c.chart[..|xs|] == xs
  }

  /** No item of xs has the left-hand side sym. */
  predicate Lacks(xs: seq<Elem>, sym: Symbol) {
    forall j :: 0 <= j < |xs| ==> xs[j].rule < 49 && RuleAt(xs[j].rule).lhs != sym
  }

  lemma TopShows(c: Context, i: int, xs: seq<Elem>, r: nat, s: nat)
    requires r < 49 && Shows(c, i, xs + [Done(r, s)])
    ensures 0 <= i == |xs| && Shows(c, i - 1, xs) && Ready(c, i) && c.chart[i] == Done(r, s)
  {
    hide RuleAt;
    assert c.chart[..i + 1][..i] == c.chart[..i];
    assert c.chart[i] == c.chart[..i + 1][i];
  }

  lemma {:induction false} SkipNoise(c: Context, i: int, xs: seq<Elem>, noise: seq<Elem>, sym: Symbol)
    requires Shows(c, i, xs + noise) && Lacks(noise, sym)
    ensures Shows(c, |xs| - 1, xs) && Find(c.chart, sym, i) == Find(c.chart, sym, |xs| - 1)
    decreases |noise|
  {
    hide RuleAt;
    assert c.chart[..i + 1][..|xs|] == c.chart[..|xs|];
    if noise != [] {
      var n := |noise| - 1;
      assert c.chart[i] == c.chart[..i + 1][i] == noise[n];
      assert c.chart[..i + 1][..i] == c.chart[..i] == xs + noise[..n];
      SkipNoise(c, i - 1, xs, noise[..n], sym);
    } else {
      assert xs + noise == xs;
    }
  }

  lemma SkipExpr(c: Context, i: int, xs: seq<Elem>, noise: seq<Elem>)
    requires Shows(c, i, xs + noise) && Lacks(noise, EXPR)
    ensures Shows(c, |xs| - 1, xs) && ReadExpr(c, i) == ReadExpr(c, |xs| - 1)
  {
    hide RuleAt, Lacks;
    SkipNoise(c, i, xs, noise, EXPR);
  }

  lemma SkipTerm(c: Context, i: int, xs: seq<Elem>, noise: seq<Elem>)
    requires Shows(c, i, xs + noise) && Lacks(noise, TERM)
    ensures Shows(c, |xs| - 1, xs) && ReadTerm(c, i) == ReadTerm(c, |xs| - 1)
  {
    hide RuleAt, Lacks;
    SkipNoise(c, i, xs, noise, TERM);
  }

  // ----- one step of the reader, by the rule of the item it is at -----

  lemma FindHere(chart: seq<Elem>, sym: Symbol, i: int)
    requires IsChart(chart) && 0 <= i < |chart| && RuleAt(chart[i].rule).lhs == sym
    ensures Find(chart, sym, i) == i
  {
    hide RuleAt;
  }

  lemma SumRule(e: Expr)
    requires !e.JustTerm?
    ensures RuleAt(ExprRule(e)) == Rule(EXPR, [EXPR, if e.Plus? then PLUS else MINUS, TERM])
  {
  }

  lemma ProductRule(t: Term)
    requires !t.JustFactor?
    ensures RuleAt(TermRule(t)) ==
            Rule(TERM, [TERM, if t.Times? then STAR else if t.Slash? then SLASH else PCT, FACTOR])
  {
  }

  lemma DerefRule()
    ensures RuleAt(40) == Rule(FACTOR, [STAR, FACTOR])
  {
  }

  lemma TermAlone(c: Context, i: int, t: Term, j: int)
    requires 0 <= i && Ready(c, i) && c.chart[i].rule == 28
    requires ReadTerm(c, i - 1) == Ok((t, j)) && TermType(c.env, t) != Invalid
    ensures ReadExpr(c, i) == Ok((JustTerm(t), j))
  {
    hide ReadTerm, TermType;
  }

  lemma TermOfSum(c: Context, i: int, e: Expr, j: int, m: int)
    requires 0 <= i && Ready(c, i) && !e.JustTerm? && c.chart[i].rule == ExprRule(e)
    requires ReadTerm(c, i - 1) == Ok((e.term, j)) && ReadExpr(c, j) == Ok((e.left, m)) && ExprType(c.env, e) != Invalid
    ensures ReadExpr(c, i) == Ok((e, m))
  {
    hide RuleAt, Find, Lhs, ReadTerm, ExprType, TermType;
    assert Find(c.chart, EXPR, i) == i &&
           RuleAt(c.chart[i].rule).rhs == [EXPR, if e.Plus? then PLUS else MINUS, TERM] by {
      SumRule(e);
      FindHere(c.chart, EXPR, i);
    }
  }

  lemma FactorAlone(c: Context, i: int, f: Factor, j: int)
    requires 0 <= i && Ready(c, i) && c.chart[i].rule == 31
    requires ReadFactor(c, i - 1) == Ok((f, j))
    ensures ReadTerm(c, i) == Ok((JustFactor(f), j))
  {
    hide ReadFactor;
  }

  lemma FactorOfProduct(c: Context, i: int, t: Term, j: int, m: int)
    requires 0 <= i && Ready(c, i) && !t.JustFactor? && c.chart[i].rule == TermRule(t)
    requires ReadFactor(c, i - 1) == Ok((t.factor, j)) && ReadTerm(c, j) == Ok((t.left, m)) &&
             TermType(c.env, t) != Invalid
    ensures ReadTerm(c, i) == Ok((t, m))
  {
    hide RuleAt, Find, Lhs, ReadFactor, TermType;
    assert Find(c.chart, TERM, i) == i && RuleAt(c.chart[i].rule) == RuleAt(TermRule(t)) by {
      ProductRule(t);
      FindHere(c.chart, TERM, i);
    }
    ProductRule(t);
  }

  lemma LeafStep(c: Context, i: int, f: Factor)
    requires 0 <= i && Ready(c, i) && FactorSpelled(c.tokens, c.chart[i].start, f)
    requires (f.Id? && c.chart[i].rule == 35) || (f.Num? && c.chart[i].rule == 36) ||
             (f.NullValue? && c.chart[i].rule == 37)
    ensures ReadFactor(c, i) == Ok((f, i - 1))
  {
    hide ReadExpr, ReadLvalue, ReadCall, ExprType, LvalueType, FactorType;
  }

  lemma ExprInFactor(c: Context, i: int, f: Factor, e: Expr, j: int)
    requires 0 <= i && Ready(c, i) && ReadExpr(c, i - 1) == Ok((e, j))
    requires (f == Paren(e) && c.chart[i].rule == 38) ||
             (f == NewArray(e) && c.chart[i].rule == 41 && ExprType(c.env, e) == Int)
    ensures ReadFactor(c, i) == Ok((f, j))
  {
    hide ReadExpr, ExprType;
  }

  lemma LvalueInFactor(c: Context, i: int, l: Lvalue, j: int)
    requires 0 <= i && Ready(c, i) && ReadLvalue(c, i - 1) == Ok((l, j))
    requires c.chart[i].rule == 39 && LvalueType(c.env, l) == Int
    ensures ReadFactor(c, i) == Ok((AddressOf(l), j))
  {
    hide ReadLvalue, LvalueType;
  }

  lemma FactorInFactor(c: Context, i: int, f: Factor, j: int)
    requires 0 <= i && Ready(c, i) && ReadFactor(c, i - 1) == Ok((f, j))
    requires c.chart[i].rule == 40 && FactorType(c.env, f) == IntStar
    ensures ReadFactor(c, i) == Ok((Deref(f), j))
  {
    hide RuleAt, Find, Lhs, FactorType, ReadLeaf, ReadCall, ReadExpr, ReadLvalue;
    assert Find(c.chart, FACTOR, i) == i && RuleAt(c.chart[i].rule).rhs == [STAR, FACTOR] by {
      DerefRule();
      FindHere(c.chart, FACTOR, i);
    }
  }

  lemma CallStep(c: Context, i: int, callee: string, args: Arglist, j: int)
    requires 0 <= i && Ready(c, i) && Spells(c.tokens, c.chart[i].start, callee) && Resolves(c, callee, args)
    requires (args.NoArgs? && c.chart[i].rule == 42 && j == i - 1) ||
             (args.Args? && c.chart[i].rule == 43 && ReadArglist(c, i - 1) == Ok((args, j)))
    ensures ReadFactor(c, i) == Ok((Call(callee, args), j))
  {
    hide ReadArglist, DeclaredInTime;
    assert ReadFactor(c, i) == ReadCall(c, i);
  }

  lemma LastArg(c: Context, i: int, e: Expr, j: int)
    requires 0 <= i && Ready(c, i) && c.chart[i].rule == 44 && ReadExpr(c, i - 1) == Ok((e, j))
    ensures ReadArglist(c, i) == Ok((Args(e, NoArgs), j))
  {
    hide ReadExpr;
  }

  lemma EarlierArg(c: Context, i: int, e: Expr, rest: Arglist, j: int, m: int)
    requires 0 <= i && Ready(c, i) && c.chart[i].rule == 45
    requires ReadArglist(c, i - 1) == Ok((rest, j)) && ReadExpr(c, j) == Ok((e, m))
    ensures ReadArglist(c, i) == Ok((Args(e, rest), m))
  {
    hide ReadExpr;
  }

  lemma TheLvalueRules()
    ensures RuleAt(46) == Rule(LVALUE, [ID])
    ensures RuleAt(47) == Rule(LVALUE, [STAR, FACTOR])
    ensures RuleAt(48) == Rule(LVALUE, [LPAREN, LVALUE, RPAREN])
  {
  }

  lemma LvalueStep(c: Context, i: int, l: Lvalue, j: int)
    requires 0 <= i && Ready(c, i)
    requires match l
             case Var(name) => c.chart[i].rule == 46 && Spells(c.tokens, c.chart[i].start, name) && j == i - 1
             case Target(f) =>
               c.chart[i].rule == 47 && ReadFactor(c, i - 1) == Ok((f, j)) && FactorType(c.env, f) == IntStar
             case Enclosed(inner) => c.chart[i].rule == 48 && ReadLvalue(c, i - 1) == Ok((inner, j))
    ensures ReadLvalue(c, i) == Ok((l, j))
  {
    hide RuleAt, Find, Lhs, ReadFactor, FactorType;
    TheLvalueRules();
    FindHere(c.chart, LVALUE, i);
  }

  /** One more item that a sum, a product or an argument completes. */
  lemma LacksTop(k: seq<Elem>, r: nat, s: nat)
    requires r < 49
    ensures 28 <= r <= 30 && Lacks(k, TERM) ==> Lacks([Done(r, s)] + k, TERM)
    ensures 44 <= r <= 45 && Lacks(k, TERM) && Lacks(k, EXPR) ==>
              Lacks([Done(r, s)] + k, TERM) && Lacks([Done(r, s)] + k, EXPR)
  {
  }

  // ----- no call first, nothing left behind -----

  lemma {:induction false} ExprLeavesNothing(e: Expr, s: nat, k: seq<Elem>)
    requires !ExprOpensWithCall(e)
    ensures ExprResidue(e, s, k) == []
  {
    match e
    case JustTerm(term) => TermLeavesNothing(term, s, [Done(28, s)] + k);
    case _ => ExprLeavesNothing(e.left, s, k);
  }

  lemma {:induction false} TermLeavesNothing(t: Term, s: nat, k: seq<Elem>)
    requires !TermOpensWithCall(t)
    ensures TermResidue(t, s, k) == []
  {
    match t
    case JustFactor(factor) => FactorLeavesNothing(factor, s, [Done(31, s)] + k);
    case _ => TermLeavesNothing(t.left, s, k);
  }

  lemma {:induction false} FactorLeavesNothing(f: Factor, s: nat, k: seq<Elem>)
    requires !FactorOpensWithCall(f)
    ensures FactorResidue(f, s, k) == []
  {
    match f
    case Paren(e) => ExprLeavesNothing(e, s + 1, []);
    case NewArray(size) => ExprLeavesNothing(size, s + 3, []);
    case AddressOf(lvalue) => LvalueLeavesNothing(lvalue, s + 1, [Done(39, s)] + k);
    case Deref(pointer) => FactorLeavesNothing(pointer, s + 1, [Done(40, s)] + k);
    case _ =>
  }

  lemma {:induction false} LvalueLeavesNothing(l: Lvalue, s: nat, k: seq<Elem>)
    requires !LvalueOpensWithCall(l)
    ensures LvalueResidue(l, s, k) == []
  {
    match l
    case Target(pointer) => FactorLeavesNothing(pointer, s + 1, [Done(47, s)] + k);
    case Enclosed(inner) => LvalueLeavesNothing(inner, s + 1, []);
    case _ =>
  }

  // ----- expressions -----

  /** The reader, at item i, gives the tree and stops above the chart xs. */
  ghost predicate Gives<T(!new)>(c: Context, r: Result<(T, int)>, tree: T, xs: seq<Elem>) {
    r == Ok((tree, |xs| - 1)) && Shows(c, |xs| - 1, xs)
  }

  lemma {:induction false} ExprReadBack(c: Context, i: int, xs: seq<Elem>, e: Expr, ty: DclType, s: nat, k: seq<Elem>)
    requires Shows(c, i, xs + ExprItems(e, s, k)) && Lacks(k, EXPR) && Lacks(k, TERM)
    requires ExprSpelled(c.tokens, s, e) && ExprCallsFirst(e) && ExprHasType(c.env, e, ty) && ExprResolves(c, e)
    ensures Gives(c, ReadExpr(c, i), e, xs + ExprResidue(e, s, k))
    decreases e
  {
    hide ReadExpr, ReadTerm, RuleAt, Lacks, Shows, TermItems, TermResidue, ExprType, TermType, TermHasType, ExprYield,
         TermSpelled;
    ExprTypeIsUnique(c.env, e, ty);
    var top := Done(ExprRule(e), s);
    LacksTop(k, ExprRule(e), s);
    match e
    case JustTerm(term) =>
      var t := TermItems(term, s, [top] + k);
      assert xs + ExprItems(e, s, k) == (xs + t) + [top];
      TopShows(c, i, xs + t, 28, s);
      TermReadBack(c, i - 1, xs, term, ty, s, [top] + k);
      TermTypeIsUnique(c.env, term, ty);
      TermAlone(c, i, term, ReadTerm(c, i - 1).value.1);
    case _ =>
      var tl, tt := OperandTypes(c.env, e, ty);
      SumReadBack(c, i, xs, e, tl, tt, s, k);
  }

  lemma {:induction false} SumReadBack(c: Context, i: int, xs: seq<Elem>, e: Expr, tl: DclType, tt: DclType, s: nat,
                                       k: seq<Elem>)
    requires !e.JustTerm? && Shows(c, i, xs + ExprItems(e, s, k)) && Lacks(k, EXPR) && Lacks(k, TERM)
    requires ExprSpelled(c.tokens, s, e) && ExprCallsFirst(e) && ExprResolves(c, e)
    requires ExprHasType(c.env, e.left, tl) && TermHasType(c.env, e.term, tt) && ExprType(c.env, e) != Invalid
    ensures Gives(c, ReadExpr(c, i), e, xs + ExprResidue(e, s, k))
    decreases e, 0
  {
    hide ReadExpr, ReadTerm, RuleAt, Lacks, Shows, TermItems, TermResidue, ExprType, TermType, TermHasType, ExprYield,
         TermSpelled;
    var top := Done(ExprRule(e), s);
    LacksTop(k, ExprRule(e), s);
    var s' := s + |ExprYield(e.left)| + 1;
    var l, t := ExprItems(e.left, s, k), TermItems(e.term, s', [top] + k);
    assert xs + ExprItems(e, s, k) == ((xs + l + k) + t) + [top];
    TopShows(c, i, (xs + l + k) + t, ExprRule(e), s);
    TermReadBack(c, i - 1, xs + l + k, e.term, tt, s', [top] + k);
    TermLeavesNothing(e.term, s', [top] + k);
    assert (xs + l + k) + [] == (xs + l) + k;
    SkipExpr(c, |xs + l + k| - 1, xs + l, k);
    ExprReadBack(c, |xs + l| - 1, xs, e.left, tl, s, k);
    TermOfSum(c, i, e, |xs + l + k| - 1, |xs + ExprResidue(e.left, s, k)| - 1);
  }

  lemma {:induction false} TermReadBack(c: Context, i: int, xs: seq<Elem>, t: Term, ty: DclType, s: nat, k: seq<Elem>)
    requires Shows(c, i, xs + TermItems(t, s, k)) && Lacks(k, TERM)
    requires TermSpelled(c.tokens, s, t) && TermCallsFirst(t) && TermHasType(c.env, t, ty) && TermResolves(c, t)
    ensures Gives(c, ReadTerm(c, i), t, xs + TermResidue(t, s, k))
    decreases t
  {
    hide ReadTerm, ReadFactor, RuleAt, Lacks, Shows, FactorItems, FactorResidue, FactorType, TermType, FactorHasType,
         TermYield, FactorSpelled;
    TermTypeIsUnique(c.env, t, ty);
    var top := Done(TermRule(t), s);
    match t
    case JustFactor(factor) =>
      var f := FactorItems(factor, s, [top] + k);
      assert xs + TermItems(t, s, k) == (xs + f) + [top];
      TopShows(c, i, xs + f, 31, s);
      FactorReadBack(c, i - 1, xs, factor, ty, s, [top] + k);
      FactorAlone(c, i, factor, ReadFactor(c, i - 1).value.1);
    case _ => ProductReadBack(c, i, xs, t, s, k);
  }

  lemma {:induction false} ProductReadBack(c: Context, i: int, xs: seq<Elem>, t: Term, s: nat, k: seq<Elem>)
    requires !t.JustFactor? && Shows(c, i, xs + TermItems(t, s, k)) && Lacks(k, TERM)
    requires TermSpelled(c.tokens, s, t) && TermCallsFirst(t) && TermHasType(c.env, t, Int) && TermResolves(c, t)
    ensures Gives(c, ReadTerm(c, i), t, xs + TermResidue(t, s, k))
    decreases t, 0
  {
    hide ReadTerm, ReadFactor, RuleAt, Lacks, Shows, FactorItems, FactorResidue, FactorType, TermType, FactorHasType,
         TermYield, FactorSpelled;
    TermTypeIsUnique(c.env, t, Int);
    var top := Done(TermRule(t), s);
    var s' := s + |TermYield(t.left)| + 1;
    var l, f := TermItems(t.left, s, k), FactorItems(t.factor, s', [top] + k);
    assert xs + TermItems(t, s, k) == ((xs + l + k) + f) + [top];
    TopShows(c, i, (xs + l + k) + f, TermRule(t), s);
    FactorReadBack(c, i - 1, xs + l + k, t.factor, Int, s', [top] + k);
    FactorLeavesNothing(t.factor, s', [top] + k);
    assert (xs + l + k) + [] == (xs + l) + k;
    SkipTerm(c, |xs + l + k| - 1, xs + l, k);
    TermReadBack(c, |xs + l| - 1, xs, t.left, Int, s, k);
    FactorOfProduct(c, i, t, |xs + l + k| - 1, |xs + TermResidue(t.left, s, k)| - 1);
  }

  lemma {:induction false} FactorReadBack(c: Context, i: int, xs: seq<Elem>, f: Factor, ty: DclType, s: nat,
                                          k: seq<Elem>)
    requires Shows(c, i, xs + FactorItems(f, s, k))
    requires FactorSpelled(c.tokens, s, f) && FactorCallsFirst(f) && FactorHasType(c.env, f, ty) && FactorResolves(c, f)
    ensures Gives(c, ReadFactor(c, i), f, xs + FactorResidue(f, s, k))
    decreases f
  {
    hide ReadExpr, ReadFactor, ReadLvalue, RuleAt, Shows, ExprItems, ExprResidue, ExprType, ExprHasType, ExprSpelled,
         LvalueItems, LvalueResidue, LvalueType, LvalueHasType, LvalueSpelled, FactorType, Resolves, ArgsHaveTypes,
         ArgsItems;
    match f
    case Id(_) => LeafReadBack(c, i, xs, f, s, k);
    case Num(_) => LeafReadBack(c, i, xs, f, s, k);
    case NullValue => LeafReadBack(c, i, xs, f, s, k);
    case Paren(e) =>
      var x := ExprItems(e, s + 1, []);
      assert xs + FactorItems(f, s, k) == (xs + x) + [Done(38, s)];
      TopShows(c, i, xs + x, 38, s);
      LacksNone();
      ExprReadBack(c, i - 1, xs, e, ty, s + 1, []);
      ExprInFactor(c, i, f, e, ReadExpr(c, i - 1).value.1);
    case NewArray(e) =>
      var x := ExprItems(e, s + 3, []);
      assert xs + FactorItems(f, s, k) == (xs + x) + [Done(41, s)];
      TopShows(c, i, xs + x, 41, s);
      LacksNone();
      ExprReadBack(c, i - 1, xs, e, Int, s + 3, []);
      ExprTypeIsUnique(c.env, e, Int);
      ExprInFactor(c, i, f, e, ReadExpr(c, i - 1).value.1);
    case AddressOf(l) =>
      var k' := [Done(39, s)] + k;
      var x := LvalueItems(l, s + 1, k');
      assert xs + FactorItems(f, s, k) == (xs + x) + [Done(39, s)];
      TopShows(c, i, xs + x, 39, s);
      LvalueReadBack(c, i - 1, xs, l, Int, s + 1, k');
      LvalueTypeIsUnique(c.env, l, Int);
      LvalueInFactor(c, i, l, ReadLvalue(c, i - 1).value.1);
    case Deref(g) =>
      var k' := [Done(40, s)] + k;
      var x := FactorItems(g, s + 1, k');
      assert xs + FactorItems(f, s, k) == (xs + x) + [Done(40, s)];
      TopShows(c, i, xs + x, 40, s);
      FactorReadBack(c, i - 1, xs, g, IntStar, s + 1, k');
      FactorTypeIsUnique(c.env, g, IntStar);
      FactorInFactor(c, i, g, ReadFactor(c, i - 1).value.1);
    case Call(_, _) => CallReadBack(c, i, xs, f, s, k);
  }

  lemma LeafReadBack(c: Context, i: int, xs: seq<Elem>, f: Factor, s: nat, k: seq<Elem>)
    requires (f.Id? || f.Num? || f.NullValue?) && Shows(c, i, xs + FactorItems(f, s, k)) &&
             FactorSpelled(c.tokens, s, f)
    ensures Gives(c, ReadFactor(c, i), f, xs + FactorResidue(f, s, k))
  {
    hide ReadFactor, RuleAt, Shows;
    TopShows(c, i, xs, if f.Id? then 35 else if f.Num? then 36 else 37, s);
    LeafStep(c, i, f);
    assert xs + [] == xs;
  }

  lemma {:induction false} CallReadBack(c: Context, i: int, xs: seq<Elem>, f: Factor, s: nat, k: seq<Elem>)
    requires f.Call? && Shows(c, i, xs + FactorItems(f, s, k))
    requires FactorSpelled(c.tokens, s, f) && FactorCallsFirst(f) && FactorHasType(c.env, f, Int) &&
             FactorResolves(c, f)
    ensures Gives(c, ReadFactor(c, i), f, xs + FactorResidue(f, s, k))
    decreases f, 0
  {
    hide ReadFactor, ReadArglist, RuleAt, Shows, Lacks, ArgsItems, Resolves, ArgsHaveTypes, ArgsResolve;
    var args := f.args;
    var name := [Done(35, s)] + k;
    assert xs + FactorResidue(f, s, k) == (xs + name) + ArgsResidue(args, s + 2, []);
    if args.NoArgs? {
      assert xs + FactorItems(f, s, k) == (xs + name) + [Done(42, s)];
      TopShows(c, i, xs + name, 42, s);
      CallStep(c, i, f.callee, args, i - 1);
      assert (xs + name) + [] == xs + name;
    } else {
      var x := ArgsItems(args, s + 2, []);
      assert xs + FactorItems(f, s, k) == ((xs + name) + x) + [Done(43, s)];
      TopShows(c, i, (xs + name) + x, 43, s);
      LacksNone();
      ArgsReadBack(c, i - 1, xs + name, args, s + 2, []);
      CallStep(c, i, f.callee, args, ReadArglist(c, i - 1).value.1);
    }
  }

  lemma LacksNone()
    ensures Lacks([], EXPR) && Lacks([], TERM)
  {
  }

  lemma {:induction false} ArgsReadBack(c: Context, i: int, xs: seq<Elem>, args: Arglist, s: nat, k: seq<Elem>)
    requires args.Args? && Shows(c, i, xs + ArgsItems(args, s, k)) && Lacks(k, EXPR) && Lacks(k, TERM)
    requires ArgsSpelled(c.tokens, s, args) && ArgsCallsFirst(args) && ArgsHaveTypes(c.env, args) &&
             ArgsResolve(c, args)
    ensures Gives(c, ReadArglist(c, i), args, xs + ArgsResidue(args, s, k))
    decreases args
  {
    hide ReadExpr, ReadArglist, RuleAt, Lacks, Shows, ExprItems, ExprResidue, ExprHasType, ExprYield, ExprSpelled;
    var e, rest := args.expr, args.rest;
    var ty := if ExprHasType(c.env, e, Int) then Int else IntStar;
    var one := [Done(44, s)] + k;
    LacksTop(k, 44, s);
    var x := ExprItems(e, s, one);
    if rest.NoArgs? {
      assert xs + ArgsItems(args, s, k) == (xs + x) + [Done(44, s)];
      TopShows(c, i, xs + x, 44, s);
      ExprReadBack(c, i - 1, xs, e, ty, s, one);
      LastArg(c, i, e, ReadExpr(c, i - 1).value.1);
    } else {
      var s', more := s + |ExprYield(e)| + 1, [Done(45, s)] + k;
      LacksTop(k, 45, s);
      var y := ArgsItems(rest, s', more);
      assert xs + ArgsItems(args, s, k) == ((xs + x + one) + y) + [Done(45, s)];
      TopShows(c, i, (xs + x + one) + y, 45, s);
      ArgsReadBack(c, i - 1, xs + x + one, rest, s', more);
      ExprLeavesNothing(rest.expr, s', [Done(44, s')] + more);
      assert (xs + x + one) + [] == (xs + x) + one;
      SkipExpr(c, |xs + x + one| - 1, xs + x, one);
      ExprReadBack(c, |xs + x| - 1, xs, e, ty, s, one);
      EarlierArg(c, i, e, rest, |xs + x + one| - 1, |xs + ExprResidue(e, s, one)| - 1);
    }
  }

  lemma {:induction false} LvalueReadBack(c: Context, i: int, xs: seq<Elem>, l: Lvalue, ty: DclType, s: nat,
                                          k: seq<Elem>)
    requires Shows(c, i, xs + LvalueItems(l, s, k))
    requires LvalueSpelled(c.tokens, s, l) && LvalueCallsFirst(l) && LvalueHasType(c.env, l, ty) && LvalueResolves(c, l)
    ensures Gives(c, ReadLvalue(c, i), l, xs + LvalueResidue(l, s, k))
    decreases l
  {
    hide ReadLvalue, ReadFactor, RuleAt, Shows, FactorItems, FactorResidue, FactorType, FactorHasType, FactorSpelled;
    match l
    case Var(_) =>
      TopShows(c, i, xs, 46, s);
      LvalueStep(c, i, l, i - 1);
      assert xs + [] == xs;
    case Target(pointer) =>
      var k' := [Done(47, s)] + k;
      var x := FactorItems(pointer, s + 1, k');
      assert xs + LvalueItems(l, s, k) == (xs + x) + [Done(47, s)];
      TopShows(c, i, xs + x, 47, s);
      FactorReadBack(c, i - 1, xs, pointer, IntStar, s + 1, k');
      FactorTypeIsUnique(c.env, pointer, IntStar);
      LvalueStep(c, i, l, ReadFactor(c, i - 1).value.1);
    case Enclosed(inner) =>
      var x := LvalueItems(inner, s + 1, []);
      assert xs + LvalueItems(l, s, k) == (xs + x) + [Done(48, s)];
      TopShows(c, i, xs + x, 48, s);
      LvalueReadBack(c, i - 1, xs, inner, ty, s + 1, []);
      LvalueStep(c, i, l, ReadLvalue(c, i - 1).value.1);
  }
}
