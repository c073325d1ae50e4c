/** Reading the items of statements backward gives the statements back, in source order, branch by branch. */
module ReadStatements {
  import opened Options
  import opened Symbols
  import opened Grammar
  import opened Earley
  import opened Wlp4Grammar
  import opened Tokens
  import opened Ast
  import opened Types
  import opened Yields
  import opened Items
  import opened Reading
  import opened Checking
  import opened ReadBack

  // ----- what an expression leaves behind is skipped by whatever is read next in other statements -----

  /** A left-hand side that is not completed on the way from a name to an operand. */
  predicate IsOutside(sym: Symbol) {
    sym !in {EXPR, TERM, FACTOR, ARGLIST}
  }

  lemma LacksLevel(k: seq<Elem>, r: nat, s: nat, sym: Symbol)
    requires (28 <= r <= 31 || 32 <= r <= 35 || r == 44) && Lacks(k, sym) && IsOutside(sym)
    ensures Lacks([Done(r, s)] + k, sym)
  {
  }

  lemma {:induction false} ExprResidueLacks(env: TypeEnv, e: Expr, ty: DclType, s: nat, k: seq<Elem>, sym: Symbol)
    requires ExprHasType(env, e, ty) && Lacks(k, sym) && IsOutside(sym)
    ensures Lacks(ExprResidue(e, s, k), sym)
    decreases e
  {
    hide Lacks, RuleAt, TermHasType, TermResidue;
    match e
    case JustTerm(term) =>
      LacksLevel(k, 28, s, sym);
      TermResidueLacks(env, term, ty, s, [Done(28, s)] + k, sym);
    case _ =>
      var tl, tt := OperandTypes(env, e, ty);
      ExprResidueLacks(env, e.left, tl, s, k, sym);
  }

  lemma {:induction false} TermResidueLacks(env: TypeEnv, t: Term, ty: DclType, s: nat, k: seq<Elem>, sym: Symbol)
    requires TermHasType(env, t, ty) && Lacks(k, sym) && IsOutside(sym)
    ensures Lacks(TermResidue(t, s, k), sym)
    decreases t
  {
    hide Lacks, RuleAt, FactorHasType, FactorResidue;
    match t
    case JustFactor(factor) =>
      LacksLevel(k, 31, s, sym);
      FactorResidueLacks(env, factor, ty, s, [Done(31, s)] + k, sym);
    case _ => TermResidueLacks(env, t.left, Int, s, k, sym);
  }

  lemma {:induction false} FactorResidueLacks(env: TypeEnv, f: Factor, ty: DclType, s: nat, k: seq<Elem>, sym: Symbol)
    requires FactorHasType(env, f, ty) && (f.Call? ==> Lacks(k, sym)) && IsOutside(sym)
    ensures Lacks(FactorResidue(f, s, k), sym)
    decreases f
  {
    hide RuleAt, ExprHasType, ExprResidue, LvalueHasType, LvalueResidue;
    match f
    case Paren(e) => ExprResidueLacks(env, e, ty, s + 1, [], sym);
    case NewArray(e) => ExprResidueLacks(env, e, Int, s + 3, [], sym);
    case AddressOf(l) => LvalueResidueLacks(env, l, Int, s + 1, [Done(39, s)] + k, sym);
    case Deref(g) => FactorResidueLacks(env, g, IntStar, s + 1, [Done(40, s)] + k, sym);
    case Call(_, args) =>
      LacksLevel(k, 35, s, sym);
      if args.Args? {
        var e := args.expr;
        LacksLevel([], 44, s + 2, sym);
        assert [Done(44, s + 2)] + [] == [Done(44, s + 2)];
        ExprResidueLacks(env, e, if ExprHasType(env, e, Int) then Int else IntStar, s + 2, [Done(44, s + 2)], sym);
      }
    case _ =>
  }

  lemma {:induction false} LvalueResidueLacks(env: TypeEnv, l: Lvalue, ty: DclType, s: nat, k: seq<Elem>, sym: Symbol)
    requires LvalueHasType(env, l, ty) && IsOutside(sym)
    ensures Lacks(LvalueResidue(l, s, k), sym)
    decreases l
  {
    hide RuleAt, FactorResidue;
    match l
    case Var(_) =>
    case Target(pointer) => FactorResidueLacks(env, pointer, IntStar, s + 1, [Done(47, s)] + k, sym);
    case Enclosed(inner) => LvalueResidueLacks(env, inner, ty, s + 1, [], sym);
  }

  lemma StatementResidueLacks(env: TypeEnv, st: Statement, s: nat, sym: Symbol)
    requires StatementIsTyped(env, st) && IsOutside(sym)
    ensures Lacks(StatementResidue(st, s), sym)
  {
    hide ExprHasType, LvalueHasType, ExprResidue, LvalueResidue;
    match st
    case Assign(l, e) => LvalueResidueLacks(env, l, if LvalueHasType(env, l, Int) then Int else IntStar, s, [], sym);
    case If(t, _, _) =>
      ExprResidueLacks(env, t.left, if ExprHasType(env, t.left, Int) then Int else IntStar, s + 2, [], sym);
    case While(t, _) =>
      ExprResidueLacks(env, t.left, if ExprHasType(env, t.left, Int) then Int else IntStar, s + 2, [], sym);
    case Println(e) => ExprResidueLacks(env, e, Int, s + 2, [], sym);
    case Delete(e) => ExprResidueLacks(env, e, IntStar, s + 3, [], sym);
  }

  lemma SkipLvalue(c: Context, i: int, xs: seq<Elem>, noise: seq<Elem>)
    requires Shows(c, i, xs + noise) && Lacks(noise, LVALUE)
    ensures Shows(c, |xs| - 1, xs) && ReadLvalue(c, i) == ReadLvalue(c, |xs| - 1)
  {
    hide RuleAt, Lacks;
    SkipNoise(c, i, xs, noise, LVALUE);
  }

  lemma SkipBody(c: Context, i: int, xs: seq<Elem>, noise: seq<Elem>)
    requires Shows(c, i, xs + noise) && Lacks(noise, STATEMENTS)
    ensures Shows(c, |xs| - 1, xs) && ReadBody(c, i) == ReadBody(c, |xs| - 1)
  {
    hide RuleAt, Lacks, ReadStatement;
    SkipNoise(c, i, xs, noise, STATEMENTS);
  }

  // ----- one step of the reader -----

  lemma TestStep(c: Context, i: int, t: Test, j: int, m: int)
    requires 0 <= i && Ready(c, i) && IsComparison(t.op) && c.chart[i].rule == TestRule(t.op)
    requires ReadExpr(c, i - 1) == Ok((t.right, j)) && ReadExpr(c, j) == Ok((t.left, m))
    requires ExprType(c.env, t.left) == ExprType(c.env, t.right)
    ensures ReadTest(c, i) == Ok((t, m))
  {
    hide ReadExpr, ExprType;
    assert RuleAt(TestRule(t.op)) == Rule(TEST, [EXPR, t.op, EXPR]);
    assert Find(c.chart, TEST, i) == i;
  }

  lemma EmptyStep(c: Context, i: int)
    requires 0 <= i && Ready(c, i) && c.chart[i].rule == 15
    ensures ReadBody(c, i) == Ok(([], i - 1))
  {
    hide ReadStatement;
  }

  lemma BodyStep(c: Context, i: int, st: Statement, front: seq<Statement>, j: int, m: int)
    requires 0 <= i && Ready(c, i) && c.chart[i].rule == 16
    requires ReadStatement(c, i - 1) == Ok((st, j)) && ReadBody(c, j) == Ok((front, m))
    ensures ReadBody(c, i) == Ok((front + [st], m))
  {
    hide ReadStatement, RuleAt, Find, Lhs;
    assert Find(c.chart, STATEMENTS, i) == i && RuleAt(c.chart[i].rule).rhs != [] by {
      assert RuleAt(16) == Rule(STATEMENTS, [STATEMENTS, STATEMENT]) by { TheStatementRules(); }
      FindHere(c.chart, STATEMENTS, i);
    }
  }

  lemma TheStatementRules()
    ensures RuleAt(16) == Rule(STATEMENTS, [STATEMENTS, STATEMENT])
    ensures RuleAt(17).lhs == STATEMENT && |RuleAt(17).rhs| > 0 && RuleAt(17).rhs[0] == LVALUE
    ensures RuleAt(18).lhs == STATEMENT && |RuleAt(18).rhs| > 0 && RuleAt(18).rhs[0] == IF
    ensures RuleAt(19).lhs == STATEMENT && |RuleAt(19).rhs| > 0 && RuleAt(19).rhs[0] == WHILE
    ensures RuleAt(20).lhs == STATEMENT && |RuleAt(20).rhs| > 0 && RuleAt(20).rhs[0] == PRINTLN
    ensures RuleAt(21).lhs == STATEMENT && |RuleAt(21).rhs| > 0 && RuleAt(21).rhs[0] == DELETE
  {
  }

  lemma ExprInStatement(c: Context, i: int, st: Statement, e: Expr, j: int)
    requires 0 <= i && Ready(c, i) && ReadExpr(c, i - 1) == Ok((e, j))
    requires (st == Println(e) && c.chart[i].rule == 20 && ExprType(c.env, e) == Int) ||
             (st == Delete(e) && c.chart[i].rule == 21 && ExprType(c.env, e) == IntStar)
    ensures ReadStatement(c, i) == Ok((st, j))
  {
    TheStatementRules();
    hide RuleAt, ReadExpr, ReadLvalue, ReadBody, ReadTest, ExprType;
    assert Find(c.chart, STATEMENT, i) == i;
  }

  lemma AssignStep(c: Context, i: int, l: Lvalue, e: Expr, j: int, m: int)
    requires 0 <= i && Ready(c, i) && c.chart[i].rule == 17
    requires ReadExpr(c, i - 1) == Ok((e, j)) && ReadLvalue(c, j) == Ok((l, m))
    requires ExprType(c.env, e) == LvalueType(c.env, l)
    ensures ReadStatement(c, i) == Ok((Assign(l, e), m))
  {
    TheStatementRules();
    hide RuleAt, ReadExpr, ReadLvalue, ReadBody, ReadTest, ExprType, LvalueType;
    assert Find(c.chart, STATEMENT, i) == i;
  }

  lemma IfStep(c: Context, i: int, t: Test, onTrue: seq<Statement>, onFalse: seq<Statement>, j: int, m: int, n: int)
    requires 0 <= i && Ready(c, i) && c.chart[i].rule == 18
    requires ReadBody(c, i - 1) == Ok((onFalse, j)) && ReadBody(c, j) == Ok((onTrue, m)) && ReadTest(c, m) == Ok((t, n))
    ensures ReadStatement(c, i) == Ok((If(t, onTrue, onFalse), n))
  {
    TheStatementRules();
    hide RuleAt, ReadExpr, ReadLvalue, ReadBody, ReadTest;
    assert Find(c.chart, STATEMENT, i) == i;
  }

  lemma WhileStep(c: Context, i: int, t: Test, body: seq<Statement>, j: int, m: int)
    requires 0 <= i && Ready(c, i) && c.chart[i].rule == 19
    requires ReadBody(c, i - 1) == Ok((body, j)) && ReadTest(c, j) == Ok((t, m))
    ensures ReadStatement(c, i) == Ok((While(t, body), m))
  {
    TheStatementRules();
    hide RuleAt, ReadExpr, ReadLvalue, ReadBody, ReadTest;
    assert Find(c.chart, STATEMENT, i) == i;
  }

  // ----- statements -----

  lemma TestReadBack(c: Context, i: int, xs: seq<Elem>, t: Test, s: nat)
    requires Shows(c, i, xs + TestItems(t, s)) && TestSpelled(c.tokens, s, t) && TestCallsFirst(t)
    requires TestIsTyped(c.env, t) && TestResolves(c, t)
    ensures Gives(c, ReadTest(c, i), t, xs + ExprResidue(t.left, s, []))
  {
    hide ReadExpr, ReadTest, RuleAt, Shows, Lacks, ExprItems, ExprResidue, ExprType, ExprHasType, ExprYield,
         ExprSpelled, ExprCallsFirst, ExprResolves, ExprOpensWithCall;
    var ty := if ExprHasType(c.env, t.left, Int) && ExprHasType(c.env, t.right, Int) then Int else IntStar;
    var r, s' := TestRule(t.op), s + |ExprYield(t.left)| + 1;
    var x, y := ExprItems(t.left, s, []), ExprItems(t.right, s', [Done(r, s)]);
    assert xs + TestItems(t, s) == ((xs + x) + y) + [Done(r, s)];
    TopShows(c, i, (xs + x) + y, r, s);
    LacksTest(r, s);
    LacksNone();
    ExprReadBack(c, i - 1, xs + x, t.right, ty, s', [Done(r, s)]);
    ExprLeavesNothing(t.right, s', [Done(r, s)]);
    assert (xs + x) + [] == xs + x;
    ExprReadBack(c, |xs + x| - 1, xs, t.left, ty, s, []);
    ExprTypeIsUnique(c.env, t.left, ty);
    ExprTypeIsUnique(c.env, t.right, ty);
    TestStep(c, i, t, |xs + x| - 1, |xs + ExprResidue(t.left, s, [])| - 1);
  }

  lemma LacksTest(r: nat, s: nat)
    requires 22 <= r <= 27
    ensures Lacks([Done(r, s)], EXPR) && Lacks([Done(r, s)], TERM)
  {
  }

  /** Statements that are spelled by the tokens and checked, with calls first. */
  ghost predicate StatementIsReadable(c: Context, s: nat, st: Statement) {
    StatementSpelled(c.tokens, s, st) && StatementCallsFirst(st) && StatementIsSound(c, st)
  }

  ghost predicate BodyIsReadable(c: Context, s: nat, stmts: seq<Statement>) {
    && BodySpelled(c.tokens, s, stmts)
    && (forall i :: 0 <= i < |stmts| ==> StatementCallsFirst(stmts[i]))
    && BodyIsSound(c, stmts)
  }

  lemma AssignReadBack(c: Context, i: int, xs: seq<Elem>, l: Lvalue, e: Expr, s: nat)
    requires Shows(c, i, xs + StatementItems(Assign(l, e), s)) && StatementIsReadable(c, s, Assign(l, e))
    ensures Gives(c, ReadStatement(c, i), Assign(l, e), xs + LvalueResidue(l, s, []))
  {
    hide ReadExpr, ReadLvalue, ReadStatement, RuleAt, Shows, Lacks, ExprItems, ExprResidue, ExprType, ExprHasType,
         ExprSpelled, ExprCallsFirst, ExprResolves, LvalueItems, LvalueResidue, LvalueType, LvalueHasType, LvalueYield,
         LvalueSpelled, LvalueCallsFirst, LvalueResolves;
    var ty := if ExprHasType(c.env, e, Int) && LvalueHasType(c.env, l, Int) then Int else IntStar;
    var s' := s + |LvalueYield(l)| + 1;
    var x, y := LvalueItems(l, s, []), ExprItems(e, s', []);
    assert xs + StatementItems(Assign(l, e), s) == ((xs + x) + y) + [Done(17, s)];
    TopShows(c, i, (xs + x) + y, 17, s);
    LacksNone();
    ExprReadBack(c, i - 1, xs + x, e, ty, s', []);
    var residue := ExprResidue(e, s', []);
    NoneLacks(LVALUE);
    ExprResidueLacks(c.env, e, ty, s', [], LVALUE);
    SkipLvalue(c, |xs + x + residue| - 1, xs + x, residue);
    LvalueReadBack(c, |xs + x| - 1, xs, l, ty, s, []);
    ExprTypeIsUnique(c.env, e, ty);
    LvalueTypeIsUnique(c.env, l, ty);
    AssignStep(c, i, l, e, |xs + x + residue| - 1, |xs + LvalueResidue(l, s, [])| - 1);
  }

  lemma NoneLacks(sym: Symbol)
    ensures Lacks([], sym)
  {
  }

  lemma SimpleReadBack(c: Context, i: int, xs: seq<Elem>, st: Statement, s: nat)
    requires (st.Println? || st.Delete?) && Shows(c, i, xs + StatementItems(st, s)) && StatementIsReadable(c, s, st)
    ensures Gives(c, ReadStatement(c, i), st, xs + StatementResidue(st, s))
  {
    hide ReadExpr, ReadStatement, RuleAt, Shows, Lacks, ExprItems, ExprResidue, ExprType, ExprHasType, ExprSpelled,
         ExprCallsFirst, ExprResolves;
    var e, ty := st.expr, if st.Println? then Int else IntStar;
    var r, s' := if st.Println? then 20 else 21, if st.Println? then s + 2 else s + 3;
    var x := ExprItems(e, s', []);
    assert xs + StatementItems(st, s) == (xs + x) + [Done(r, s)];
    TopShows(c, i, xs + x, r, s);
    LacksNone();
    ExprReadBack(c, i - 1, xs, e, ty, s', []);
    ExprTypeIsUnique(c.env, e, ty);
    ExprInStatement(c, i, st, e, |xs + ExprResidue(e, s', [])| - 1);
  }

  lemma {:induction false} StatementReadBack(c: Context, i: int, xs: seq<Elem>, st: Statement, s: nat)
    requires Shows(c, i, xs + StatementItems(st, s)) && StatementIsReadable(c, s, st)
    ensures Gives(c, ReadStatement(c, i), st, xs + StatementResidue(st, s))
    decreases st, 0
  {
    hide ReadBody, ReadTest, ReadStatement, RuleAt, Shows, ExprResidue, TestItems, BodyItems, TestYield, BodyYield,
         TestSpelled, BodySpelled, TestCallsFirst, TestResolves, TestIsTyped;
    match st
    case If(t, onTrue, onFalse) =>
      var s1 := s + |TestYield(t)| + 4;
      var s2 := s1 + |BodyYield(onTrue)| + 3;
      var x, y, z := TestItems(t, s + 2), BodyItems(onTrue, s1), BodyItems(onFalse, s2);
      assert xs + StatementItems(st, s) == (((xs + x) + y) + z) + [Done(18, s)];
      TopShows(c, i, ((xs + x) + y) + z, 18, s);
      BodyReadBack(c, i - 1, (xs + x) + y, onFalse, s2);
      BodyReadBack(c, |xs + x + y| - 1, xs + x, onTrue, s1);
      TestReadBack(c, |xs + x| - 1, xs, t, s + 2);
      IfStep(c, i, t, onTrue, onFalse, |xs + x + y| - 1, |xs + x| - 1, |xs + ExprResidue(t.left, s + 2, [])| - 1);
    case While(t, body) =>
      var s1 := s + |TestYield(t)| + 4;
      var x, y := TestItems(t, s + 2), BodyItems(body, s1);
      assert xs + StatementItems(st, s) == ((xs + x) + y) + [Done(19, s)];
      TopShows(c, i, (xs + x) + y, 19, s);
      BodyReadBack(c, i - 1, xs + x, body, s1);
      TestReadBack(c, |xs + x| - 1, xs, t, s + 2);
      WhileStep(c, i, t, body, |xs + x| - 1, |xs + ExprResidue(t.left, s + 2, [])| - 1);
    case Assign(l, e) => AssignReadBack(c, i, xs, l, e, s);
    case _ => SimpleReadBack(c, i, xs, st, s);
  }

  lemma {:induction false} BodyReadBack(c: Context, i: int, xs: seq<Elem>, stmts: seq<Statement>, s: nat)
    requires Shows(c, i, xs + BodyItems(stmts, s)) && BodyIsReadable(c, s, stmts)
    ensures Gives(c, ReadBody(c, i), stmts, xs)
    decreases stmts, 1
  {
    hide ReadBody, ReadStatement, RuleAt, Shows, Lacks, StatementItems, StatementResidue, StatementIsTyped,
         StatementResolves, StatementSpelled, StatementCallsFirst, StatementYield;
    if stmts == [] {
      TopShows(c, i, xs, 15, s);
      EmptyStep(c, i);
    } else {
      var front, last := stmts[..|stmts| - 1], stmts[|stmts| - 1];
      var s' := s + |BodyYield(front)|;
      var x, y := BodyItems(front, s), StatementItems(last, s');
      assert xs + BodyItems(stmts, s) == ((xs + x) + y) + [Done(16, s)];
      TopShows(c, i, (xs + x) + y, 16, s);
      StatementReadBack(c, i - 1, xs + x, last, s');
      var residue := StatementResidue(last, s');
      StatementResidueLacks(c.env, last, s', STATEMENTS);
      SkipBody(c, |xs + x + residue| - 1, xs + x, residue);
      BodyReadBack(c, |xs + x| - 1, xs, front, s);
      assert stmts == front + [last];
      BodyStep(c, i, last, front, |xs + x + residue| - 1, |xs| - 1);
    }
  }

  lemma LastStatementIs(c: Context, i: int)
    requires 0 <= i && Ready(c, i) && c.chart[i].rule == 16
    ensures ReadBody(c, i) ==
            var (st, j) :- ReadStatement(c, i - 1);
            var (front, m) :- ReadBody(c, j);
            Ok((front + [st], m))
  {
    TheStatementRules();
    hide RuleAt, ReadStatement, Find, Lhs;
    FindHere(c.chart, STATEMENTS, i);
  }
}
