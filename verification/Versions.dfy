/** What is read from the items of any statements, calls first or not: as many of the same kinds, in the same order,
    with those in which calls come first unchanged. */
module Versions {
  import opened Options
  import opened Symbols
  import opened Grammar
  import opened Earley
  import opened Wlp4Grammar
  import opened Tokens
  import opened Ast
  import opened Types
  import opened Yields
  import opened Items
  import opened Reading
  import opened Checking
  import opened ReadBack
  import opened ReadStatements
  import opened Staying
  import opened Faults
  import opened Refusals

  /** The two are statements of the same kind, with bodies that are alike. */
  predicate IsAlike(st: Statement, st': Statement)
    decreases st, 0
  {
    match st
    case Assign(_, _) => st'.Assign?
    case If(_, onTrue, onFalse) => st'.If? && AreAlike(onTrue, st'.onTrue) && AreAlike(onFalse, st'.onFalse)
    case While(_, body) => st'.While? && AreAlike(body, st'.body)
    case Println(_) => st'.Println?
    case Delete(_) => st'.Delete?
  }

  /** The second statement is what the first one is read as: of its kind, and the same if calls come first in it. */
  predicate IsVersion(st: Statement, st': Statement)
    decreases st, 1
  {
    IsAlike(st, st') && (StatementCallsFirst(st) ==> st' == st)
  }

  predicate AreAlike(stmts: seq<Statement>, stmts': seq<Statement>)
    decreases stmts, 2
  {
    |stmts| == |stmts'| && forall i :: 0 <= i < |stmts| ==> IsVersion(stmts[i], stmts'[i])
  }

  lemma AllTheSame(stmts: seq<Statement>, stmts': seq<Statement>)
    requires AreAlike(stmts, stmts') && forall i :: 0 <= i < |stmts| ==> StatementCallsFirst(stmts[i])
    ensures stmts' == stmts
  {
    hide IsAlike, StatementCallsFirst;
    assert forall i :: 0 <= i < |stmts| ==> IsVersion(stmts[i], stmts'[i]);
  }

  // ----- one step of the reader -----

  lemma TestIs(c: Context, i: int, op: Symbol)
    requires 0 <= i && Ready(c, i) && IsComparison(op) && c.chart[i].rule == TestRule(op)
    ensures ReadTest(c, i) ==
            var (right, j) :- ReadExpr(c, i - 1);
            var (left, m) :- ReadExpr(c, j);
            Unless(ExprType(c.env, right) != ExprType(c.env, left), DifferentTypes, (Test(op, left, right), m))
  {
    hide ReadExpr, ExprType;
    assert RuleAt(TestRule(op)) == Rule(TEST, [EXPR, op, EXPR]);
    assert Find(c.chart, TEST, i) == i;
  }

  lemma SimpleIs(c: Context, i: int)
    requires 0 <= i && Ready(c, i) && (c.chart[i].rule == 20 || c.chart[i].rule == 21)
    ensures ReadStatement(c, i) ==
            var (e, j) :- ReadExpr(c, i - 1);
            if c.chart[i].rule == 20 then Unless(ExprType(c.env, e) != Int, IntExpected, (Println(e), j))
            else Unless(ExprType(c.env, e) != IntStar, PointerExpected, (Delete(e), j))
  {
    TheStatementRules();
    hide RuleAt, ReadExpr, ReadLvalue, ReadBody, ReadTest, ExprType;
    assert Find(c.chart, STATEMENT, i) == i;
  }

  lemma AssignIs(c: Context, i: int)
    requires 0 <= i && Ready(c, i) && c.chart[i].rule == 17
    ensures ReadStatement(c, i) ==
            var (e, j) :- ReadExpr(c, i - 1);
            var (l, m) :- ReadLvalue(c, j);
            Unless(ExprType(c.env, e) != LvalueType(c.env, l), DifferentTypes, (Assign(l, e), m))
  {
    TheStatementRules();
    hide RuleAt, ReadExpr, ReadLvalue, ReadBody, ReadTest, ExprType, LvalueType;
    assert Find(c.chart, STATEMENT, i) == i;
  }

  lemma IfIs(c: Context, i: int)
    requires 0 <= i && Ready(c, i) && c.chart[i].rule == 18
    ensures ReadStatement(c, i) ==
            var (onFalse, j) :- ReadBody(c, i - 1);
            var (onTrue, m) :- ReadBody(c, j);
            var (t, n) :- ReadTest(c, m);
            Ok((If(t, onTrue, onFalse), n))
  {
    TheStatementRules();
    hide RuleAt, ReadExpr, ReadLvalue, ReadBody, ReadTest;
    assert Find(c.chart, STATEMENT, i) == i;
  }

  lemma WhileIs(c: Context, i: int)
    requires 0 <= i && Ready(c, i) && c.chart[i].rule == 19
    ensures ReadStatement(c, i) ==
            var (body, j) :- ReadBody(c, i - 1);
            var (t, m) :- ReadTest(c, j);
            Ok((While(t, body), m))
  {
    TheStatementRules();
    hide RuleAt, ReadExpr, ReadLvalue, ReadBody, ReadTest;
    assert Find(c.chart, STATEMENT, i) == i;
  }

  // ----- statements -----

  /** The reader gives the tree, or the first fault. */
  ghost predicate Decides<T(!new)>(r: Result<(T, int)>, faults: seq<ParseError>, tree: T) {
    if faults == [] then r.Ok? && r.value.0 == tree else r == Err(faults[0])
  }

  lemma TestIsAnswered(c: Context, i: int, xs: seq<Elem>, t: Test, s: nat)
    requires Shows(c, i, xs + TestItems(t, s)) && TestSpelled(c.tokens, s, t) && TestCallsFirst(t)
    ensures Ready(c, i) && Decides(ReadTest(c, i), TestFaults(c, t), t)
  {
    hide ReadExpr, ReadTest, RuleAt, Shows, Lacks, ExprItems, ExprResidue, ExprYield, ExprSpelled, ExprCallsFirst,
         ExprOpensWithCall, ExprFaults, ExprHasType, ExprType, ExprIsSound, TestIsTyped;
    var r, s' := TestRule(t.op), s + |ExprYield(t.left)| + 1;
    var x, y := ExprItems(t.left, s, []), ExprItems(t.right, s', [Done(r, s)]);
    assert xs + TestItems(t, s) == ((xs + x) + y) + [Done(r, s)];
    TopShows(c, i, (xs + x) + y, r, s);
    LacksTest(r, s);
    LacksNone();
    ExprIsAnswered(c, i - 1, xs + x, t.right, s', [Done(r, s)]);
    TestIs(c, i, t.op);
    if ExprFaults(c, t.right) == [] {
      ReadExprIsSound(c, i - 1);
      ExprLeavesNothing(t.right, s', [Done(r, s)]);
      assert (xs + x) + [] == xs + x;
      ExprIsAnswered(c, |xs + x| - 1, xs, t.left, s, []);
      if ExprFaults(c, t.left) == [] {
        ReadExprIsSound(c, |xs + x| - 1);
        SidesAgree(c, t);
      }
    }
  }

  lemma SidesAgree(c: Context, t: Test)
    requires ExprIsSound(c, t.left) && ExprIsSound(c, t.right) && ExprType(c.env, t.left) != Invalid
    ensures ExprType(c.env, t.right) == ExprType(c.env, t.left) <==> TestIsTyped(c.env, t)
  {
    hide ExprIsSound, ExprType, ExprHasType;
    ExprHasItsType(c, t.left, Int);
    ExprHasItsType(c, t.left, IntStar);
    ExprHasItsType(c, t.right, Int);
    ExprHasItsType(c, t.right, IntStar);
  }

  /** The right and then the left side of an assignment in which calls come first. */
  lemma SidesAreAnswered(c: Context, i: int, xs: seq<Elem>, l: Lvalue, e: Expr, s: nat)
    requires Shows(c, i, (xs + LvalueItems(l, s, [])) + ExprItems(e, s + |LvalueYield(l)| + 1, []))
    requires StatementSpelled(c.tokens, s, Assign(l, e)) && LvalueCallsFirst(l) && ExprCallsFirst(e)
    ensures Ready(c, i) && Decides(ReadExpr(c, i), ExprFaults(c, e), e)
    ensures ReadExpr(c, i).Ok? ==> Decides(ReadLvalue(c, ReadExpr(c, i).value.1), LvalueFaults(c, l), l)
  {
    hide ReadExpr, ReadLvalue, RuleAt, Shows, Lacks, ExprItems, ExprResidue, ExprSpelled, ExprCallsFirst, LvalueItems,
         LvalueResidue, LvalueYield, LvalueSpelled, LvalueCallsFirst, ExprHasType, ExprType, ExprResolves, ExprFaults,
         LvalueFaults;
    var s', x := s + |LvalueYield(l)| + 1, LvalueItems(l, s, []);
    LacksNone();
    ExprIsAnswered(c, i, xs + x, e, s', []);
    if ReadExpr(c, i).Ok? {
      ReadExprIsSound(c, i);
      var residue := ExprResidue(e, s', []);
      NoneLacks(LVALUE);
      ExprResidueLacks(c.env, e, ExprType(c.env, e), s', [], LVALUE);
      SkipLvalue(c, |xs + x + residue| - 1, xs + x, residue);
      LvalueIsAnswered(c, |xs + x| - 1, xs, l, s, []);
    }
  }

  /** What a statement is read as, and where the reader stops. */
  ghost predicate IsReadAs(c: Context, r: Result<(Statement, int)>, st: Statement, xs: seq<Elem>) {
    r.Ok? ==> IsVersion(st, r.value.0) && StopsAbove(c, r.value.1, xs)
  }

  lemma SimpleIsVersion(st: Statement, st': Statement)
    requires !st.If? && !st.While? && IsAlike(st, st') && (StatementCallsFirst(st) ==> st' == st)
    ensures IsVersion(st, st')
  {
  }

  lemma AssignIsRead(c: Context, i: int, xs: seq<Elem>, l: Lvalue, e: Expr, s: nat)
    requires Shows(c, i, xs + StatementItems(Assign(l, e), s)) && StatementSpelled(c.tokens, s, Assign(l, e))
    ensures Ready(c, i) && IsReadAs(c, ReadStatement(c, i), Assign(l, e), xs)
  {
    hide ReadExpr, ReadLvalue, ReadStatement, RuleAt, Shows, ExprItems, LvalueItems, LvalueYield, StopsAbove;
    var s' := s + |LvalueYield(l)| + 1;
    var x, y := LvalueItems(l, s, []), ExprItems(e, s', []);
    assert xs + StatementItems(Assign(l, e), s) == ((xs + x) + y) + [Done(17, s)];
    TopShows(c, i, (xs + x) + y, 17, s);
    AssignStopsAbove(c, i - 1, xs, l, e, s);
    if ReadStatement(c, i).Ok? {
      AssignIs(c, i);
      if LvalueCallsFirst(l) && ExprCallsFirst(e) {
        SidesAreAnswered(c, i - 1, xs, l, e, s);
      }
      SimpleIsVersion(Assign(l, e), ReadStatement(c, i).value.0);
    }
  }

  lemma SimpleIsRead(c: Context, i: int, xs: seq<Elem>, st: Statement, s: nat)
    requires (st.Println? || st.Delete?) && Shows(c, i, xs + StatementItems(st, s)) && StatementSpelled(c.tokens, s, st)
    ensures Ready(c, i) && IsReadAs(c, ReadStatement(c, i), st, xs)
  {
    hide ReadExpr, ReadStatement, RuleAt, Shows, Lacks, ExprItems, ExprResidue, ExprSpelled, StopsAbove;
    var r, s' := if st.Println? then 20 else 21, if st.Println? then s + 2 else s + 3;
    var x := ExprItems(st.expr, s', []);
    assert xs + StatementItems(st, s) == (xs + x) + [Done(r, s)];
    TopShows(c, i, xs + x, r, s);
    ExprStopsAbove(c, i - 1, xs, st.expr, s');
    if ReadStatement(c, i).Ok? {
      SimpleIs(c, i);
      if ExprCallsFirst(st.expr) {
        LacksNone();
        ExprIsAnswered(c, i - 1, xs, st.expr, s', []);
      }
      SimpleIsVersion(st, ReadStatement(c, i).value.0);
    }
  }

  /** The test of an if or while statement, which is all that the reader may leave something of. */
  lemma TestIsRead(c: Context, i: int, xs: seq<Elem>, t: Test, s: nat)
    requires Shows(c, i, xs + TestItems(t, s)) && TestSpelled(c.tokens, s, t) && ReadTest(c, i).Ok?
    ensures StopsAbove(c, ReadTest(c, i).value.1, xs) && (TestCallsFirst(t) ==> ReadTest(c, i).value.0 == t)
  {
    hide ReadTest, RuleAt, Shows, TestItems, TestSpelled, TestCallsFirst, StopsAbove;
    TestStopsAbove(c, i, xs, t, s);
    if TestCallsFirst(t) {
      TestIsAnswered(c, i, xs, t, s);
    }
  }

  lemma {:induction false} StatementIsRead(c: Context, i: int, xs: seq<Elem>, st: Statement, s: nat)
    requires Shows(c, i, xs + StatementItems(st, s)) && StatementSpelled(c.tokens, s, st)
    ensures Ready(c, i) && IsReadAs(c, ReadStatement(c, i), st, xs)
    decreases st, 0
  {
    hide ReadBody, ReadTest, ReadStatement, RuleAt, Shows, TestItems, BodyItems, TestYield, BodyYield, TestSpelled,
         BodySpelled, TestCallsFirst, StopsAbove;
    match st
    case If(t, onTrue, onFalse) =>
      var s1 := s + |TestYield(t)| + 4;
      var s2 := s1 + |BodyYield(onTrue)| + 3;
      var x, y, z := TestItems(t, s + 2), BodyItems(onTrue, s1), BodyItems(onFalse, s2);
      assert xs + StatementItems(st, s) == (((xs + x) + y) + z) + [Done(18, s)];
      TopShows(c, i, ((xs + x) + y) + z, 18, s);
      if ReadStatement(c, i).Ok? {
        IfIs(c, i);
        BodyIsRead(c, i - 1, (xs + x) + y, onFalse, s2);
        BodyIsRead(c, |xs + x + y| - 1, xs + x, onTrue, s1);
        TestIsRead(c, |xs + x| - 1, xs, t, s + 2);
        IfIsVersion(st, ReadStatement(c, i).value.0);
      }
    case While(t, body) =>
      var s1 := s + |TestYield(t)| + 4;
      var x, y := TestItems(t, s + 2), BodyItems(body, s1);
      assert xs + StatementItems(st, s) == ((xs + x) + y) + [Done(19, s)];
      TopShows(c, i, (xs + x) + y, 19, s);
      if ReadStatement(c, i).Ok? {
        WhileIs(c, i);
        BodyIsRead(c, i - 1, xs + x, body, s1);
        TestIsRead(c, |xs + x| - 1, xs, t, s + 2);
        WhileIsVersion(st, ReadStatement(c, i).value.0);
      }
    case Assign(l, e) => AssignIsRead(c, i, xs, l, e, s);
    case _ => SimpleIsRead(c, i, xs, st, s);
  }

  lemma IfIsVersion(st: Statement, st': Statement)
    requires st.If? && st'.If? && AreAlike(st.onTrue, st'.onTrue) && AreAlike(st.onFalse, st'.onFalse)
    requires TestCallsFirst(st.test) ==> st'.test == st.test
    ensures IsVersion(st, st')
  {
    hide TestCallsFirst, AreAlike;
    if StatementCallsFirst(st) {
      AllTheSame(st.onTrue, st'.onTrue);
      AllTheSame(st.onFalse, st'.onFalse);
    }
  }

  lemma WhileIsVersion(st: Statement, st': Statement)
    requires st.While? && st'.While? && AreAlike(st.body, st'.body)
    requires TestCallsFirst(st.test) ==> st'.test == st.test
    ensures IsVersion(st, st')
  {
    hide TestCallsFirst, AreAlike;
    if StatementCallsFirst(st) {
      AllTheSame(st.body, st'.body);
    }
  }

  /** Items that are no list of statements are skipped. */
  lemma SkipToBody(c: Context, j: int, xs: seq<Elem>)
    requires StopsAbove(c, j, xs)
    ensures Ready(c, |xs| - 1) && ReadBody(c, j) == ReadBody(c, |xs| - 1)
  {
    var noise := c.chart[|xs|..j + 1];
    assert c.chart[..j + 1] == c.chart[..|xs|] + noise;
    forall m | 0 <= m < |noise|
      ensures noise[m].rule < 49 && RuleAt(noise[m].rule).lhs != STATEMENTS
    {
      SideIsLhs(noise[m].rule);
    }
    hide RuleAt;
    SkipBody(c, j, xs, noise);
  }

  lemma {:induction false} BodyIsRead(c: Context, i: int, xs: seq<Elem>, stmts: seq<Statement>, s: nat)
    requires Shows(c, i, xs + BodyItems(stmts, s)) && BodySpelled(c.tokens, s, stmts) && Ready(c, i)
    requires ReadBody(c, i).Ok?
    ensures Shows(c, |xs| - 1, xs) && ReadBody(c, i).value.1 == |xs| - 1 && AreAlike(stmts, ReadBody(c, i).value.0)
    decreases stmts, 1
  {
    hide ReadBody, ReadStatement, RuleAt, Shows, StatementItems, StatementSpelled, StatementYield, StopsAbove,
         IsVersion;
    if stmts == [] {
      TopShows(c, i, xs, 15, s);
      EmptyStep(c, i);
    } else {
      var front, last := stmts[..|stmts| - 1], stmts[|stmts| - 1];
      var s' := s + |BodyYield(front)|;
      var x, y := BodyItems(front, s), StatementItems(last, s');
      assert xs + BodyItems(stmts, s) == ((xs + x) + y) + [Done(16, s)];
      TopShows(c, i, (xs + x) + y, 16, s);
      LastStatementIs(c, i);
      StatementIsRead(c, i - 1, xs + x, last, s');
      var (st, j) := ReadStatement(c, i - 1).value;
      SkipToBody(c, j, xs + x);
      StoppedShows(c, j, xs + x);
      BodyIsRead(c, |xs + x| - 1, xs, front, s);
    }
  }

  lemma StoppedShows(c: Context, j: int, xs: seq<Elem>)
    requires StopsAbove(c, j, xs)
    ensures Shows(c, |xs| - 1, xs)
  {
  }
}
