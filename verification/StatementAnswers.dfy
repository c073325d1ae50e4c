/** Where calls come first, statements are read as themselves, or the first of their faults is found. */
module StatementAnswers {
  import opened Options
  import opened Symbols
  import opened Earley
  import opened Wlp4Grammar
  import opened Tokens
  import opened Ast
  import opened Types
  import opened Yields
  import opened Items
  import opened Reading
  import opened Checking
  import opened ReadBack
  import opened ReadStatements
  import opened Staying
  import opened Faults
  import opened Refusals
  import opened Versions

  predicate HaveCallsFirst(stmts: seq<Statement>) {
    forall i :: 0 <= i < |stmts| ==> StatementCallsFirst(stmts[i])
  }

  lemma AssignedTypeIsRight(c: Context, l: Lvalue, e: Expr)
    requires ExprIsSound(c, e) && ExprType(c.env, e) != Invalid && LvalueIsSound(c, l)
    ensures ExprType(c.env, e) == LvalueType(c.env, l) <==> StatementIsTyped(c.env, Assign(l, e))
  {
    hide ExprIsSound, ExprType, ExprHasType, LvalueIsSound, LvalueType, LvalueHasType;
    ExprHasItsType(c, e, Int);
    ExprHasItsType(c, e, IntStar);
    LvalueTypeIsRight(c, l, Int);
    LvalueTypeIsRight(c, l, IntStar);
  }

  lemma AssignIsAnswered(c: Context, i: int, xs: seq<Elem>, l: Lvalue, e: Expr, s: nat)
    requires Shows(c, i, xs + StatementItems(Assign(l, e), s)) && StatementSpelled(c.tokens, s, Assign(l, e))
    requires StatementCallsFirst(Assign(l, e))
    ensures Ready(c, i) && Decides(ReadStatement(c, i), StatementFaults(c, Assign(l, e)), Assign(l, e))
  {
    hide ReadExpr, ReadLvalue, ReadStatement, RuleAt, Shows, ExprItems, LvalueItems, LvalueYield, ExprFaults,
         LvalueFaults, StatementIsTyped, ExprCallsFirst, LvalueCallsFirst, ExprIsSound, LvalueIsSound, ExprType,
         LvalueType, StatementSpelled;
    var s' := s + |LvalueYield(l)| + 1;
    var x, y := LvalueItems(l, s, []), ExprItems(e, s', []);
    assert xs + StatementItems(Assign(l, e), s) == ((xs + x) + y) + [Done(17, s)];
    TopShows(c, i, (xs + x) + y, 17, s);
    SidesAreAnswered(c, i - 1, xs, l, e, s);
    AssignIs(c, i);
    if ExprFaults(c, e) == [] {
      ReadExprIsSound(c, i - 1);
      var j := ReadExpr(c, i - 1).value.1;
      if LvalueFaults(c, l) == [] {
        ReadLvalueIsSound(c, j);
        AssignedTypeIsRight(c, l, e);
      }
    }
  }

  lemma SimpleIsAnswered(c: Context, i: int, xs: seq<Elem>, st: Statement, s: nat)
    requires (st.Println? || st.Delete?) && Shows(c, i, xs + StatementItems(st, s))
    requires StatementSpelled(c.tokens, s, st) && StatementCallsFirst(st)
    ensures Ready(c, i) && Decides(ReadStatement(c, i), StatementFaults(c, st), st)
  {
    hide ReadExpr, ReadStatement, RuleAt, Shows, Lacks, ExprItems, ExprResidue, ExprSpelled, ExprFaults,
         ExprCallsFirst, ExprIsSound, ExprType, ExprHasType;
    var r, s' := if st.Println? then 20 else 21, if st.Println? then s + 2 else s + 3;
    var x := ExprItems(st.expr, s', []);
    assert xs + StatementItems(st, s) == (xs + x) + [Done(r, s)];
    TopShows(c, i, xs + x, r, s);
    LacksNone();
    ExprIsAnswered(c, i - 1, xs, st.expr, s', []);
    SimpleIs(c, i);
    if ExprFaults(c, st.expr) == [] {
      ReadExprIsSound(c, i - 1);
      ExprHasItsType(c, st.expr, Int);
      ExprHasItsType(c, st.expr, IntStar);
    }
  }

  /** From the items of a statement in which calls come first, the reader gives that statement if it is without fault,
      and its first fault if not. */
  lemma {:induction false} StatementIsAnswered(c: Context, i: int, xs: seq<Elem>, st: Statement, s: nat)
    requires Shows(c, i, xs + StatementItems(st, s)) && StatementSpelled(c.tokens, s, st) && StatementCallsFirst(st)
    ensures Ready(c, i) && Decides(ReadStatement(c, i), StatementFaults(c, st), st)
    decreases st, 0
  {
    hide ReadBody, ReadTest, ReadStatement, RuleAt, Shows, TestItems, BodyItems, TestYield, BodyYield, TestSpelled,
         BodySpelled, TestCallsFirst, BodyFaults, TestFaults, AreAlike;
    match st
    case If(t, onTrue, onFalse) =>
      var s1 := s + |TestYield(t)| + 4;
      var s2 := s1 + |BodyYield(onTrue)| + 3;
      var x, y, z := TestItems(t, s + 2), BodyItems(onTrue, s1), BodyItems(onFalse, s2);
      assert xs + StatementItems(st, s) == (((xs + x) + y) + z) + [Done(18, s)];
      TopShows(c, i, ((xs + x) + y) + z, 18, s);
      ShowsIsReady(c, i - 1, ((xs + x) + y) + z);
      IfIs(c, i);
      BodyIsAnswered(c, i - 1, (xs + x) + y, onFalse, s2);
      if BodyFaults(c, onFalse) == [] {
        BodyIsRead(c, i - 1, (xs + x) + y, onFalse, s2);
        ShowsIsReady(c, |xs + x + y| - 1, (xs + x) + y);
        BodyIsAnswered(c, |xs + x + y| - 1, xs + x, onTrue, s1);
        if BodyFaults(c, onTrue) == [] {
          BodyIsRead(c, |xs + x + y| - 1, xs + x, onTrue, s1);
          TestIsAnswered(c, |xs + x| - 1, xs, t, s + 2);
        }
      }
    case While(t, body) =>
      var s1 := s + |TestYield(t)| + 4;
      var x, y := TestItems(t, s + 2), BodyItems(body, s1);
      assert xs + StatementItems(st, s) == ((xs + x) + y) + [Done(19, s)];
      TopShows(c, i, (xs + x) + y, 19, s);
      ShowsIsReady(c, i - 1, (xs + x) + y);
      WhileIs(c, i);
      BodyIsAnswered(c, i - 1, xs + x, body, s1);
      if BodyFaults(c, body) == [] {
        BodyIsRead(c, i - 1, xs + x, body, s1);
        TestIsAnswered(c, |xs + x| - 1, xs, t, s + 2);
      }
    case Assign(l, e) => AssignIsAnswered(c, i, xs, l, e, s);
    case _ => SimpleIsAnswered(c, i, xs, st, s);
  }

  lemma ShowsIsReady(c: Context, i: int, xs: seq<Elem>)
    requires Shows(c, i, xs)
    ensures Ready(c, i)
  {
  }

  /** The same for statements one after the other: the first fault of the last faulty one is found. */
  lemma {:induction false} BodyIsAnswered(c: Context, i: int, xs: seq<Elem>, stmts: seq<Statement>, s: nat)
    requires Shows(c, i, xs + BodyItems(stmts, s)) && BodySpelled(c.tokens, s, stmts) && Ready(c, i)
    requires HaveCallsFirst(stmts)
    ensures Decides(ReadBody(c, i), BodyFaults(c, stmts), stmts)
    decreases stmts, 1
  {
    hide ReadBody, ReadStatement, RuleAt, Shows, StatementItems, StatementSpelled, StatementYield, StopsAbove,
         IsVersion, StatementCallsFirst, StatementFaults;
    if stmts == [] {
      TopShows(c, i, xs, 15, s);
      EmptyStep(c, i);
    } else {
      var front, last := stmts[..|stmts| - 1], stmts[|stmts| - 1];
      var s' := s + |BodyYield(front)|;
      var x, y := BodyItems(front, s), StatementItems(last, s');
      assert xs + BodyItems(stmts, s) == ((xs + x) + y) + [Done(16, s)];
      TopShows(c, i, (xs + x) + y, 16, s);
      LastStatementIs(c, i);
      StatementIsAnswered(c, i - 1, xs + x, last, s');
      if StatementFaults(c, last) == [] {
        StatementIsRead(c, i - 1, xs + x, last, s');
        var j := ReadStatement(c, i - 1).value.1;
        SkipToBody(c, j, xs + x);
        StoppedShows(c, j, xs + x);
        BodyIsAnswered(c, |xs + x| - 1, xs, front, s);
      }
      assert front + [last] == stmts;
    }
  }
}
