/** Every tree the reader gives, from any chart, follows the typing rules, and all its calls resolve. */
module Checking {
  import opened Options
  import opened Symbols
  import opened Earley
  import opened Wlp4Grammar
  import opened Ast
  import opened Types
  import opened Reading

  // ----- calls that resolve -----

  /** The callee is declared in time and takes as many arguments as there are; wain does not call wain. */
  predicate Resolves(c: Context, callee: string, args: Arglist) {
    && callee in c.arity && c.arity[callee] == NumArgs(args)
    && !(c.caller == "wain" && callee == "wain")
    && DeclaredInTime(c.names, c.caller, callee)
  }

  predicate ExprResolves(c: Context, e: Expr) {
    match e
    case JustTerm(term) => TermResolves(c, term)
    case _ => ExprResolves(c, e.left) && TermResolves(c, e.term)
  }

  predicate TermResolves(c: Context, t: Term) {
    match t
    case JustFactor(factor) => FactorResolves(c, factor)
    case _ => TermResolves(c, t.left) && FactorResolves(c, t.factor)
  }

  predicate FactorResolves(c: Context, f: Factor) {
    match f
    case Paren(e) => ExprResolves(c, e)
    case NewArray(size) => ExprResolves(c, size)
    case AddressOf(lvalue) => LvalueResolves(c, lvalue)
    case Deref(pointer) => FactorResolves(c, pointer)
    case Call(callee, args) => Resolves(c, callee, args) && ArgsResolve(c, args)
    case _ => true
  }

  predicate ArgsResolve(c: Context, args: Arglist) {
    match args
    case NoArgs => true
    case Args(e, rest) => ExprResolves(c, e) && ArgsResolve(c, rest)
  }

  predicate LvalueResolves(c: Context, l: Lvalue) {
    match l
    case Var(_) => true
    case Target(pointer) => FactorResolves(c, pointer)
    case Enclosed(inner) => LvalueResolves(c, inner)
  }

  predicate StatementResolves(c: Context, s: Statement) {
    match s
    case Assign(lvalue, e) => LvalueResolves(c, lvalue) && ExprResolves(c, e)
    case If(test, onTrue, onFalse) =>
      && TestResolves(c, test)
      && (forall i :: 0 <= i < |onTrue| ==> StatementResolves(c, onTrue[i]))
      && (forall i :: 0 <= i < |onFalse| ==> StatementResolves(c, onFalse[i]))
    case While(test, body) =>
      && TestResolves(c, test)
      && (forall i :: 0 <= i < |body| ==> StatementResolves(c, body[i]))
    case Println(e) => ExprResolves(c, e)
    case Delete(e) => ExprResolves(c, e)
  }

  predicate TestResolves(c: Context, t: Test) {
    ExprResolves(c, t.left) && ExprResolves(c, t.right)
  }

  /** With distinct names, a procedure may call itself and those declared before it, and no others. */
  lemma TimelyCallees(names: seq<string>, k: nat, callee: string)
    requires k < |names| && forall i, j :: 0 <= i < j < |names| ==> names[i] != names[j]
    ensures DeclaredInTime(names, names[k], callee) <==> callee in names[..k + 1]
  {
    if i: nat :| i < |names| && names[i] == callee && names[k] !in names[..i] {
      assert forall j :: 0 <= j < i ==> names[..i][j] == names[j] && names[j] in names[..i];
      assert names[..k + 1][i] == callee;
    }
    if callee in names[..k + 1] {
      var i: nat :| i <= k && names[..k + 1][i] == callee;
      assert forall j :: 0 <= j < i ==> names[..i][j] == names[j];
      assert names[i] == callee && names[k] !in names[..i];
    }
  }

  // ----- well-checked trees -----

  /** Typed by the rules, with all calls resolved. */
  ghost predicate ExprIsSound(c: Context, e: Expr) {
    ExprHasType(c.env, e, ExprType(c.env, e)) && ExprResolves(c, e)
  }

  /** The reader leaves a variable without a type to whoever uses the term. */
  ghost predicate TermIsSound(c: Context, t: Term) {
    (TermType(c.env, t) != Invalid ==> TermHasType(c.env, t, TermType(c.env, t))) && TermResolves(c, t)
  }

  ghost predicate FactorIsSound(c: Context, f: Factor) {
    (FactorType(c.env, f) != Invalid ==> FactorHasType(c.env, f, FactorType(c.env, f))) && FactorResolves(c, f)
  }

  ghost predicate LvalueIsSound(c: Context, l: Lvalue) {
    (LvalueType(c.env, l) != Invalid ==> LvalueHasType(c.env, l, LvalueType(c.env, l))) && LvalueResolves(c, l)
  }

  ghost predicate StatementIsSound(c: Context, s: Statement) {
    StatementIsTyped(c.env, s) && StatementResolves(c, s)
  }

  ghost predicate BodyIsSound(c: Context, stmts: seq<Statement>) {
    forall i :: 0 <= i < |stmts| ==> StatementIsSound(c, stmts[i])
  }

  lemma {:induction false} ReadExprIsSound(c: Context, i: int)
    requires Ready(c, i) && ReadExpr(c, i).Ok?
    ensures ExprIsSound(c, ReadExpr(c, i).value.0) && ExprType(c.env, ReadExpr(c, i).value.0) != Invalid
    decreases i + 1
  {
    hide RuleAt, Find, ReadTerm, TermHasType, TermResolves, TermType;
    var k := Find(c.chart, EXPR, i);
    var rhs := RuleAt(c.chart[k].rule).rhs;
    ReadTermIsSound(c, k - 1);
    if |rhs| > 1 && (rhs[1] == PLUS || rhs[1] == MINUS) {
      ReadExprIsSound(c, ReadTerm(c, k - 1).value.1);
    }
  }

  lemma {:induction false} ReadTermIsSound(c: Context, i: int)
    requires Ready(c, i) && ReadTerm(c, i).Ok?
    ensures TermIsSound(c, ReadTerm(c, i).value.0)
    decreases i + 1
  {
    hide RuleAt, Find, ReadFactor, FactorHasType, FactorResolves, FactorType;
    var k := Find(c.chart, TERM, i);
    var rhs := RuleAt(c.chart[k].rule).rhs;
    ReadFactorIsSound(c, k - 1);
    if |rhs| > 1 {
      ReadTermIsSound(c, ReadFactor(c, k - 1).value.1);
    }
  }

  lemma {:induction false} ReadFactorIsSound(c: Context, i: int)
    requires Ready(c, i) && ReadFactor(c, i).Ok?
    ensures FactorIsSound(c, ReadFactor(c, i).value.0)
    decreases i + 1
  {
    hide Find, RuleAt, ReadCall, ReadExpr, ReadLvalue, ExprHasType, ExprResolves, ExprType, LvalueHasType,
         LvalueResolves, LvalueType;
    var k := Find(c.chart, FACTOR, i);
    FactorRules(c.chart[k].rule);
    var rhs := RuleAt(c.chart[k].rule).rhs;
    if |rhs| == 1 {
    } else if rhs[0] == ID {
      ReadCallIsSound(c, k);
    } else if rhs[0] == AMP {
      ReadLvalueIsSound(c, k - 1);
    } else if rhs[0] == STAR {
      ReadFactorIsSound(c, k - 1);
    } else {
      ReadExprIsSound(c, k - 1);
    }
  }

  lemma {:induction false} ReadCallIsSound(c: Context, k: nat)
    requires Ready(c, k) && ReadCall(c, k).Ok?
    ensures FactorIsSound(c, ReadCall(c, k).value.0)
    decreases k + 1, 0
  {
    hide RuleAt, ReadArglist, DeclaredInTime;
    var f := ReadCall(c, k).value.0;
    assert f.Call? && Resolves(c, f.callee, f.args);
    if |RuleAt(c.chart[k].rule).rhs| != 3 {
      ReadArglistIsSound(c, k - 1);
    }
    assert ArgsResolve(c, f.args);
    assert ArgsHaveTypes(c.env, f.args);
  }

  lemma {:induction false} ReadLvalueIsSound(c: Context, i: int)
    requires Ready(c, i) && ReadLvalue(c, i).Ok?
    ensures LvalueIsSound(c, ReadLvalue(c, i).value.0)
    decreases i + 1
  {
    hide Find, ReadFactor, FactorHasType, FactorResolves, FactorType;
    var k := Find(c.chart, LVALUE, i);
    LvalueRules(c.chart[k].rule);
    var rhs := RuleAt(c.chart[k].rule).rhs;
    if rhs[0] == ID {
    } else if rhs[0] == STAR {
      ReadFactorIsSound(c, k - 1);
    } else {
      ReadLvalueIsSound(c, k - 1);
    }
  }

  lemma {:induction false} ReadArglistIsSound(c: Context, i: int)
    requires Ready(c, i) && ReadArglist(c, i).Ok?
    ensures ArgsHaveTypes(c.env, ReadArglist(c, i).value.0) && ArgsResolve(c, ReadArglist(c, i).value.0)
    decreases i + 1
  {
    hide RuleAt, Find, ReadExpr, ExprHasType, ExprResolves, ExprType;
    var k := Find(c.chart, ARGLIST, i);
    if |RuleAt(c.chart[k].rule).rhs| == 1 {
      ReadExprIsSound(c, k - 1);
    } else {
      ReadArglistIsSound(c, k - 1);
      ReadExprIsSound(c, ReadArglist(c, k - 1).value.1);
    }
  }

  lemma {:induction false} ReadTestIsSound(c: Context, i: int)
    requires Ready(c, i) && ReadTest(c, i).Ok?
    ensures TestIsTyped(c.env, ReadTest(c, i).value.0) && TestResolves(c, ReadTest(c, i).value.0)
  {
    hide RuleAt, Find, ReadExpr, ExprHasType, ExprResolves, ExprType;
    var k := Find(c.chart, TEST, i);
    TestRules(c.chart[k].rule);
    ReadExprIsSound(c, k - 1);
    ReadExprIsSound(c, ReadExpr(c, k - 1).value.1);
  }

  lemma {:induction false} ReadBodyIsSound(c: Context, i: int)
    requires Ready(c, i) && ReadBody(c, i).Ok?
    ensures BodyIsSound(c, ReadBody(c, i).value.0)
    decreases i + 1
  {
    hide RuleAt, Find, ReadStatement, StatementIsTyped, StatementResolves;
    var k := Find(c.chart, STATEMENTS, i);
    if RuleAt(c.chart[k].rule).rhs != [] {
      ReadStatementIsSound(c, k - 1);
      ReadBodyIsSound(c, ReadStatement(c, k - 1).value.1);
    }
  }

  lemma {:induction false} ReadStatementIsSound(c: Context, i: int)
    requires Ready(c, i) && ReadStatement(c, i).Ok?
    ensures StatementIsSound(c, ReadStatement(c, i).value.0)
    decreases i + 1
  {
    hide RuleAt, Find, ReadExpr, ReadLvalue, ReadBody, ReadTest, ExprHasType, ExprResolves, ExprType, LvalueHasType,
         LvalueResolves, LvalueType, TestIsTyped, TestResolves;
    var k := Find(c.chart, STATEMENT, i);
    StatementRules(c.chart[k].rule);
    var rhs := RuleAt(c.chart[k].rule).rhs;
    if rhs[0] == LVALUE {
      ReadExprIsSound(c, k - 1);
      ReadLvalueIsSound(c, ReadExpr(c, k - 1).value.1);
    } else if rhs[0] == IF {
      ReadBodyIsSound(c, k - 1);
      var j := ReadBody(c, k - 1).value.1;
      ReadBodyIsSound(c, j);
      ReadTestIsSound(c, ReadBody(c, j).value.1);
    } else if rhs[0] == WHILE {
      ReadBodyIsSound(c, k - 1);
      ReadTestIsSound(c, ReadBody(c, k - 1).value.1);
    } else {
      ReadExprIsSound(c, k - 1);
    }
  }
}
