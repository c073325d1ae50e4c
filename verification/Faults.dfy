/** What is wrong in a tree, as a list in the order in which it is looked for: operands from right to left, and the
    parts of a tree before the tree itself. */
module Faults {
  import opened Symbols
  import opened Ast
  import opened Types
  import opened Reading
  import opened Checking

  ghost function When(bad: bool, fault: ParseError): seq<ParseError> {
    if bad then [fault] else []
  }

  ghost predicate HasType(env: TypeEnv, e: Expr) {
    ExprHasType(env, e, Int) || ExprHasType(env, e, IntStar)
  }

  // ----- expressions -----

  ghost function ExprFaults(c: Context, e: Expr): seq<ParseError> {
    (match e
     case JustTerm(term) => TermFaults(c, term)
     case _ => TermFaults(c, e.term) + ExprFaults(c, e.left))
    + When(!HasType(c.env, e), InvalidExpr)
  }

  ghost function TermFaults(c: Context, t: Term): seq<ParseError> {
    match t
    case JustFactor(factor) => FactorFaults(c, factor)
    case _ => FactorFaults(c, t.factor) + TermFaults(c, t.left) + When(!TermHasType(c.env, t, Int), IntsExpected)
  }

  ghost function FactorFaults(c: Context, f: Factor): seq<ParseError> {
    match f
    case Paren(e) => ExprFaults(c, e)
    case NewArray(size) => ExprFaults(c, size) + When(!ExprHasType(c.env, size, Int), IntExpected)
    case AddressOf(lvalue) => LvalueFaults(c, lvalue) + When(!LvalueHasType(c.env, lvalue, Int), IntExpected)
    case Deref(pointer) => FactorFaults(c, pointer) + When(!FactorHasType(c.env, pointer, IntStar), PointerExpected)
    case Call(callee, args) => CalleeFaults(c, callee) + ArgsFaults(c, args) + ArityFaults(c, callee, args)
    case _ => []
  }

  ghost function CalleeFaults(c: Context, callee: string): seq<ParseError> {
    When(callee !in c.arity, UnknownProcedure)
    + When(c.caller == "wain" && callee == "wain", WainCallsItself)
    + When(!DeclaredInTime(c.names, c.caller, callee), DeclaredLater)
  }

  ghost function ArityFaults(c: Context, callee: string, args: Arglist): seq<ParseError> {
    When(callee in c.arity && c.arity[callee] != NumArgs(args), WrongArity)
  }

  ghost function ArgsFaults(c: Context, args: Arglist): seq<ParseError> {
    match args
    case NoArgs => []
    case Args(e, rest) => ArgsFaults(c, rest) + ExprFaults(c, e)
  }

  ghost function LvalueFaults(c: Context, l: Lvalue): seq<ParseError> {
    match l
    case Var(_) => []
    case Target(pointer) => FactorFaults(c, pointer) + When(!FactorHasType(c.env, pointer, IntStar), PointerExpected)
    case Enclosed(inner) => LvalueFaults(c, inner)
  }

  // ----- statements -----

  ghost function TestFaults(c: Context, t: Test): seq<ParseError> {
    ExprFaults(c, t.right) + ExprFaults(c, t.left) + When(!TestIsTyped(c.env, t), DifferentTypes)
  }

  ghost function StatementFaults(c: Context, st: Statement): seq<ParseError>
    decreases st, 0
  {
    match st
    case Assign(l, e) =>
      ExprFaults(c, e) + LvalueFaults(c, l) + When(!StatementIsTyped(c.env, st), DifferentTypes)
    case If(t, onTrue, onFalse) => BodyFaults(c, onFalse) + BodyFaults(c, onTrue) + TestFaults(c, t)
    case While(t, body) => BodyFaults(c, body) + TestFaults(c, t)
    case Println(e) => ExprFaults(c, e) + When(!ExprHasType(c.env, e, Int), IntExpected)
    case Delete(e) => ExprFaults(c, e) + When(!ExprHasType(c.env, e, IntStar), PointerExpected)
  }

  /** The last statement comes first. */
  ghost function BodyFaults(c: Context, stmts: seq<Statement>): seq<ParseError>
    decreases stmts, 1
  {
    if stmts == [] then []
    else StatementFaults(c, stmts[|stmts| - 1]) + BodyFaults(c, stmts[..|stmts| - 1])
  }

  // ----- without a fault, and well-checked -----

  /** An expression is without fault if and only if it has a type by the rules and its calls resolve. */
  lemma {:induction false} ExprIsFaultless(c: Context, e: Expr)
    ensures ExprFaults(c, e) == [] <==> HasType(c.env, e) && ExprResolves(c, e)
  {
    hide TermHasType, TermFaults, TermResolves, ExprFaults;
    if HasType(c.env, e) {
      match e
      case JustTerm(term) => TermIsFaultless(c, term);
      case _ =>
        TermIsFaultless(c, e.term);
        ExprIsFaultless(c, e.left);
    }
    ExprFaultsAre(c, e);
  }

  lemma ExprFaultsAre(c: Context, e: Expr)
    ensures ExprFaults(c, e) == [] ==> HasType(c.env, e)
    ensures e.JustTerm? && HasType(c.env, e) ==> ExprFaults(c, e) == TermFaults(c, e.term)
    ensures !e.JustTerm? && HasType(c.env, e) ==> ExprFaults(c, e) == TermFaults(c, e.term) + ExprFaults(c, e.left)
  {
    hide ExprHasType, TermFaults;
  }

  lemma {:induction false} TermIsFaultless(c: Context, t: Term)
    requires TermHasType(c.env, t, Int) || TermHasType(c.env, t, IntStar)
    ensures TermFaults(c, t) == [] <==> TermResolves(c, t)
  {
    hide FactorHasType, FactorFaults, FactorResolves;
    match t
    case JustFactor(factor) => FactorIsFaultless(c, factor);
    case _ =>
      FactorIsFaultless(c, t.factor);
      TermIsFaultless(c, t.left);
  }

  lemma {:induction false} FactorIsFaultless(c: Context, f: Factor)
    requires FactorHasType(c.env, f, Int) || FactorHasType(c.env, f, IntStar)
    ensures FactorFaults(c, f) == [] <==> FactorResolves(c, f)
  {
    hide ExprHasType, LvalueHasType, ExprFaults, LvalueFaults, ExprResolves, LvalueResolves, ArgsFaults, ArgsResolve,
         ArgsHaveTypes;
    match f
    case Paren(e) => ExprIsFaultless(c, e);
    case NewArray(e) => ExprIsFaultless(c, e);
    case AddressOf(l) => LvalueIsFaultless(c, l);
    case Deref(g) => FactorIsFaultless(c, g);
    case Call(callee, args) => ArgsAreFaultless(c, args);
    case _ =>
  }

  lemma {:induction false} ArgsAreFaultless(c: Context, args: Arglist)
    requires ArgsHaveTypes(c.env, args)
    ensures ArgsFaults(c, args) == [] <==> ArgsResolve(c, args)
  {
    hide ExprHasType, ExprFaults, ExprResolves;
    match args
    case NoArgs =>
    case Args(e, rest) =>
      ExprIsFaultless(c, e);
      ArgsAreFaultless(c, rest);
  }

  lemma {:induction false} LvalueIsFaultless(c: Context, l: Lvalue)
    requires LvalueHasType(c.env, l, Int) || LvalueHasType(c.env, l, IntStar)
    ensures LvalueFaults(c, l) == [] <==> LvalueResolves(c, l)
  {
    match l
    case Var(_) =>
    case Target(pointer) => FactorIsFaultless(c, pointer);
    case Enclosed(inner) => LvalueIsFaultless(c, inner);
  }

  lemma TestIsFaultless(c: Context, t: Test)
    ensures TestFaults(c, t) == [] <==> TestIsTyped(c.env, t) && TestResolves(c, t)
  {
    hide ExprHasType, ExprFaults, ExprResolves;
    ExprIsFaultless(c, t.left);
    ExprIsFaultless(c, t.right);
  }

  /** A statement is without fault if and only if it follows the typing rules and its calls resolve. */
  lemma {:induction false} StatementIsFaultless(c: Context, st: Statement)
    ensures StatementFaults(c, st) == [] <==> StatementIsSound(c, st)
    decreases st, 0
  {
    hide ExprHasType, ExprFaults, ExprResolves, LvalueHasType, LvalueFaults, LvalueResolves, TestFaults, TestIsTyped,
         TestResolves, BodyFaults;
    match st
    case Assign(l, e) =>
      ExprIsFaultless(c, e);
      if StatementIsTyped(c.env, st) {
        LvalueIsFaultless(c, l);
      }
    case If(t, onTrue, onFalse) =>
      TestIsFaultless(c, t);
      BodyIsFaultless(c, onTrue);
      BodyIsFaultless(c, onFalse);
    case While(t, body) =>
      TestIsFaultless(c, t);
      BodyIsFaultless(c, body);
    case Println(e) => ExprIsFaultless(c, e);
    case Delete(e) => ExprIsFaultless(c, e);
  }

  lemma {:induction false} BodyIsFaultless(c: Context, stmts: seq<Statement>)
    ensures BodyFaults(c, stmts) == [] <==> BodyIsSound(c, stmts)
    decreases stmts, 1
  {
    hide StatementFaults, StatementIsSound;
    if stmts != [] {
      var front := stmts[..|stmts| - 1];
      StatementIsFaultless(c, stmts[|stmts| - 1]);
      BodyIsFaultless(c, front);
      assert forall i :: 0 <= i < |front| ==> front[i] == stmts[i];
      assert BodyIsSound(c, stmts) <==> BodyIsSound(c, front) && StatementIsSound(c, stmts[|stmts| - 1]);
    }
  }
}
