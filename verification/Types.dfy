/** The types the syntax trees compute for themselves, and the typing rules they are meant to follow. */
module Types {
  import opened Symbols
  import opened Ast

  /** The declared types of the names of one procedure. */
  type TypeEnv = map<string, DclType>

  /** A missing name has the default type. */
  function TypeForDcl(env: TypeEnv, name: string): DclType {
    if name in env then env[name] else Invalid
  }

  function ExprType(env: TypeEnv, e: Expr): DclType {
    match e
    case Minus(left, term) =>
      if ExprType(env, left) == Int && TermType(env, term) == Int then Int
      else if ExprType(env, left) == IntStar && TermType(env, term) == Int then IntStar
      else if ExprType(env, left) == IntStar && TermType(env, term) == IntStar then Int
      else Invalid
    case Plus(left, term) =>
      if ExprType(env, left) == Int && TermType(env, term) == Int then Int
      else if (ExprType(env, left) == IntStar && TermType(env, term) == Int) ||
              (ExprType(env, left) == Int && TermType(env, term) == IntStar) then IntStar
      else Invalid
    case JustTerm(term) => TermType(env, term)
  }

  function TermType(env: TypeEnv, t: Term): DclType {
    match t
    case JustFactor(factor) => FactorType(env, factor)
    case _ => if TermType(env, t.left) != Int || FactorType(env, t.factor) != Int then Invalid else Int
  }

  function FactorType(env: TypeEnv, f: Factor): DclType {
    match f
    case Num(_) => Int
    case NullValue => IntStar
    case Id(name) => TypeForDcl(env, name)
    case Paren(e) => ExprType(env, e)
    case NewArray(_) => IntStar
    case AddressOf(_) => IntStar
    case Deref(_) => Int
    case Call(_, _) => Int
  }

  function LvalueType(env: TypeEnv, l: Lvalue): DclType {
    match l
    case Var(name) => TypeForDcl(env, name)
    case Enclosed(inner) => LvalueType(env, inner)
    case Target(_) => Int
  }

  // ----- the typing rules, each with its premises -----

  ghost predicate ExprHasType(env: TypeEnv, e: Expr, t: DclType) {
    match e
    case JustTerm(term) => TermHasType(env, term, t)
    case Plus(left, term) =>
      || (ExprHasType(env, left, Int) && TermHasType(env, term, Int) && t == Int)
      || (ExprHasType(env, left, IntStar) && TermHasType(env, term, Int) && t == IntStar)
      || (ExprHasType(env, left, Int) && TermHasType(env, term, IntStar) && t == IntStar)
    case Minus(left, term) =>
      || (ExprHasType(env, left, Int) && TermHasType(env, term, Int) && t == Int)
      || (ExprHasType(env, left, IntStar) && TermHasType(env, term, Int) && t == IntStar)
      || (ExprHasType(env, left, IntStar) && TermHasType(env, term, IntStar) && t == Int)
  }

  ghost predicate TermHasType(env: TypeEnv, term: Term, t: DclType) {
    match term
    case JustFactor(factor) => FactorHasType(env, factor, t)
    case _ => TermHasType(env, term.left, Int) && FactorHasType(env, term.factor, Int) && t == Int
  }

  ghost predicate FactorHasType(env: TypeEnv, f: Factor, t: DclType) {
    match f
    case Id(name) => name in env && env[name] == t && t != Invalid
    case Num(_) => t == Int
    case NullValue => t == IntStar
    case Paren(e) => ExprHasType(env, e, t)
    case NewArray(size) => ExprHasType(env, size, Int) && t == IntStar
    case AddressOf(lvalue) => LvalueHasType(env, lvalue, Int) && t == IntStar
    case Deref(pointer) => FactorHasType(env, pointer, IntStar) && t == Int
    case Call(_, args) => ArgsHaveTypes(env, args) && t == Int
  }

  /** Every argument has some type. Which one is not asked. */
  ghost predicate ArgsHaveTypes(env: TypeEnv, args: Arglist) {
    match args
    case NoArgs => true
    case Args(e, rest) => (ExprHasType(env, e, Int) || ExprHasType(env, e, IntStar)) && ArgsHaveTypes(env, rest)
  }

  ghost predicate LvalueHasType(env: TypeEnv, l: Lvalue, t: DclType) {
    match l
    case Var(name) => name in env && env[name] == t && t != Invalid
    case Target(pointer) => FactorHasType(env, pointer, IntStar) && t == Int
    case Enclosed(inner) => LvalueHasType(env, inner, t)
  }

  ghost predicate TestIsTyped(env: TypeEnv, test: Test) {
    || (ExprHasType(env, test.left, Int) && ExprHasType(env, test.right, Int))
    || (ExprHasType(env, test.left, IntStar) && ExprHasType(env, test.right, IntStar))
  }

  ghost predicate StatementIsTyped(env: TypeEnv, s: Statement) {
    match s
    case Assign(lvalue, e) =>
      || (LvalueHasType(env, lvalue, Int) && ExprHasType(env, e, Int))
      || (LvalueHasType(env, lvalue, IntStar) && ExprHasType(env, e, IntStar))
    case If(test, onTrue, onFalse) =>
      && TestIsTyped(env, test)
      && (forall i :: 0 <= i < |onTrue| ==> StatementIsTyped(env, onTrue[i]))
      && (forall i :: 0 <= i < |onFalse| ==> StatementIsTyped(env, onFalse[i]))
    case While(test, body) =>
      && TestIsTyped(env, test)
      && (forall i :: 0 <= i < |body| ==> StatementIsTyped(env, body[i]))
    case Println(e) => ExprHasType(env, e, Int)
    case Delete(e) => ExprHasType(env, e, IntStar)
  }

  // ----- the computed type is the only type -----

  lemma {:induction false} ExprTypeIsUnique(env: TypeEnv, e: Expr, t: DclType)
    requires ExprHasType(env, e, t)
    ensures t == ExprType(env, e) && t != Invalid
  {
    match e
    case JustTerm(term) => TermTypeIsUnique(env, term, t);
    case Plus(left, term) =>
      forall u | ExprHasType(env, left, u) ensures u == ExprType(env, left) { ExprTypeIsUnique(env, left, u); }
      forall u | TermHasType(env, term, u) ensures u == TermType(env, term) { TermTypeIsUnique(env, term, u); }
    case Minus(left, term) =>
      forall u | ExprHasType(env, left, u) ensures u == ExprType(env, left) { ExprTypeIsUnique(env, left, u); }
      forall u | TermHasType(env, term, u) ensures u == TermType(env, term) { TermTypeIsUnique(env, term, u); }
  }

  lemma {:induction false} TermTypeIsUnique(env: TypeEnv, term: Term, t: DclType)
    requires TermHasType(env, term, t)
    ensures t == TermType(env, term) && t != Invalid
  {
    match term
    case JustFactor(factor) => FactorTypeIsUnique(env, factor, t);
    case _ =>
      TermTypeIsUnique(env, term.left, Int);
      FactorTypeIsUnique(env, term.factor, Int);
  }

  lemma {:induction false} FactorTypeIsUnique(env: TypeEnv, f: Factor, t: DclType)
    requires FactorHasType(env, f, t)
    ensures t == FactorType(env, f) && t != Invalid
  {
    match f
    case Paren(e) => ExprTypeIsUnique(env, e, t);
    case _ =>
  }

  lemma {:induction false} LvalueTypeIsUnique(env: TypeEnv, l: Lvalue, t: DclType)
    requires LvalueHasType(env, l, t)
    ensures t == LvalueType(env, l) && t != Invalid
  {
    match l
    case Enclosed(inner) => LvalueTypeIsUnique(env, inner, t);
    case _ =>
  }

  /** The types of the operands of a typed sum or difference. */
  lemma OperandTypes(env: TypeEnv, e: Expr, t: DclType) returns (tl: DclType, tt: DclType)
    requires !e.JustTerm? && ExprHasType(env, e, t)
    ensures ExprHasType(env, e.left, tl) && TermHasType(env, e.term, tt)
    ensures tl == ExprType(env, e.left) && tt == TermType(env, e.term)
    ensures tl != Invalid && tt != Invalid
  {
    tl := if ExprHasType(env, e.left, Int) then Int else IntStar;
    tt := if TermHasType(env, e.term, Int) then Int else IntStar;
    ExprTypeIsUnique(env, e.left, tl);
    TermTypeIsUnique(env, e.term, tt);
  }
}
