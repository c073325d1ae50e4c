/** What the backward chart reader computes: each function walks down from item i to the next item with the wanted
    left-hand side and gives the tree with the position of the item to go on from. */
module Reading {
  import opened Options
  import opened Symbols
  import opened Tokens
  import opened Earley
  import opened Wlp4Grammar
  import opened Numerals
  import opened Ast
  import opened Types

  datatype ParseError =
    | Missing(sym: Symbol)
    | OutOfRange
    | InvalidExpr
    | IntsExpected
    | IntExpected
    | PointerExpected
    | DifferentTypes
    | BadNumber
    | UnknownProcedure
    | WainCallsItself
    | DeclaredLater
    | WrongArity
    | Redeclared(name: string)

  datatype Result<+T> = Ok(value: T) | Err(error: ParseError) {
    predicate IsFailure() {
      Err?
    }

    function PropagateFailure<U>(): Result<U>
      requires Err?
    {
      Err(error)
    }

    function Extract(): T
      requires Ok?
    {
      value
    }
  }

  /** What a body is read against: the final chart, the tokens, the types of the current procedure's names, the
      procedures in source order with their numbers of parameters, and the current procedure. */
  datatype Context = Context(
    chart: seq<Elem>,
    tokens: seq<Token>,
    env: TypeEnv,
    names: seq<string>,
    arity: map<string, nat>,
    caller: string)

  predicate IsChart(chart: seq<Elem>) {
    forall k :: 0 <= k < |chart| ==> chart[k].rule < 49
  }

  /** Item i is there to be looked at, or the chart is used up. */
  predicate Ready(c: Context, i: int) {
    IsChart(c.chart) && -1 <= i < |c.chart|
  }

  function Lhs(chart: seq<Elem>, k: int): Symbol
    requires IsChart(chart) && 0 <= k < |chart|
  {
    RuleAt(chart[k].rule).lhs
  }

  /** The last item at or below i with the wanted left-hand side, or -1. */
  function Find(chart: seq<Elem>, sym: Symbol, i: int): (k: int)
    requires IsChart(chart) && -1 <= i < |chart|
    ensures -1 <= k <= i
    ensures k >= 0 ==> Lhs(chart, k) == sym
  {
    if i < 0 || Lhs(chart, i) == sym then i else Find(chart, sym, i - 1)
  }

  function ValueAt(tokens: seq<Token>, n: nat): Result<string> {
    if n < |tokens| then Ok(tokens[n].value) else Err(OutOfRange)
  }

  // ----- calls -----

  /** The callee is declared no later than the caller. */
  predicate DeclaredInTime(names: seq<string>, caller: string, callee: string) {
    exists i :: 0 <= i < |names| && names[i] == callee && caller !in names[..i]
  }

  function CheckCall(c: Context, callee: string): Option<ParseError> {
    if callee !in c.arity then Some(UnknownProcedure)
    else if c.caller == "wain" && callee == "wain" then Some(WainCallsItself)
    else if !DeclaredInTime(c.names, c.caller, callee) then Some(DeclaredLater)
    else None
  }

  function NumArgs(args: Arglist): nat {
    match args
    case NoArgs => 0
    case Args(_, rest) => 1 + NumArgs(rest)
  }

  // ----- expressions -----

  lemma FactorRules(r: nat)
    requires r < 49 && RuleAt(r).lhs == FACTOR
    ensures 35 <= r <= 43 && RuleAt(r).rhs != []
  {
  }

  lemma LvalueRules(r: nat)
    requires r < 49 && RuleAt(r).lhs == LVALUE
    ensures 46 <= r <= 48 && RuleAt(r).rhs != []
  {
  }

  function ReadExpr(c: Context, i: int): (r: Result<(Expr, int)>)
    requires Ready(c, i)
    ensures r.Ok? ==> -1 <= r.value.1 < i
    decreases i + 1
  {
    var k := Find(c.chart, EXPR, i);
    if k < 0 then Err(Missing(EXPR))
    else
      var rhs := RuleAt(c.chart[k].rule).rhs;
      var (t, j) :- ReadTerm(c, k - 1);
      var (e, m) :-
        if |rhs| > 1 && rhs[1] == PLUS then
          var (l, m) :- ReadExpr(c, j);
          Ok((Plus(l, t), m))
        else if |rhs| > 1 && rhs[1] == MINUS then
          var (l, m) :- ReadExpr(c, j);
          Ok((Minus(l, t), m))
        else Ok((JustTerm(t), j));
      if ExprType(c.env, e) == Invalid then Err(InvalidExpr) else Ok((e, m))
  }

  function ReadTerm(c: Context, i: int): (r: Result<(Term, int)>)
    requires Ready(c, i)
    ensures r.Ok? ==> -1 <= r.value.1 < i
    decreases i + 1
  {
    var k := Find(c.chart, TERM, i);
    if k < 0 then Err(Missing(TERM))
    else
      var rhs := RuleAt(c.chart[k].rule).rhs;
      var (f, j) :- ReadFactor(c, k - 1);
      if |rhs| <= 1 then Ok((JustFactor(f), j))
      else
        var (l, m) :- ReadTerm(c, j);
        var t := if rhs[1] == STAR then Times(l, f) else if rhs[1] == SLASH then Slash(l, f) else Percent(l, f);
        if TermType(c.env, t) == Invalid then Err(IntsExpected) else Ok((t, m))
  }

  function ReadFactor(c: Context, i: int): (r: Result<(Factor, int)>)
    requires Ready(c, i)
    ensures r.Ok? ==> -1 <= r.value.1 < i
    decreases i + 1
  {
    var k := Find(c.chart, FACTOR, i);
    if k < 0 then Err(Missing(FACTOR))
    else
      var rhs := (FactorRules(c.chart[k].rule); RuleAt(c.chart[k].rule).rhs);
      if |rhs| == 1 then ReadLeaf(c, k)
      else if rhs[0] == ID then ReadCall(c, k)
      else if rhs[0] == LPAREN then
        var (e, j) :- ReadExpr(c, k - 1);
        Ok((Paren(e), j))
      else if rhs[0] == AMP then
        var (l, j) :- ReadLvalue(c, k - 1);
        if LvalueType(c.env, l) != Int then Err(IntExpected) else Ok((AddressOf(l), j))
      else if rhs[0] == STAR then
        var (f, j) :- ReadFactor(c, k - 1);
        if FactorType(c.env, f) != IntStar then Err(PointerExpected) else Ok((Deref(f), j))
      else
        var (e, j) :- ReadExpr(c, k - 1);
        if ExprType(c.env, e) != Int then Err(IntExpected) else Ok((NewArray(e), j))
  }

  /** A factor that is one token, at item k. */
  function ReadLeaf(c: Context, k: nat): (r: Result<(Factor, int)>)
    requires Ready(c, k) && Lhs(c.chart, k) == FACTOR
    ensures r.Ok? ==> r.value.1 == k - 1
  {
    var rhs := (FactorRules(c.chart[k].rule); RuleAt(c.chart[k].rule).rhs);
    if rhs[0] == ID then
      var name :- ValueAt(c.tokens, c.chart[k].start);
      Ok((Id(name), k - 1))
    else if rhs[0] == NUM then
      var text :- ValueAt(c.tokens, c.chart[k].start);
      match Stoi(text)
      case None => Err(BadNumber)
      case Some(n) => Ok((Num(n), k - 1))
    else Ok((NullValue, k - 1))
  }

  /** A call, at item k. */
  function ReadCall(c: Context, k: nat): (r: Result<(Factor, int)>)
    requires Ready(c, k)
    ensures r.Ok? ==> -1 <= r.value.1 < k
    decreases k + 1, 0
  {
    var name :- ValueAt(c.tokens, c.chart[k].start);
    match CheckCall(c, name)
    case Some(error) => Err(error)
    case None =>
      if |RuleAt(c.chart[k].rule).rhs| == 3 then
        if c.arity[name] != 0 then Err(WrongArity) else Ok((Call(name, NoArgs), k - 1))
      else
        var (args, j) :- ReadArglist(c, k - 1);
        if NumArgs(args) != c.arity[name] then Err(WrongArity) else Ok((Call(name, args), j))
  }

  function ReadLvalue(c: Context, i: int): (r: Result<(Lvalue, int)>)
    requires Ready(c, i)
    ensures r.Ok? ==> -1 <= r.value.1 < i
    decreases i + 1
  {
    var k := Find(c.chart, LVALUE, i);
    if k < 0 then Err(Missing(LVALUE))
    else
      var rhs := (LvalueRules(c.chart[k].rule); RuleAt(c.chart[k].rule).rhs);
      if rhs[0] == ID then
        var name :- ValueAt(c.tokens, c.chart[k].start);
        Ok((Var(name), k - 1))
      else if rhs[0] == STAR then
        var (f, j) :- ReadFactor(c, k - 1);
        if FactorType(c.env, f) != IntStar then Err(PointerExpected) else Ok((Target(f), j))
      else
        var (l, j) :- ReadLvalue(c, k - 1);
        Ok((Enclosed(l), j))
  }

  function ReadArglist(c: Context, i: int): (r: Result<(Arglist, int)>)
    requires Ready(c, i)
    ensures r.Ok? ==> -1 <= r.value.1 < i
    decreases i + 1
  {
    var k := Find(c.chart, ARGLIST, i);
    if k < 0 then Err(Missing(ARGLIST))
    else if |RuleAt(c.chart[k].rule).rhs| == 1 then
      var (e, j) :- ReadExpr(c, k - 1);
      Ok((Args(e, NoArgs), j))
    else
      var (rest, j) :- ReadArglist(c, k - 1);
      var (e, m) :- ReadExpr(c, j);
      Ok((Args(e, rest), m))
  }

  // ----- statements -----

  lemma StatementRules(r: nat)
    requires r < 49 && RuleAt(r).lhs == STATEMENT
    ensures 17 <= r <= 21 && RuleAt(r).rhs != []
  {
  }

  lemma TestRules(r: nat)
    requires r < 49 && RuleAt(r).lhs == TEST
    ensures 22 <= r <= 27 && |RuleAt(r).rhs| == 3
  {
  }

  function ReadTest(c: Context, i: int): (r: Result<(Test, int)>)
    requires Ready(c, i)
    ensures r.Ok? ==> -1 <= r.value.1 < i
  {
    var k := Find(c.chart, TEST, i);
    if k < 0 then Err(Missing(TEST))
    else
      var rhs := (TestRules(c.chart[k].rule); RuleAt(c.chart[k].rule).rhs);
      var (right, j) :- ReadExpr(c, k - 1);
      var (left, m) :- ReadExpr(c, j);
      if ExprType(c.env, right) != ExprType(c.env, left) then Err(DifferentTypes)
      else Ok((Test(rhs[1], left, right), m))
  }

  /** Statements up to the empty list they start from. */
  function ReadBody(c: Context, i: int): (r: Result<(seq<Statement>, int)>)
    requires Ready(c, i)
    ensures r.Ok? ==> -1 <= r.value.1 < i
    decreases i + 1
  {
    var k := Find(c.chart, STATEMENTS, i);
    if k < 0 then Err(Missing(STATEMENTS))
    else if RuleAt(c.chart[k].rule).rhs == [] then Ok(([], k - 1))
    else
      var (s, j) :- ReadStatement(c, k - 1);
      var (front, m) :- ReadBody(c, j);
      Ok((front + [s], m))
  }

  function ReadStatement(c: Context, i: int): (r: Result<(Statement, int)>)
    requires Ready(c, i)
    ensures r.Ok? ==> -1 <= r.value.1 < i
    decreases i + 1
  {
    var k := Find(c.chart, STATEMENT, i);
    if k < 0 then Err(Missing(STATEMENT))
    else
      var rhs := (StatementRules(c.chart[k].rule); RuleAt(c.chart[k].rule).rhs);
      if rhs[0] == LVALUE then
        var (e, j) :- ReadExpr(c, k - 1);
        var (l, m) :- ReadLvalue(c, j);
        if ExprType(c.env, e) != LvalueType(c.env, l) then Err(DifferentTypes) else Ok((Assign(l, e), m))
      else if rhs[0] == IF then
        var (onFalse, j) :- ReadBody(c, k - 1);
        var (onTrue, m) :- ReadBody(c, j);
        var (test, n) :- ReadTest(c, m);
        Ok((If(test, onTrue, onFalse), n))
      else if rhs[0] == WHILE then
        var (body, j) :- ReadBody(c, k - 1);
        var (test, m) :- ReadTest(c, j);
        Ok((While(test, body), m))
      else if rhs[0] == PRINTLN then
        var (e, j) :- ReadExpr(c, k - 1);
        if ExprType(c.env, e) != Int then Err(IntExpected) else Ok((Println(e), j))
      else
        var (e, j) :- ReadExpr(c, k - 1);
        if ExprType(c.env, e) != IntStar then Err(PointerExpected) else Ok((Delete(e), j))
  }
}
