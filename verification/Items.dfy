/** The completed items the recogniser leaves in the final chart for a syntax tree whose first token has index s,
    in order, noise included. Parameter `k` is what each tree of that kind starting at s completes in turn: every
    left part of a sum or product completes it as well, and so does the name of a called procedure. */
module Items {
  import opened Options
  import opened Symbols
  import opened Grammar
  import opened Earley
  import opened Wlp4Grammar
  import opened Numerals
  import opened Tokens
  import opened Ast
  import opened Yields

  /** Rule r completed from token s. */
  function Done(r: nat, s: nat): Elem
    requires r < 49
  {
    Elem(r, s, |RuleAt(r).rhs|)
  }

  function ExprRule(e: Expr): (r: nat)
    ensures 28 <= r <= 30
  {
    if e.JustTerm? then 28 else if e.Plus? then 29 else 30
  }

  function TermRule(t: Term): (r: nat)
    ensures 31 <= r <= 34
  {
    if t.JustFactor? then 31 else if t.Times? then 32 else if t.Slash? then 33 else 34
  }

  function ExprItems(e: Expr, s: nat, k: seq<Elem>): seq<Elem> {
    match e
    case JustTerm(term) => TermItems(term, s, [Done(28, s)] + k) + [Done(28, s)]
    case _ =>
      var top := Done(ExprRule(e), s);
      ExprItems(e.left, s, k) + k + TermItems(e.term, s + |ExprYield(e.left)| + 1, [top] + k) + [top]
  }

  function TermItems(t: Term, s: nat, k: seq<Elem>): seq<Elem> {
    match t
    case JustFactor(factor) => FactorItems(factor, s, [Done(31, s)] + k) + [Done(31, s)]
    case _ =>
      var top := Done(TermRule(t), s);
      TermItems(t.left, s, k) + k + FactorItems(t.factor, s + |TermYield(t.left)| + 1, [top] + k) + [top]
  }

  function FactorItems(f: Factor, s: nat, k: seq<Elem>): seq<Elem> {
    match f
    case Id(_) => [Done(35, s)]
    case Num(_) => [Done(36, s)]
    case NullValue => [Done(37, s)]
    case Paren(e) => ExprItems(e, s + 1, []) + [Done(38, s)]
    case NewArray(size) => ExprItems(size, s + 3, []) + [Done(41, s)]
    case AddressOf(lvalue) => LvalueItems(lvalue, s + 1, [Done(39, s)] + k) + [Done(39, s)]
    case Deref(pointer) => FactorItems(pointer, s + 1, [Done(40, s)] + k) + [Done(40, s)]
    case Call(_, NoArgs) => [Done(35, s)] + k + [Done(42, s)]
    case Call(_, args) => [Done(35, s)] + k + ArgsItems(args, s + 2, []) + [Done(43, s)]
  }

  function ArgsItems(args: Arglist, s: nat, k: seq<Elem>): seq<Elem> {
    match args
    case NoArgs => []
    case Args(e, NoArgs) => ExprItems(e, s, [Done(44, s)] + k) + [Done(44, s)]
    case Args(e, rest) =>
      ExprItems(e, s, [Done(44, s)] + k) + [Done(44, s)] + k +
      ArgsItems(rest, s + |ExprYield(e)| + 1, [Done(45, s)] + k) + [Done(45, s)]
  }

  function LvalueItems(l: Lvalue, s: nat, k: seq<Elem>): seq<Elem> {
    match l
    case Var(_) => [Done(46, s)]
    case Target(pointer) => FactorItems(pointer, s + 1, [Done(47, s)] + k) + [Done(47, s)]
    case Enclosed(inner) => LvalueItems(inner, s + 1, []) + [Done(48, s)]
  }

  predicate IsComparison(op: Symbol) {
    op == EQ || op == NE || op == LT || op == LE || op == GE || op == GT
  }

  function TestRule(op: Symbol): (r: nat)
    ensures 22 <= r <= 27
  {
    if op == EQ then 22 else if op == NE then 23 else if op == LT then 24 else if op == LE then 25
    else if op == GE then 26 else 27
  }

  function TestItems(t: Test, s: nat): seq<Elem> {
    var top := Done(TestRule(t.op), s);
    ExprItems(t.left, s, []) + ExprItems(t.right, s + |ExprYield(t.left)| + 1, [top]) + [top]
  }

  function StatementItems(st: Statement, s: nat): seq<Elem> {
    match st
    case Assign(lvalue, e) =>
      LvalueItems(lvalue, s, []) + ExprItems(e, s + |LvalueYield(lvalue)| + 1, []) + [Done(17, s)]
    case If(test, onTrue, onFalse) =>
      var s1 := s + |TestYield(test)| + 4;
      TestItems(test, s + 2) + BodyItems(onTrue, s1) + BodyItems(onFalse, s1 + |BodyYield(onTrue)| + 3) + [Done(18, s)]
    case While(test, body) =>
      TestItems(test, s + 2) + BodyItems(body, s + |TestYield(test)| + 4) + [Done(19, s)]
    case Println(e) => ExprItems(e, s + 2, []) + [Done(20, s)]
    case Delete(e) => ExprItems(e, s + 3, []) + [Done(21, s)]
  }

  function BodyItems(stmts: seq<Statement>, s: nat): seq<Elem> {
    if stmts == [] then [Done(15, s)]
    else
      var front, last := stmts[..|stmts| - 1], stmts[|stmts| - 1];
      BodyItems(front, s) + StatementItems(last, s + |BodyYield(front)|) + [Done(16, s)]
  }

  // ----- the values of the tokens -----

  /** Token s exists and its value is x. */
  predicate Spells(tokens: seq<Token>, s: nat, x: string) {
    s < |tokens| && tokens[s].value == x
  }

  predicate ExprSpelled(tokens: seq<Token>, s: nat, e: Expr)
    decreases e
  {
    match e
    case JustTerm(term) => TermSpelled(tokens, s, term)
    case _ => ExprSpelled(tokens, s, e.left) && TermSpelled(tokens, s + |ExprYield(e.left)| + 1, e.term)
  }

  predicate TermSpelled(tokens: seq<Token>, s: nat, t: Term)
    decreases t
  {
    match t
    case JustFactor(factor) => FactorSpelled(tokens, s, factor)
    case _ => TermSpelled(tokens, s, t.left) && FactorSpelled(tokens, s + |TermYield(t.left)| + 1, t.factor)
  }

  predicate FactorSpelled(tokens: seq<Token>, s: nat, f: Factor)
    decreases f
  {
    match f
    case Id(name) => Spells(tokens, s, name)
    case Num(n) => s < |tokens| && Stoi(tokens[s].value) == Some(n)
    case NullValue => true
    case Paren(e) => ExprSpelled(tokens, s + 1, e)
    case NewArray(size) => ExprSpelled(tokens, s + 3, size)
    case AddressOf(lvalue) => LvalueSpelled(tokens, s + 1, lvalue)
    case Deref(pointer) => FactorSpelled(tokens, s + 1, pointer)
    case Call(callee, args) => Spells(tokens, s, callee) && ArgsSpelled(tokens, s + 2, args)
  }

  predicate ArgsSpelled(tokens: seq<Token>, s: nat, args: Arglist)
    decreases args
  {
    match args
    case NoArgs => true
    case Args(e, rest) => ExprSpelled(tokens, s, e) && ArgsSpelled(tokens, s + |ExprYield(e)| + 1, rest)
  }

  predicate LvalueSpelled(tokens: seq<Token>, s: nat, l: Lvalue)
    decreases l
  {
    match l
    case Var(name) => Spells(tokens, s, name)
    case Target(pointer) => FactorSpelled(tokens, s + 1, pointer)
    case Enclosed(inner) => LvalueSpelled(tokens, s + 1, inner)
  }

  predicate TestSpelled(tokens: seq<Token>, s: nat, t: Test) {
    && IsComparison(t.op)
    && ExprSpelled(tokens, s, t.left)
    && ExprSpelled(tokens, s + |ExprYield(t.left)| + 1, t.right)
  }

  predicate StatementSpelled(tokens: seq<Token>, s: nat, st: Statement)
    decreases st
  {
    match st
    case Assign(lvalue, e) =>
      LvalueSpelled(tokens, s, lvalue) && ExprSpelled(tokens, s + |LvalueYield(lvalue)| + 1, e)
    case If(test, onTrue, onFalse) =>
      var s1 := s + |TestYield(test)| + 4;
      && TestSpelled(tokens, s + 2, test)
      && BodySpelled(tokens, s1, onTrue)
      && BodySpelled(tokens, s1 + |BodyYield(onTrue)| + 3, onFalse)
    case While(test, body) => TestSpelled(tokens, s + 2, test) && BodySpelled(tokens, s + |TestYield(test)| + 4, body)
    case Println(e) => ExprSpelled(tokens, s + 2, e)
    case Delete(e) => ExprSpelled(tokens, s + 3, e)
  }

  predicate BodySpelled(tokens: seq<Token>, s: nat, stmts: seq<Statement>)
    decreases stmts
  {
    stmts == [] ||
    var front, last := stmts[..|stmts| - 1], stmts[|stmts| - 1];
    BodySpelled(tokens, s, front) && StatementSpelled(tokens, s + |BodyYield(front)|, last)
  }

  // ----- calls and what they leave behind -----

  /** The first name or number of the tree is the name of a called procedure. */
  predicate ExprOpensWithCall(e: Expr) {
    match e
    case JustTerm(term) => TermOpensWithCall(term)
    case _ => ExprOpensWithCall(e.left)
  }

  predicate TermOpensWithCall(t: Term) {
    match t
    case JustFactor(factor) => FactorOpensWithCall(factor)
    case _ => TermOpensWithCall(t.left)
  }

  predicate FactorOpensWithCall(f: Factor) {
    match f
    case Paren(e) => ExprOpensWithCall(e)
    case NewArray(size) => ExprOpensWithCall(size)
    case AddressOf(lvalue) => LvalueOpensWithCall(lvalue)
    case Deref(pointer) => FactorOpensWithCall(pointer)
    case Call(_, _) => true
    case _ => false
  }

  predicate LvalueOpensWithCall(l: Lvalue) {
    match l
    case Var(_) => false
    case Target(pointer) => FactorOpensWithCall(pointer)
    case Enclosed(inner) => LvalueOpensWithCall(inner)
  }

  /** No right operand and no later argument opens with a call. */
  predicate ExprCallsFirst(e: Expr) {
    match e
    case JustTerm(term) => TermCallsFirst(term)
    case _ => ExprCallsFirst(e.left) && TermCallsFirst(e.term) && !TermOpensWithCall(e.term)
  }

  predicate TermCallsFirst(t: Term) {
    match t
    case JustFactor(factor) => FactorCallsFirst(factor)
    case _ => TermCallsFirst(t.left) && FactorCallsFirst(t.factor) && !FactorOpensWithCall(t.factor)
  }

  predicate FactorCallsFirst(f: Factor) {
    match f
    case Paren(e) => ExprCallsFirst(e)
    case NewArray(size) => ExprCallsFirst(size)
    case AddressOf(lvalue) => LvalueCallsFirst(lvalue)
    case Deref(pointer) => FactorCallsFirst(pointer)
    case Call(_, args) => ArgsCallsFirst(args)
    case _ => true
  }

  predicate ArgsCallsFirst(args: Arglist) {
    match args
    case NoArgs => true
    case Args(e, rest) =>
      ExprCallsFirst(e) && ArgsCallsFirst(rest) && (rest.Args? ==> !ExprOpensWithCall(rest.expr))
  }

  predicate LvalueCallsFirst(l: Lvalue) {
    match l
    case Var(_) => true
    case Target(pointer) => FactorCallsFirst(pointer)
    case Enclosed(inner) => LvalueCallsFirst(inner)
  }

  predicate TestCallsFirst(t: Test) {
    ExprCallsFirst(t.left) && ExprCallsFirst(t.right) && !ExprOpensWithCall(t.right)
  }

  predicate StatementCallsFirst(s: Statement) {
    match s
    case Assign(lvalue, e) => LvalueCallsFirst(lvalue) && ExprCallsFirst(e)
    case If(test, onTrue, onFalse) =>
      && TestCallsFirst(test)
      && (forall i :: 0 <= i < |onTrue| ==> StatementCallsFirst(onTrue[i]))
      && (forall i :: 0 <= i < |onFalse| ==> StatementCallsFirst(onFalse[i]))
    case While(test, body) =>
      TestCallsFirst(test) && (forall i :: 0 <= i < |body| ==> StatementCallsFirst(body[i]))
    case Println(e) => ExprCallsFirst(e)
    case Delete(e) => ExprCallsFirst(e)
  }

  /** The items below a tree's own that the reader has not passed when it has read the tree. */
  function ExprResidue(e: Expr, s: nat, k: seq<Elem>): seq<Elem> {
    match e
    case JustTerm(term) => TermResidue(term, s, [Done(28, s)] + k)
    case _ => ExprResidue(e.left, s, k)
  }

  function TermResidue(t: Term, s: nat, k: seq<Elem>): seq<Elem> {
    match t
    case JustFactor(factor) => FactorResidue(factor, s, [Done(31, s)] + k)
    case _ => TermResidue(t.left, s, k)
  }

  function FactorResidue(f: Factor, s: nat, k: seq<Elem>): seq<Elem> {
    match f
    case Paren(e) => ExprResidue(e, s + 1, [])
    case NewArray(size) => ExprResidue(size, s + 3, [])
    case AddressOf(lvalue) => LvalueResidue(lvalue, s + 1, [Done(39, s)] + k)
    case Deref(pointer) => FactorResidue(pointer, s + 1, [Done(40, s)] + k)
    case Call(_, args) => [Done(35, s)] + k + ArgsResidue(args, s + 2, [])
    case _ => []
  }

  function ArgsResidue(args: Arglist, s: nat, k: seq<Elem>): seq<Elem> {
    match args
    case NoArgs => []
    case Args(e, _) => ExprResidue(e, s, [Done(44, s)] + k)
  }

  function LvalueResidue(l: Lvalue, s: nat, k: seq<Elem>): seq<Elem> {
    match l
    case Var(_) => []
    case Target(pointer) => FactorResidue(pointer, s + 1, [Done(47, s)] + k)
    case Enclosed(inner) => LvalueResidue(inner, s + 1, [])
  }

  function StatementResidue(st: Statement, s: nat): seq<Elem> {
    match st
    case Assign(lvalue, _) => LvalueResidue(lvalue, s, [])
    case If(test, _, _) => ExprResidue(test.left, s + 2, [])
    case While(test, _) => ExprResidue(test.left, s + 2, [])
    case Println(e) => ExprResidue(e, s + 2, [])
    case Delete(e) => ExprResidue(e, s + 3, [])
  }
}
