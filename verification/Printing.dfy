/** Programs written out: the tokens of every tree, by the table of spellings. */
module Printing {
  import opened Options
  import opened Symbols
  import opened Grammar
  import opened Tokens
  import opened Numerals
  import opened Ast
  import opened Yields
  import opened Items
  import opened Programs
  import opened Texts

  /** The token of a terminal with a fixed spelling. */
  function Fixed(a: Symbol): seq<Token> {
    [Token(a, Spelled(a))]
  }

  function NameToken(name: string): seq<Token> {
    [Token(ID, name)]
  }

  // ----- the tokens of trees -----

  function ExprTokens(e: Expr): seq<Token> {
    match e
    case JustTerm(t) => TermTokens(t)
    case Plus(l, t) => ExprTokens(l) + (Fixed(PLUS) + TermTokens(t))
    case Minus(l, t) => ExprTokens(l) + (Fixed(MINUS) + TermTokens(t))
  }

  function TermTokens(t: Term): seq<Token> {
    match t
    case JustFactor(f) => FactorTokens(f)
    case Times(l, f) => TermTokens(l) + (Fixed(STAR) + FactorTokens(f))
    case Slash(l, f) => TermTokens(l) + (Fixed(SLASH) + FactorTokens(f))
    case Percent(l, f) => TermTokens(l) + (Fixed(PCT) + FactorTokens(f))
  }

  function FactorTokens(f: Factor): seq<Token> {
    match f
    case Id(name) => NameToken(name)
    case Num(n) => [Token(NUM, Spelling(n))]
    case NullValue => Fixed(NULL)
    case Paren(e) => Fixed(LPAREN) + (ExprTokens(e) + Fixed(RPAREN))
    case NewArray(size) => Fixed(NEW) + Fixed(INT) + Fixed(LBRACK) + (ExprTokens(size) + Fixed(RBRACK))
    case AddressOf(l) => Fixed(AMP) + LvalueTokens(l)
    case Deref(g) => Fixed(STAR) + FactorTokens(g)
    case Call(callee, args) => NameToken(callee) + Fixed(LPAREN) + (ArgsTokens(args) + Fixed(RPAREN))
  }

  function ArgsTokens(args: Arglist): seq<Token> {
    match args
    case NoArgs => []
    case Args(e, NoArgs) => ExprTokens(e)
    case Args(e, rest) => ExprTokens(e) + (Fixed(COMMA) + ArgsTokens(rest))
  }

  function LvalueTokens(l: Lvalue): seq<Token> {
    match l
    case Var(name) => NameToken(name)
    case Target(f) => Fixed(STAR) + FactorTokens(f)
    case Enclosed(inner) => Fixed(LPAREN) + (LvalueTokens(inner) + Fixed(RPAREN))
  }

  function TestTokens(t: Test): seq<Token> {
    ExprTokens(t.left) + (Fixed(t.op) + ExprTokens(t.right))
  }

  function StatementTokens(s: Statement): seq<Token> {
    match s
    case Assign(l, e) => LvalueTokens(l) + (Fixed(BECOMES) + (ExprTokens(e) + Fixed(SEMI)))
    case If(t, onTrue, onFalse) =>
      Fixed(IF) + Fixed(LPAREN) + (TestTokens(t) + (Fixed(RPAREN) + Fixed(LBRACE) + (BodyTokens(onTrue) +
        (Fixed(RBRACE) + Fixed(ELSE) + Fixed(LBRACE) + (BodyTokens(onFalse) + Fixed(RBRACE))))))
    case While(t, body) =>
      Fixed(WHILE) + Fixed(LPAREN) +
      (TestTokens(t) + (Fixed(RPAREN) + Fixed(LBRACE) + (BodyTokens(body) + Fixed(RBRACE))))
    case Println(e) => Fixed(PRINTLN) + Fixed(LPAREN) + (ExprTokens(e) + (Fixed(RPAREN) + Fixed(SEMI)))
    case Delete(e) => Fixed(DELETE) + Fixed(LBRACK) + Fixed(RBRACK) + (ExprTokens(e) + Fixed(SEMI))
  }

  function BodyTokens(stmts: seq<Statement>): seq<Token> {
    if stmts == [] then [] else BodyTokens(stmts[..|stmts| - 1]) + StatementTokens(stmts[|stmts| - 1])
  }

  function DclTokens(d: Dcl): seq<Token> {
    Fixed(INT) + ((if d.dclType == IntStar then Fixed(STAR) else []) + NameToken(d.id))
  }

  function ParamsTokens(ds: seq<Dcl>): seq<Token> {
    if ds == [] then []
    else if |ds| == 1 then DclTokens(ds[0])
    else ParamsTokens(ds[..|ds| - 1]) + (Fixed(COMMA) + DclTokens(ds[|ds| - 1]))
  }

  /** An initial value is NULL or a number. */
  function InitialTokens(d: Dcl): seq<Token> {
    Fixed(BECOMES) + ([Token(if d.value == "NULL" then NULL else NUM, d.value)] + Fixed(SEMI))
  }

  function DclsTokens(ds: seq<Dcl>): seq<Token> {
    if ds == [] then []
    else
      var d := ds[|ds| - 1];
      DclsTokens(ds[..|ds| - 1]) + (DclTokens(d) + InitialTokens(d))
  }

  function ProcedureTokens(p: Procedure): seq<Token> {
    Fixed(INT) + ((if p.name == "wain" then Fixed(WAIN) else NameToken(p.name)) + Fixed(LPAREN)) +
    (ParamsTokens(p.params) + (Fixed(RPAREN) + Fixed(LBRACE) + (DclsTokens(p.dcls) + (BodyTokens(p.stmts) +
      (Fixed(RETURN) + (ExprTokens(p.ret) + (Fixed(SEMI) + Fixed(RBRACE))))))))
  }

  function ProgramTokens(ps: seq<Procedure>): seq<Token> {
    if ps == [] then [] else ProgramTokens(ps[..|ps| - 1]) + ProcedureTokens(ps[|ps| - 1])
  }

  // ----- they are of the kinds and values of the trees -----

  /** From token s on the tokens are xs. */
  predicate Lies(tokens: seq<Token>, s: nat, xs: seq<Token>) {
    s + |xs| <= |tokens| && tokens[s..s + |xs|] == xs
  }

  predicate AreOfKinds(xs: seq<Token>, z: Form) {
    |xs| == |z| && forall i :: 0 <= i < |xs| ==> xs[i].kind == z[i]
  }

  lemma LiesParts(tokens: seq<Token>, s: nat, xs: seq<Token>, ys: seq<Token>)
    requires Lies(tokens, s, xs + ys)
    ensures Lies(tokens, s, xs) && Lies(tokens, s + |xs|, ys)
  {
    var all := tokens[s..s + |xs + ys|];
    assert tokens[s..s + |xs|] == all[..|xs|] == xs;
    assert tokens[s + |xs|..s + |xs| + |ys|] == all[|xs|..] == ys;
  }

  lemma LiesOne(tokens: seq<Token>, s: nat, t: Token)
    requires Lies(tokens, s, [t])
    ensures Spells(tokens, s, t.value)
  {
    assert tokens[s..s + 1][0] == tokens[s];
  }

  lemma KindsJoin(xs: seq<Token>, y: Form, ys: seq<Token>, z: Form)
    requires AreOfKinds(xs, y) && AreOfKinds(ys, z)
    ensures AreOfKinds(xs + ys, y + z)
  {
  }

  lemma FixedKind(a: Symbol)
    ensures AreOfKinds(Fixed(a), [a])
  {
  }

  /** A part, a token and another part. */
  lemma KindsOfThree(xs: seq<Token>, y: Form, a: Symbol, ys: seq<Token>, z: Form)
    requires AreOfKinds(xs, y) && AreOfKinds(ys, z)
    ensures AreOfKinds(xs + (Fixed(a) + ys), y + [a] + z)
  {
    FixedKind(a);
    KindsJoin(Fixed(a), [a], ys, z);
    KindsJoin(xs, y, Fixed(a) + ys, [a] + z);
    assert y + ([a] + z) == y + [a] + z;
  }

  /** A part between two sequences of tokens. */
  lemma KindsBetween(p: seq<Token>, y: Form, xs: seq<Token>, z: Form, q: seq<Token>, u: Form)
    requires AreOfKinds(p, y) && AreOfKinds(xs, z) && AreOfKinds(q, u)
    ensures AreOfKinds(p + (xs + q), y + z + u)
  {
    KindsJoin(xs, z, q, u);
    KindsJoin(p, y, xs + q, z + u);
    assert y + (z + u) == y + z + u;
  }

  lemma LiesThree(tokens: seq<Token>, s: nat, xs: seq<Token>, a: Symbol, ys: seq<Token>)
    requires Lies(tokens, s, xs + (Fixed(a) + ys))
    ensures Lies(tokens, s, xs) && Lies(tokens, s + |xs| + 1, ys)
  {
    LiesParts(tokens, s, xs, Fixed(a) + ys);
    LiesParts(tokens, s + |xs|, Fixed(a), ys);
  }

  lemma LiesBetween(tokens: seq<Token>, s: nat, p: seq<Token>, xs: seq<Token>, q: seq<Token>)
    requires Lies(tokens, s, p + (xs + q))
    ensures Lies(tokens, s, p) && Lies(tokens, s + |p|, xs) && Lies(tokens, s + |p| + |xs|, q)
  {
    LiesParts(tokens, s, p, xs + q);
    LiesParts(tokens, s + |p|, xs, q);
  }

  // ----- expressions -----

  lemma {:induction false} ExprPrints(tokens: seq<Token>, s: nat, e: Expr)
    requires Lies(tokens, s, ExprTokens(e)) && AreWritten(ExprTokens(e))
    ensures AreOfKinds(ExprTokens(e), ExprYield(e)) && ExprSpelled(tokens, s, e)
    decreases e
  {
    hide Lies, AreOfKinds, AreWritten, Fixed, TermTokens, TermYield, TermSpelled;
    match e
    case JustTerm(t) => TermPrints(tokens, s, t);
    case _ =>
      var op := if e.Plus? then PLUS else MINUS;
      WrittenThree(ExprTokens(e.left), op, TermTokens(e.term));
      LiesThree(tokens, s, ExprTokens(e.left), op, TermTokens(e.term));
      ExprPrints(tokens, s, e.left);
      SameLength(ExprTokens(e.left), ExprYield(e.left));
      TermPrints(tokens, s + |ExprYield(e.left)| + 1, e.term);
      KindsOfThree(ExprTokens(e.left), ExprYield(e.left), op, TermTokens(e.term), TermYield(e.term));
  }

  predicate AreWritten(xs: seq<Token>) {
    forall i :: 0 <= i < |xs| ==> IsWritten(xs[i])
  }

  lemma WrittenParts(xs: seq<Token>, ys: seq<Token>)
    requires AreWritten(xs + ys)
    ensures AreWritten(xs) && AreWritten(ys)
  {
    hide IsWritten;
    assert forall i :: 0 <= i < |xs| ==> (xs + ys)[i] == xs[i];
    forall i | 0 <= i < |ys|
      ensures IsWritten(ys[i])
    {
      assert (xs + ys)[|xs| + i] == ys[i];
    }
  }

  lemma WrittenThree(xs: seq<Token>, a: Symbol, ys: seq<Token>)
    requires AreWritten(xs + (Fixed(a) + ys))
    ensures AreWritten(xs) && AreWritten(ys)
  {
    WrittenParts(xs, Fixed(a) + ys);
    WrittenParts(Fixed(a), ys);
  }

  lemma WrittenBetween(p: seq<Token>, xs: seq<Token>, q: seq<Token>)
    requires AreWritten(p + (xs + q))
    ensures AreWritten(p) && AreWritten(xs) && AreWritten(q)
  {
    WrittenParts(p, xs + q);
    WrittenParts(xs, q);
  }

  lemma SameLength(xs: seq<Token>, z: Form)
    requires AreOfKinds(xs, z)
    ensures |xs| == |z|
  {
  }

  lemma {:induction false} TermPrints(tokens: seq<Token>, s: nat, t: Term)
    requires Lies(tokens, s, TermTokens(t)) && AreWritten(TermTokens(t))
    ensures AreOfKinds(TermTokens(t), TermYield(t)) && TermSpelled(tokens, s, t)
    decreases t
  {
    hide Lies, AreOfKinds, AreWritten, Fixed, FactorTokens, FactorYield, FactorSpelled;
    match t
    case JustFactor(f) => FactorPrints(tokens, s, f);
    case _ =>
      var op := if t.Times? then STAR else if t.Slash? then SLASH else PCT;
      WrittenThree(TermTokens(t.left), op, FactorTokens(t.factor));
      LiesThree(tokens, s, TermTokens(t.left), op, FactorTokens(t.factor));
      TermPrints(tokens, s, t.left);
      SameLength(TermTokens(t.left), TermYield(t.left));
      FactorPrints(tokens, s + |TermYield(t.left)| + 1, t.factor);
      KindsOfThree(TermTokens(t.left), TermYield(t.left), op, FactorTokens(t.factor), FactorYield(t.factor));
  }

  lemma FixedKinds(a: Symbol, b: Symbol, c: Symbol)
    ensures AreOfKinds(Fixed(a), [a]) && AreOfKinds(Fixed(a) + Fixed(b), [a, b])
    ensures AreOfKinds(Fixed(a) + Fixed(b) + Fixed(c), [a, b, c])
    ensures |Fixed(a)| == 1
  {
  }

  lemma {:induction false} FactorPrints(tokens: seq<Token>, s: nat, f: Factor)
    requires Lies(tokens, s, FactorTokens(f)) && AreWritten(FactorTokens(f))
    ensures AreOfKinds(FactorTokens(f), FactorYield(f)) && FactorSpelled(tokens, s, f)
    decreases f
  {
    hide Lies, AreOfKinds, AreWritten, Fixed, NameToken, ExprTokens, ExprYield, ExprSpelled, LvalueTokens, LvalueYield,
         LvalueSpelled;
    match f
    case Paren(e) =>
      WrittenBetween(Fixed(LPAREN), ExprTokens(e), Fixed(RPAREN));
      LiesBetween(tokens, s, Fixed(LPAREN), ExprTokens(e), Fixed(RPAREN));
      FixedKinds(LPAREN, LPAREN, LPAREN);
      FixedKinds(RPAREN, RPAREN, RPAREN);
      ExprPrints(tokens, s + 1, e);
      KindsBetween(Fixed(LPAREN), [LPAREN], ExprTokens(e), ExprYield(e), Fixed(RPAREN), [RPAREN]);
    case NewArray(e) =>
      var p := Fixed(NEW) + Fixed(INT) + Fixed(LBRACK);
      WrittenBetween(p, ExprTokens(e), Fixed(RBRACK));
      LiesBetween(tokens, s, p, ExprTokens(e), Fixed(RBRACK));
      FixedKinds(NEW, INT, LBRACK);
      SameLength(p, [NEW, INT, LBRACK]);
      FixedKinds(RBRACK, RBRACK, RBRACK);
      ExprPrints(tokens, s + 3, e);
      KindsBetween(p, [NEW, INT, LBRACK], ExprTokens(e), ExprYield(e), Fixed(RBRACK), [RBRACK]);
    case AddressOf(l) =>
      WrittenParts(Fixed(AMP), LvalueTokens(l));
      LiesParts(tokens, s, Fixed(AMP), LvalueTokens(l));
      FixedKinds(AMP, AMP, AMP);
      LvaluePrints(tokens, s + 1, l);
      KindsJoin(Fixed(AMP), [AMP], LvalueTokens(l), LvalueYield(l));
    case Deref(g) =>
      WrittenParts(Fixed(STAR), FactorTokens(g));
      LiesParts(tokens, s, Fixed(STAR), FactorTokens(g));
      FixedKinds(STAR, STAR, STAR);
      FactorPrints(tokens, s + 1, g);
      KindsJoin(Fixed(STAR), [STAR], FactorTokens(g), FactorYield(g));
    case Call(callee, args) => CallPrints(tokens, s, callee, args);
    case _ => LeafPrints(tokens, s, f);
  }

  lemma LeafPrints(tokens: seq<Token>, s: nat, f: Factor)
    requires (f.Id? || f.Num? || f.NullValue?) && Lies(tokens, s, FactorTokens(f)) && AreWritten(FactorTokens(f))
    ensures AreOfKinds(FactorTokens(f), FactorYield(f)) && FactorSpelled(tokens, s, f)
  {
    hide Lies, Spelling, Stoi, IsNumber, IsName;
    var t := FactorTokens(f)[0];
    LiesOne(tokens, s, t);
    assert IsWritten(t);
    if f.Num? {
      NumberIsRead(f.value);
    }
  }

  lemma NumberIsRead(n: nat)
    requires IsNumber(Spelling(n))
    ensures Stoi(Spelling(n)) == Some(n)
  {
    SpellingRoundTrip(n);
    SameDecimal(Spelling(n));
  }

  lemma {:induction false} CallPrints(tokens: seq<Token>, s: nat, callee: string, args: Arglist)
    requires Lies(tokens, s, FactorTokens(Call(callee, args))) && AreWritten(FactorTokens(Call(callee, args)))
    ensures AreOfKinds(FactorTokens(Call(callee, args)), FactorYield(Call(callee, args)))
    ensures FactorSpelled(tokens, s, Call(callee, args))
    decreases args, 1
  {
    hide Lies, AreOfKinds, AreWritten, Fixed, ArgsTokens, ArgsYield, ArgsSpelled;
    var p := NameToken(callee) + Fixed(LPAREN);
    WrittenBetween(p, ArgsTokens(args), Fixed(RPAREN));
    LiesBetween(tokens, s, p, ArgsTokens(args), Fixed(RPAREN));
    LiesParts(tokens, s, NameToken(callee), Fixed(LPAREN));
    LiesOne(tokens, s, Token(ID, callee));
    FixedKinds(LPAREN, LPAREN, LPAREN);
    FixedKinds(RPAREN, RPAREN, RPAREN);
    NameKind(callee);
    KindsJoin(NameToken(callee), [ID], Fixed(LPAREN), [LPAREN]);
    assert [ID] + [LPAREN] == [ID, LPAREN];
    SameLength(p, [ID, LPAREN]);
    ArgsPrint(tokens, s + 2, args);
    KindsBetween(p, [ID, LPAREN], ArgsTokens(args), ArgsYield(args), Fixed(RPAREN), [RPAREN]);
  }

  lemma NameKind(name: string)
    ensures AreOfKinds(NameToken(name), [ID])
  {
  }

  lemma {:induction false} ArgsPrint(tokens: seq<Token>, s: nat, args: Arglist)
    requires Lies(tokens, s, ArgsTokens(args)) && AreWritten(ArgsTokens(args))
    ensures AreOfKinds(ArgsTokens(args), ArgsYield(args)) && ArgsSpelled(tokens, s, args)
    decreases args, 0
  {
    hide Lies, AreWritten, Fixed, ExprTokens, ExprYield, ExprSpelled;
    match args
    case NoArgs =>
    case Args(e, NoArgs) =>
      ExprPrints(tokens, s, e);
    case Args(e, rest) =>
      hide AreOfKinds;
      WrittenThree(ExprTokens(e), COMMA, ArgsTokens(rest));
      LiesThree(tokens, s, ExprTokens(e), COMMA, ArgsTokens(rest));
      ExprPrints(tokens, s, e);
      SameLength(ExprTokens(e), ExprYield(e));
      ArgsPrint(tokens, s + |ExprYield(e)| + 1, rest);
      KindsOfThree(ExprTokens(e), ExprYield(e), COMMA, ArgsTokens(rest), ArgsYield(rest));
  }

  lemma {:induction false} LvaluePrints(tokens: seq<Token>, s: nat, l: Lvalue)
    requires Lies(tokens, s, LvalueTokens(l)) && AreWritten(LvalueTokens(l))
    ensures AreOfKinds(LvalueTokens(l), LvalueYield(l)) && LvalueSpelled(tokens, s, l)
    decreases l
  {
    hide Lies, AreOfKinds, AreWritten, Fixed, FactorTokens, FactorYield, FactorSpelled;
    match l
    case Var(name) =>
      LiesOne(tokens, s, Token(ID, name));
      NameKind(name);
    case Target(f) =>
      WrittenParts(Fixed(STAR), FactorTokens(f));
      LiesParts(tokens, s, Fixed(STAR), FactorTokens(f));
      FixedKinds(STAR, STAR, STAR);
      FactorPrints(tokens, s + 1, f);
      KindsJoin(Fixed(STAR), [STAR], FactorTokens(f), FactorYield(f));
    case Enclosed(inner) =>
      WrittenBetween(Fixed(LPAREN), LvalueTokens(inner), Fixed(RPAREN));
      LiesBetween(tokens, s, Fixed(LPAREN), LvalueTokens(inner), Fixed(RPAREN));
      FixedKinds(LPAREN, LPAREN, LPAREN);
      FixedKinds(RPAREN, RPAREN, RPAREN);
      LvaluePrints(tokens, s + 1, inner);
      KindsBetween(Fixed(LPAREN), [LPAREN], LvalueTokens(inner), LvalueYield(inner), Fixed(RPAREN), [RPAREN]);
  }

  // ----- statements -----

  /** Tests compare with one of the six signs. */
  predicate HasTests(s: Statement) {
    match s
    case If(t, onTrue, onFalse) =>
      && IsComparison(t.op)
      && (forall i :: 0 <= i < |onTrue| ==> HasTests(onTrue[i]))
      && (forall i :: 0 <= i < |onFalse| ==> HasTests(onFalse[i]))
    case While(t, body) => IsComparison(t.op) && forall i :: 0 <= i < |body| ==> HasTests(body[i])
    case _ => true
  }

  lemma TestPrints(tokens: seq<Token>, s: nat, t: Test)
    requires Lies(tokens, s, TestTokens(t)) && AreWritten(TestTokens(t)) && IsComparison(t.op)
    ensures AreOfKinds(TestTokens(t), TestYield(t)) && TestSpelled(tokens, s, t)
  {
    hide Lies, AreOfKinds, AreWritten, Fixed, ExprTokens, ExprYield, ExprSpelled, IsComparison;
    WrittenThree(ExprTokens(t.left), t.op, ExprTokens(t.right));
    LiesThree(tokens, s, ExprTokens(t.left), t.op, ExprTokens(t.right));
    ExprPrints(tokens, s, t.left);
    SameLength(ExprTokens(t.left), ExprYield(t.left));
    ExprPrints(tokens, s + |ExprYield(t.left)| + 1, t.right);
    KindsOfThree(ExprTokens(t.left), ExprYield(t.left), t.op, ExprTokens(t.right), ExprYield(t.right));
  }

  /** Fixed tokens before, a part, and then others. */
  lemma PartComesFirst(tokens: seq<Token>, s: nat, p: seq<Token>, y: Form, xs: seq<Token>, q: seq<Token>)
    requires Lies(tokens, s, p + (xs + q)) && AreWritten(p + (xs + q)) && AreOfKinds(p, y)
    ensures Lies(tokens, s + |y|, xs) && AreWritten(xs) && Lies(tokens, s + |y| + |xs|, q) && AreWritten(q)
  {
    hide Lies, AreWritten;
    LiesBetween(tokens, s, p, xs, q);
    WrittenBetween(p, xs, q);
  }

  lemma {:induction false} StatementPrints(tokens: seq<Token>, s: nat, st: Statement)
    requires Lies(tokens, s, StatementTokens(st)) && AreWritten(StatementTokens(st)) && HasTests(st)
    ensures AreOfKinds(StatementTokens(st), StatementYield(st)) && StatementSpelled(tokens, s, st)
    decreases st, 1
  {
    match st
    case If(_, _, _) => IfPrints(tokens, s, st);
    case While(_, _) => WhilePrints(tokens, s, st);
    case Assign(_, _) => AssignPrints(tokens, s, st);
    case _ => SimplePrints(tokens, s, st);
  }

  lemma SimplePrints(tokens: seq<Token>, s: nat, st: Statement)
    requires (st.Println? || st.Delete?) && Lies(tokens, s, StatementTokens(st)) && AreWritten(StatementTokens(st))
    ensures AreOfKinds(StatementTokens(st), StatementYield(st)) && StatementSpelled(tokens, s, st)
  {
    hide Lies, AreOfKinds, AreWritten, Fixed, ExprTokens, ExprYield, ExprSpelled;
    var e := st.expr;
    if st.Println? {
      var p, q := Fixed(PRINTLN) + Fixed(LPAREN), Fixed(RPAREN) + Fixed(SEMI);
      FixedKinds(PRINTLN, LPAREN, SEMI);
      FixedKinds(RPAREN, SEMI, SEMI);
      PartComesFirst(tokens, s, p, [PRINTLN, LPAREN], ExprTokens(e), q);
      ExprPrints(tokens, s + 2, e);
      KindsBetween(p, [PRINTLN, LPAREN], ExprTokens(e), ExprYield(e), q, [RPAREN, SEMI]);
    } else {
      var p, q := Fixed(DELETE) + Fixed(LBRACK) + Fixed(RBRACK), Fixed(SEMI);
      FixedKinds(DELETE, LBRACK, RBRACK);
      FixedKinds(SEMI, SEMI, SEMI);
      PartComesFirst(tokens, s, p, [DELETE, LBRACK, RBRACK], ExprTokens(e), q);
      ExprPrints(tokens, s + 3, e);
      KindsBetween(p, [DELETE, LBRACK, RBRACK], ExprTokens(e), ExprYield(e), q, [SEMI]);
    }
  }

  lemma AssignPrints(tokens: seq<Token>, s: nat, st: Statement)
    requires st.Assign? && Lies(tokens, s, StatementTokens(st)) && AreWritten(StatementTokens(st))
    ensures AreOfKinds(StatementTokens(st), StatementYield(st)) && StatementSpelled(tokens, s, st)
  {
    hide Lies, AreOfKinds, AreWritten, Fixed, ExprTokens, ExprYield, ExprSpelled, LvalueTokens, LvalueYield,
         LvalueSpelled;
    var l, e := st.lvalue, st.expr;
    var rest := ExprTokens(e) + Fixed(SEMI);
    WrittenThree(LvalueTokens(l), BECOMES, rest);
    LiesThree(tokens, s, LvalueTokens(l), BECOMES, rest);
    LvaluePrints(tokens, s, l);
    SameLength(LvalueTokens(l), LvalueYield(l));
    var at := s + |LvalueYield(l)| + 1;
    WrittenParts(ExprTokens(e), Fixed(SEMI));
    LiesParts(tokens, at, ExprTokens(e), Fixed(SEMI));
    ExprPrints(tokens, at, e);
    FixedKinds(SEMI, SEMI, SEMI);
    KindsJoin(ExprTokens(e), ExprYield(e), Fixed(SEMI), [SEMI]);
    KindsOfThree(LvalueTokens(l), LvalueYield(l), BECOMES, rest, ExprYield(e) + [SEMI]);
    assert LvalueYield(l) + [BECOMES] + (ExprYield(e) + [SEMI]) == StatementYield(st);
  }

  lemma {:induction false} WhilePrints(tokens: seq<Token>, s: nat, st: Statement)
    requires st.While? && Lies(tokens, s, StatementTokens(st)) && AreWritten(StatementTokens(st)) && HasTests(st)
    ensures AreOfKinds(StatementTokens(st), StatementYield(st)) && StatementSpelled(tokens, s, st)
    decreases st, 0
  {
    hide Lies, AreOfKinds, AreWritten, Fixed, TestTokens, TestYield, TestSpelled, BodyTokens, BodyYield, BodySpelled;
    var t, body := st.test, st.body;
    var p, q := Fixed(WHILE) + Fixed(LPAREN), Fixed(RPAREN) + Fixed(LBRACE);
    var last := q + (BodyTokens(body) + Fixed(RBRACE));
    FixedKinds(WHILE, LPAREN, LPAREN);
    FixedKinds(RPAREN, LBRACE, LBRACE);
    FixedKinds(RBRACE, RBRACE, RBRACE);
    PartComesFirst(tokens, s, p, [WHILE, LPAREN], TestTokens(t), last);
    TestPrints(tokens, s + 2, t);
    SameLength(TestTokens(t), TestYield(t));
    var at := s + 2 + |TestYield(t)|;
    PartComesFirst(tokens, at, q, [RPAREN, LBRACE], BodyTokens(body), Fixed(RBRACE));
    BodyPrints(tokens, at + 2, body);
    KindsBetween(q, [RPAREN, LBRACE], BodyTokens(body), BodyYield(body), Fixed(RBRACE), [RBRACE]);
    var rest := [RPAREN, LBRACE] + BodyYield(body) + [RBRACE];
    KindsBetween(p, [WHILE, LPAREN], TestTokens(t), TestYield(t), last, rest);
    assert [WHILE, LPAREN] + TestYield(t) + rest == StatementYield(st);
  }

  lemma {:induction false} IfPrints(tokens: seq<Token>, s: nat, st: Statement)
    requires st.If? && Lies(tokens, s, StatementTokens(st)) && AreWritten(StatementTokens(st)) && HasTests(st)
    ensures AreOfKinds(StatementTokens(st), StatementYield(st)) && StatementSpelled(tokens, s, st)
    decreases st, 0
  {
    hide Lies, AreOfKinds, AreWritten, Fixed, TestTokens, TestYield, TestSpelled, BodyTokens, BodyYield, BodySpelled;
    var t, x, y := st.test, st.onTrue, st.onFalse;
    var p, q := Fixed(IF) + Fixed(LPAREN), Fixed(RPAREN) + Fixed(LBRACE);
    var r := Fixed(RBRACE) + Fixed(ELSE) + Fixed(LBRACE);
    var onFalse := r + (BodyTokens(y) + Fixed(RBRACE));
    var both := q + (BodyTokens(x) + onFalse);
    FixedKinds(IF, LPAREN, LPAREN);
    FixedKinds(RPAREN, LBRACE, LBRACE);
    FixedKinds(RBRACE, ELSE, LBRACE);
    PartComesFirst(tokens, s, p, [IF, LPAREN], TestTokens(t), both);
    TestPrints(tokens, s + 2, t);
    SameLength(TestTokens(t), TestYield(t));
    var at := s + 2 + |TestYield(t)|;
    PartComesFirst(tokens, at, q, [RPAREN, LBRACE], BodyTokens(x), onFalse);
    BodyPrints(tokens, at + 2, x);
    SameLength(BodyTokens(x), BodyYield(x));
    var at' := at + 2 + |BodyYield(x)|;
    PartComesFirst(tokens, at', r, [RBRACE, ELSE, LBRACE], BodyTokens(y), Fixed(RBRACE));
    BodyPrints(tokens, at' + 3, y);
    KindsBetween(r, [RBRACE, ELSE, LBRACE], BodyTokens(y), BodyYield(y), Fixed(RBRACE), [RBRACE]);
    var v := [RBRACE, ELSE, LBRACE] + BodyYield(y) + [RBRACE];
    KindsBetween(q, [RPAREN, LBRACE], BodyTokens(x), BodyYield(x), onFalse, v);
    KindsBetween(p, [IF, LPAREN], TestTokens(t), TestYield(t), both, [RPAREN, LBRACE] + BodyYield(x) + v);
    assert [IF, LPAREN] + TestYield(t) + ([RPAREN, LBRACE] + BodyYield(x) + v) == StatementYield(st);
  }

  lemma {:induction false} BodyPrints(tokens: seq<Token>, s: nat, stmts: seq<Statement>)
    requires Lies(tokens, s, BodyTokens(stmts)) && AreWritten(BodyTokens(stmts))
    requires forall i :: 0 <= i < |stmts| ==> HasTests(stmts[i])
    ensures AreOfKinds(BodyTokens(stmts), BodyYield(stmts)) && BodySpelled(tokens, s, stmts)
    decreases stmts, 2
  {
    hide Lies, AreWritten, StatementTokens, StatementYield, StatementSpelled, HasTests;
    if stmts != [] {
      hide AreOfKinds;
      var front, last := stmts[..|stmts| - 1], stmts[|stmts| - 1];
      WrittenParts(BodyTokens(front), StatementTokens(last));
      LiesParts(tokens, s, BodyTokens(front), StatementTokens(last));
      BodyPrints(tokens, s, front);
      SameLength(BodyTokens(front), BodyYield(front));
      StatementPrints(tokens, s + |BodyYield(front)|, last);
      KindsJoin(BodyTokens(front), BodyYield(front), StatementTokens(last), StatementYield(last));
    }
  }

  // ----- declarations -----

  lemma DclPrints(tokens: seq<Token>, s: nat, d: Dcl)
    requires Lies(tokens, s, DclTokens(d))
    ensures AreOfKinds(DclTokens(d), DclYield(d)) && DclSpelled(tokens, s, d)
  {
    hide Lies;
    var star := if d.dclType == IntStar then Fixed(STAR) else [];
    LiesParts(tokens, s, Fixed(INT), star + NameToken(d.id));
    LiesParts(tokens, s + 1, star, NameToken(d.id));
    LiesOne(tokens, s + 1 + |star|, Token(ID, d.id));
  }

  lemma {:induction false} ParamsPrint(tokens: seq<Token>, s: nat, ds: seq<Dcl>)
    requires Lies(tokens, s, ParamsTokens(ds))
    ensures AreOfKinds(ParamsTokens(ds), ParamsYield(ds)) && ParamsSpelled(tokens, s, ds)
    decreases |ds|
  {
    hide Lies, DclTokens, DclYield, DclSpelled;
    if |ds| == 1 {
      DclPrints(tokens, s, ds[0]);
      assert ds[..0] == [];
    } else if |ds| > 1 {
      hide AreOfKinds;
      var front, d := ds[..|ds| - 1], ds[|ds| - 1];
      LiesThree(tokens, s, ParamsTokens(front), COMMA, DclTokens(d));
      ParamsPrint(tokens, s, front);
      SameLength(ParamsTokens(front), ParamsYield(front));
      DclPrints(tokens, s + |ParamsYield(front)| + 1, d);
      KindsOfThree(ParamsTokens(front), ParamsYield(front), COMMA, DclTokens(d), DclYield(d));
    }
  }

  lemma InitialPrints(tokens: seq<Token>, s: nat, d: Dcl)
    requires Lies(tokens, s + |DclYield(d)|, InitialTokens(d))
    ensures AreOfKinds(InitialTokens(d), [BECOMES, InitialToken(d), SEMI]) && InitialSpelled(tokens, s, d)
  {
    hide Lies, DclYield;
    var at, t := s + |DclYield(d)|, Token(InitialToken(d), d.value);
    LiesParts(tokens, at, Fixed(BECOMES), [t] + Fixed(SEMI));
    LiesParts(tokens, at + 1, [t], Fixed(SEMI));
    LiesOne(tokens, at, Fixed(BECOMES)[0]);
    LiesOne(tokens, at + 1, t);
    LiesOne(tokens, at + 2, Fixed(SEMI)[0]);
  }

  lemma {:induction false} DclsPrint(tokens: seq<Token>, s: nat, ds: seq<Dcl>)
    requires Lies(tokens, s, DclsTokens(ds))
    ensures AreOfKinds(DclsTokens(ds), DclsYield(ds)) && DclsSpelled(tokens, s, ds)
  {
    hide Lies, DclTokens, DclYield, DclSpelled, InitialTokens, InitialSpelled, InitialToken;
    if ds != [] {
      hide AreOfKinds;
      var front, d := ds[..|ds| - 1], ds[|ds| - 1];
      var rest, value := DclTokens(d) + InitialTokens(d), [BECOMES, InitialToken(d), SEMI];
      LiesParts(tokens, s, DclsTokens(front), rest);
      DclsPrint(tokens, s, front);
      SameLength(DclsTokens(front), DclsYield(front));
      var at := s + |DclsYield(front)|;
      LiesParts(tokens, at, DclTokens(d), InitialTokens(d));
      DclPrints(tokens, at, d);
      SameLength(DclTokens(d), DclYield(d));
      InitialPrints(tokens, at, d);
      KindsJoin(DclTokens(d), DclYield(d), InitialTokens(d), value);
      KindsJoin(DclsTokens(front), DclsYield(front), rest, DclYield(d) + value);
      assert DclsYield(front) + (DclYield(d) + value) == DclsYield(ds);
    }
  }

  // ----- procedures -----

  function HeadTokens(p: Procedure): seq<Token> {
    Fixed(INT) + ((if p.name == "wain" then Fixed(WAIN) else NameToken(p.name)) + Fixed(LPAREN))
  }

  function TailTokens(p: Procedure): seq<Token> {
    Fixed(RETURN) + (ExprTokens(p.ret) + (Fixed(SEMI) + Fixed(RBRACE)))
  }

  lemma HeadPrints(tokens: seq<Token>, s: nat, p: Procedure)
    requires Lies(tokens, s, HeadTokens(p))
    ensures AreOfKinds(HeadTokens(p), [INT, if p.name == "wain" then WAIN else ID, LPAREN])
    ensures Spells(tokens, s + 1, p.name)
  {
    hide Lies;
    var name := if p.name == "wain" then Fixed(WAIN) else NameToken(p.name);
    LiesParts(tokens, s, Fixed(INT), name + Fixed(LPAREN));
    LiesParts(tokens, s + 1, name, Fixed(LPAREN));
    LiesOne(tokens, s + 1, name[0]);
  }

  lemma TailPrints(tokens: seq<Token>, s: nat, p: Procedure)
    requires Lies(tokens, s, TailTokens(p)) && AreWritten(TailTokens(p))
    ensures AreOfKinds(TailTokens(p), [RETURN] + ExprYield(p.ret) + [SEMI, RBRACE])
    ensures ExprSpelled(tokens, s + 1, p.ret)
  {
    hide Lies, AreOfKinds, AreWritten, Fixed, ExprTokens, ExprYield, ExprSpelled;
    FixedKinds(RETURN, RETURN, RETURN);
    FixedKinds(SEMI, RBRACE, RBRACE);
    PartComesFirst(tokens, s, Fixed(RETURN), [RETURN], ExprTokens(p.ret), Fixed(SEMI) + Fixed(RBRACE));
    ExprPrints(tokens, s + 1, p.ret);
    KindsBetween(Fixed(RETURN), [RETURN], ExprTokens(p.ret), ExprYield(p.ret), Fixed(SEMI) + Fixed(RBRACE),
                 [SEMI, RBRACE]);
  }

  lemma ProcedurePrints(tokens: seq<Token>, s: nat, p: Procedure)
    requires Lies(tokens, s, ProcedureTokens(p)) && AreWritten(ProcedureTokens(p))
    requires forall i :: 0 <= i < |p.stmts| ==> HasTests(p.stmts[i])
    ensures AreOfKinds(ProcedureTokens(p), ProcedureYield(p)) && ProcedureSpelled(tokens, s, p)
  {
    hide Lies, AreOfKinds, AreWritten, Fixed, HeadTokens, TailTokens, ParamsTokens, ParamsYield, ParamsSpelled,
         DclsTokens, DclsYield, DclsSpelled, BodyTokens, BodyYield, BodySpelled, ExprYield, ExprSpelled, HasTests;
    var head := [INT, if p.name == "wain" then WAIN else ID, LPAREN];
    var q, body := Fixed(RPAREN) + Fixed(LBRACE), BodyTokens(p.stmts) + TailTokens(p);
    var inside := q + (DclsTokens(p.dcls) + body);
    PartsOfProcedure(p);
    WrittenBetween(HeadTokens(p), ParamsTokens(p.params), inside);
    LiesBetween(tokens, s, HeadTokens(p), ParamsTokens(p.params), inside);
    HeadPrints(tokens, s, p);
    SameLength(HeadTokens(p), head);
    ParamsPrint(tokens, s + 3, p.params);
    SameLength(ParamsTokens(p.params), ParamsYield(p.params));
    var at := s + 3 + |ParamsYield(p.params)|;
    FixedKinds(RPAREN, LBRACE, LBRACE);
    PartComesFirst(tokens, at, q, [RPAREN, LBRACE], DclsTokens(p.dcls), body);
    DclsPrint(tokens, at + 2, p.dcls);
    SameLength(DclsTokens(p.dcls), DclsYield(p.dcls));
    var at' := at + 2 + |DclsYield(p.dcls)|;
    WrittenParts(BodyTokens(p.stmts), TailTokens(p));
    LiesParts(tokens, at', BodyTokens(p.stmts), TailTokens(p));
    BodyPrints(tokens, at', p.stmts);
    SameLength(BodyTokens(p.stmts), BodyYield(p.stmts));
    TailPrints(tokens, at' + |BodyYield(p.stmts)|, p);
    KindsOfProcedure(p);
  }

  lemma PartsOfProcedure(p: Procedure)
    ensures ProcedureTokens(p) ==
            HeadTokens(p) +
            (ParamsTokens(p.params) +
             (Fixed(RPAREN) + Fixed(LBRACE) + (DclsTokens(p.dcls) + (BodyTokens(p.stmts) + TailTokens(p)))))
  {
  }

  lemma KindsOfProcedure(p: Procedure)
    requires AreOfKinds(HeadTokens(p), [INT, if p.name == "wain" then WAIN else ID, LPAREN])
    requires AreOfKinds(ParamsTokens(p.params), ParamsYield(p.params))
    requires AreOfKinds(DclsTokens(p.dcls), DclsYield(p.dcls))
    requires AreOfKinds(BodyTokens(p.stmts), BodyYield(p.stmts))
    requires AreOfKinds(TailTokens(p), [RETURN] + ExprYield(p.ret) + [SEMI, RBRACE])
    ensures AreOfKinds(ProcedureTokens(p), ProcedureYield(p))
  {
    hide AreOfKinds, Fixed, HeadTokens, TailTokens, ParamsTokens, ParamsYield, DclsTokens, DclsYield, BodyTokens,
         BodyYield, ExprYield;
    var head := [INT, if p.name == "wain" then WAIN else ID, LPAREN];
    var tail := [RETURN] + ExprYield(p.ret) + [SEMI, RBRACE];
    var q := Fixed(RPAREN) + Fixed(LBRACE);
    PartsOfProcedure(p);
    FixedKinds(RPAREN, LBRACE, LBRACE);
    KindsJoin(BodyTokens(p.stmts), BodyYield(p.stmts), TailTokens(p), tail);
    KindsBetween(q, [RPAREN, LBRACE], DclsTokens(p.dcls), DclsYield(p.dcls), BodyTokens(p.stmts) + TailTokens(p),
                 BodyYield(p.stmts) + tail);
    KindsBetween(HeadTokens(p), head, ParamsTokens(p.params), ParamsYield(p.params),
                 q + (DclsTokens(p.dcls) + (BodyTokens(p.stmts) + TailTokens(p))),
                 [RPAREN, LBRACE] + DclsYield(p.dcls) + (BodyYield(p.stmts) + tail));
    assert head + ParamsYield(p.params) + ([RPAREN, LBRACE] + DclsYield(p.dcls) + (BodyYield(p.stmts) + tail)) ==
           ProcedureYield(p);
  }

  predicate HaveTests(ps: seq<Procedure>) {
    forall k, i :: 0 <= k < |ps| && 0 <= i < |ps[k].stmts| ==> HasTests(ps[k].stmts[i])
  }

  /** The tokens of a program are of its kinds and values. */
  lemma {:induction false} ProgramPrints(tokens: seq<Token>, ps: seq<Procedure>)
    requires Lies(tokens, 0, ProgramTokens(ps)) && AreWritten(ProgramTokens(ps)) && HaveTests(ps)
    ensures AreOfKinds(ProgramTokens(ps), ProgramYield(ps)) && ProgramSpelled(tokens, ps)
  {
    hide Lies, AreWritten, ProcedureTokens, ProcedureYield, ProcedureSpelled, HasTests;
    if ps != [] {
      hide AreOfKinds;
      var front, p := ps[..|ps| - 1], ps[|ps| - 1];
      WrittenParts(ProgramTokens(front), ProcedureTokens(p));
      LiesParts(tokens, 0, ProgramTokens(front), ProcedureTokens(p));
      ProgramPrints(tokens, front);
      SameLength(ProgramTokens(front), ProgramYield(front));
      ProcedurePrints(tokens, |ProgramYield(front)|, p);
      KindsJoin(ProgramTokens(front), ProgramYield(front), ProcedureTokens(p), ProcedureYield(p));
    }
  }

  /** A program ends in a closing brace. */
  lemma EndsInBrace(ps: seq<Procedure>)
    requires ps != []
    ensures var ts := ProgramTokens(ps); ts != [] && ts[|ts| - 1].value == "}"
  {
    var p := ps[|ps| - 1];
    PartsOfProcedure(p);
    var y := TailTokens(p);
    assert y[|y| - 1] == Fixed(RBRACE)[0];
    hide ParamsTokens, DclsTokens, BodyTokens, HeadTokens, TailTokens, Spelled;
    var x := DclsTokens(p.dcls) + (BodyTokens(p.stmts) + y);
    assert ProcedureTokens(p)[|ProcedureTokens(p)| - 1] == y[|y| - 1];
    assert Spelled(RBRACE) == "}" by { BraceIsSpelled(); }
  }

  lemma BraceIsSpelled()
    ensures Spelled(RBRACE) == "}"
  {
  }
}
