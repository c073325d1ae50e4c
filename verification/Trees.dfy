/** Every sentence of tokens is what some program is written with: a tree for each derivation. */
module Trees {
  import opened Options
  import opened Symbols
  import opened Grammar
  import opened Earley
  import opened Wlp4Grammar
  import opened Tokens
  import opened Numerals
  import opened Lexing
  import opened Ast
  import opened Yields
  import opened Items
  import opened Programs
  import opened Sentences

  /** The tokens from s on are of the kinds z, each a token that the tokeniser makes. */
  predicate Holds(tokens: seq<Token>, s: nat, z: Form) {
    && s + |z| <= |tokens|
    && forall i :: 0 <= i < |z| ==> IsKind(tokens[s + i], z[i])
  }

  predicate IsKind(t: Token, a: Symbol) {
    t.kind == a && IsTerminal(a) && IsToken(t)
  }

  lemma HoldsParts(tokens: seq<Token>, s: nat, x: Form, y: Form)
    requires Holds(tokens, s, x + y)
    ensures Holds(tokens, s, x) && Holds(tokens, s + |x|, y)
  {
    hide IsKind;
    forall i | 0 <= i < |x|
      ensures IsKind(tokens[s + i], x[i])
    {
      assert (x + y)[i] == x[i];
    }
    forall i | 0 <= i < |y|
      ensures IsKind(tokens[s + |x| + i], y[i])
    {
      var j := |x| + i;
      assert (x + y)[j] == y[i];
      assert IsKind(tokens[s + j], (x + y)[j]);
    }
  }

  // ----- derivations, part by part -----

  /** The symbols derive the terminals in so many steps. */
  ghost predicate Gets(rhs: Form, z: Form, n: nat) {
    DerivesIn(CFG(), rhs, z, n)
  }

  lemma TableFixesTerminals()
    ensures TerminalsAreFixed(CFG())
  {
  }

  /** The rule a nonterminal is first rewritten with. */
  lemma FirstStep(tokens: seq<Token>, s: nat, a: Symbol, z: Form, n: nat) returns (r: nat)
    requires !IsTerminal(a) && Gets([a], z, n) && Holds(tokens, s, z)
    ensures r < 49 && RuleAt(r).lhs == a && n > 0 && Gets(RuleAt(r).rhs, z, n - 1)
  {
    hide RuleAt, IsToken;
    assert n == 0 ==> z == [a];
    assert |z| == 1 ==> IsKind(tokens[s + 0], z[0]);
    r := FirstRule(CFG(), a, z, n);
  }

  /** Terminals, then a nonterminal, then the rest. */
  lemma Part(p: Form, a: Symbol, q: Form, z: Form, n: nat) returns (x: Form, y: Form, i: nat, j: nat)
    requires AllTerminals(p) && Gets(p + [a] + q, z, n)
    ensures z == p + x + y && i + j <= n && Gets([a], x, i) && Gets(q, y, j)
  {
    hide CFG;
    TableFixesTerminals();
    var z1, z2, n1, n2 := SplitDerivation(CFG(), p + [a], q, z, n);
    var p', x', m1, m2 := SplitDerivation(CFG(), p, [a], z1, n1);
    TerminalsStay(CFG(), p, p', m1);
    return x', z2, m2, n2;
  }

  lemma Rest(q: Form, y: Form, n: nat)
    requires AllTerminals(q) && Gets(q, y, n)
    ensures y == q
  {
    hide CFG;
    TableFixesTerminals();
    TerminalsStay(CFG(), q, y, n);
  }

  /** A nonterminal between terminals. */
  lemma OnePart(tokens: seq<Token>, s: nat, p: Form, a: Symbol, q: Form, z: Form, n: nat) returns (x: Form, i: nat)
    requires AllTerminals(p) && AllTerminals(q) && Gets(p + [a] + q, z, n) && Holds(tokens, s, z)
    ensures z == p + x + q && i <= n && Gets([a], x, i)
    ensures Holds(tokens, s, p) && Holds(tokens, s + |p|, x) && Holds(tokens, s + |p| + |x|, q)
  {
    hide Holds, Gets, AllTerminals;
    var y, j;
    x, y, i, j := Part(p, a, q, z, n);
    Rest(q, y, j);
    HoldsParts(tokens, s, p + x, y);
    HoldsParts(tokens, s, p, x);
  }

  /** Two nonterminals with terminals before, between and after. */
  lemma TwoParts(tokens: seq<Token>, s: nat, p: Form, a: Symbol, q: Form, b: Symbol, r: Form, z: Form, n: nat)
      returns (x: Form, y: Form, i: nat, j: nat)
    requires AllTerminals(p) && AllTerminals(q) && AllTerminals(r) && Gets(p + [a] + (q + [b] + r), z, n)
    requires Holds(tokens, s, z)
    ensures z == p + x + (q + y + r) && i <= n && j <= n && Gets([a], x, i) && Gets([b], y, j)
    ensures Holds(tokens, s, p) && Holds(tokens, s + |p|, x)
    ensures Holds(tokens, s + |p| + |x|, q) && Holds(tokens, s + |p| + |x| + |q|, y)
    ensures Holds(tokens, s + |p| + |x| + |q| + |y|, r)
  {
    hide Holds, Gets, AllTerminals;
    var w, m;
    x, w, i, m := Part(p, a, q + [b] + r, z, n);
    HoldsParts(tokens, s, p + x, w);
    HoldsParts(tokens, s, p, x);
    y, j := OnePart(tokens, s + |p| + |x|, q, b, r, w, m);
  }

  // ----- expressions -----

  lemma ExprRules(r: nat)
    requires r < 49 && RuleAt(r).lhs == EXPR
    ensures 28 <= r <= 30
    ensures RuleAt(r).rhs == if r == 28 then [TERM] else [] + [EXPR] + ([if r == 29 then PLUS else MINUS] + [TERM] + [])
  {
  }

  lemma {:induction false} ExprTree(tokens: seq<Token>, s: nat, z: Form, n: nat) returns (e: Expr)
    requires Gets([EXPR], z, n) && Holds(tokens, s, z)
    ensures ExprYield(e) == z && ExprSpelled(tokens, s, e)
    decreases n
  {
    hide RuleAt, Gets, Holds;
    var r := FirstStep(tokens, s, EXPR, z, n);
    ExprRules(r);
    if r == 28 {
      var t := TermTree(tokens, s, z, n - 1);
      return JustTerm(t);
    }
    var op := if r == 29 then PLUS else MINUS;
    var x, y, i, j := TwoParts(tokens, s, [], EXPR, [op], TERM, [], z, n - 1);
    var l := ExprTree(tokens, s, x, i);
    var t := TermTree(tokens, s + |x| + 1, y, j);
    hide ExprYield, ExprSpelled, TermYield, TermSpelled;
    e := if r == 29 then Plus(l, t) else Minus(l, t);
    SumIsSpelled(tokens, s, l, t);
    Joined(x, op, y);
  }

  lemma SumIsSpelled(tokens: seq<Token>, s: nat, l: Expr, t: Term)
    requires ExprSpelled(tokens, s, l) && TermSpelled(tokens, s + |ExprYield(l)| + 1, t)
    ensures ExprSpelled(tokens, s, Plus(l, t)) && ExprYield(Plus(l, t)) == ExprYield(l) + [PLUS] + TermYield(t)
    ensures ExprSpelled(tokens, s, Minus(l, t)) && ExprYield(Minus(l, t)) == ExprYield(l) + [MINUS] + TermYield(t)
  {
    hide TermYield, TermSpelled;
  }

  lemma TermRules(r: nat)
    requires r < 49 && RuleAt(r).lhs == TERM
    ensures 31 <= r <= 34
    ensures RuleAt(r).rhs ==
            if r == 31 then [FACTOR]
            else [] + [TERM] + ([if r == 32 then STAR else if r == 33 then SLASH else PCT] + [FACTOR] + [])
  {
  }

  lemma {:induction false} TermTree(tokens: seq<Token>, s: nat, z: Form, n: nat) returns (t: Term)
    requires Gets([TERM], z, n) && Holds(tokens, s, z)
    ensures TermYield(t) == z && TermSpelled(tokens, s, t)
    decreases n
  {
    hide RuleAt, Gets, Holds;
    var r := FirstStep(tokens, s, TERM, z, n);
    TermRules(r);
    if r == 31 {
      var f := FactorTree(tokens, s, z, n - 1);
      return JustFactor(f);
    }
    var op := if r == 32 then STAR else if r == 33 then SLASH else PCT;
    var x, y, i, j := TwoParts(tokens, s, [], TERM, [op], FACTOR, [], z, n - 1);
    var l := TermTree(tokens, s, x, i);
    var f := FactorTree(tokens, s + |x| + 1, y, j);
    hide TermYield, TermSpelled, FactorYield, FactorSpelled;
    t := if r == 32 then Times(l, f) else if r == 33 then Slash(l, f) else Percent(l, f);
    ProductIsSpelled(tokens, s, l, f);
    Joined(x, op, y);
  }

  lemma ProductIsSpelled(tokens: seq<Token>, s: nat, l: Term, f: Factor)
    requires TermSpelled(tokens, s, l) && FactorSpelled(tokens, s + |TermYield(l)| + 1, f)
    ensures TermSpelled(tokens, s, Times(l, f)) && TermYield(Times(l, f)) == TermYield(l) + [STAR] + FactorYield(f)
    ensures TermSpelled(tokens, s, Slash(l, f)) && TermYield(Slash(l, f)) == TermYield(l) + [SLASH] + FactorYield(f)
    ensures TermSpelled(tokens, s, Percent(l, f)) && TermYield(Percent(l, f)) == TermYield(l) + [PCT] + FactorYield(f)
  {
    hide FactorYield, FactorSpelled;
  }

  lemma Joined(x: Form, op: Symbol, y: Form)
    ensures [] + x + ([op] + y + []) == x + [op] + y
  {
  }

  lemma FactorForms(r: nat)
    requires r < 49 && RuleAt(r).lhs == FACTOR
    ensures 35 <= r <= 43
    ensures r == 35 ==> RuleAt(r).rhs == [ID]
    ensures r == 36 ==> RuleAt(r).rhs == [NUM]
    ensures r == 37 ==> RuleAt(r).rhs == [NULL]
    ensures r == 38 ==> RuleAt(r).rhs == [LPAREN] + [EXPR] + [RPAREN]
    ensures r == 39 ==> RuleAt(r).rhs == [AMP] + [LVALUE] + []
    ensures r == 40 ==> RuleAt(r).rhs == [STAR] + [FACTOR] + []
    ensures r == 41 ==> RuleAt(r).rhs == [NEW, INT, LBRACK] + [EXPR] + [RBRACK]
    ensures r == 42 ==> RuleAt(r).rhs == [ID, LPAREN, RPAREN]
    ensures r == 43 ==> RuleAt(r).rhs == [ID, LPAREN] + [ARGLIST] + [RPAREN]
  {
  }

  /** A token where one is held. */
  lemma TokenAt(tokens: seq<Token>, s: nat, z: Form, i: nat)
    requires Holds(tokens, s, z) && i < |z|
    ensures s + i < |tokens| && tokens[s + i].kind == z[i] && IsToken(tokens[s + i])
  {
    hide IsToken;
    assert IsKind(tokens[s + i], z[i]);
  }

  /** A number has a value; the one it is written as. */
  lemma NumberAt(t: Token)
    requires IsToken(t) && t.kind == NUM
    ensures Stoi(t.value).Some? && t.value != "NULL"
  {
    SpellingsAreNumbers(t.value);
    assert !IsDigit("NULL"[0]);
    NoOtherNum(t.value);
  }

  lemma {:induction false} FactorTree(tokens: seq<Token>, s: nat, z: Form, n: nat) returns (f: Factor)
    requires Gets([FACTOR], z, n) && Holds(tokens, s, z)
    ensures FactorYield(f) == z && FactorSpelled(tokens, s, f)
    decreases n
  {
    hide RuleAt, Gets, Holds, IsToken, ExprYield, ExprSpelled, LvalueYield, LvalueSpelled;
    var r := FirstStep(tokens, s, FACTOR, z, n);
    FactorForms(r);
    if 35 <= r <= 37 || r == 42 {
      f := PlainFactorTree(tokens, s, z, n - 1, r);
    } else if r == 38 {
      var x, i := OnePart(tokens, s, [LPAREN], EXPR, [RPAREN], z, n - 1);
      var e := ExprTree(tokens, s + 1, x, i);
      f := Paren(e);
    } else if r == 39 {
      var x, i := OnePart(tokens, s, [AMP], LVALUE, [], z, n - 1);
      var l := LvalueTree(tokens, s + 1, x, i);
      f := AddressOf(l);
    } else if r == 40 {
      var x, i := OnePart(tokens, s, [STAR], FACTOR, [], z, n - 1);
      var g := FactorTree(tokens, s + 1, x, i);
      f := Deref(g);
    } else if r == 41 {
      var x, i := OnePart(tokens, s, [NEW, INT, LBRACK], EXPR, [RBRACK], z, n - 1);
      var e := ExprTree(tokens, s + 3, x, i);
      f := NewArray(e);
    } else {
      var x, i := OnePart(tokens, s, [ID, LPAREN], ARGLIST, [RPAREN], z, n - 1);
      var args := ArgsTree(tokens, s + 2, x, i);
      TokenAt(tokens, s, [ID, LPAREN], 0);
      f := Call(tokens[s].value, args);
    }
  }

  lemma PlainFactorTree(tokens: seq<Token>, s: nat, z: Form, n: nat, r: nat) returns (f: Factor)
    requires (35 <= r <= 37 || r == 42) && Gets(RuleAt(r).rhs, z, n) && Holds(tokens, s, z)
    ensures FactorYield(f) == z && FactorSpelled(tokens, s, f)
  {
    FactorForms(r);
    hide RuleAt, Gets, Holds, IsToken, AllTerminals, FactorYield, FactorSpelled, Stoi;
    assert AllTerminals(RuleAt(r).rhs) by { PlainForms(r); }
    Rest(RuleAt(r).rhs, z, n);
    TokenAt(tokens, s, z, 0);
    var value := tokens[s].value;
    if r == 36 {
      NumberAt(tokens[s]);
      f := Num(Stoi(value).value);
    } else {
      f := if r == 35 then Id(value) else if r == 37 then NullValue else Call(value, NoArgs);
    }
    PlainIsSpelled(tokens, s, f);
  }

  lemma PlainForms(r: nat)
    requires 35 <= r <= 37 || r == 42
    ensures AllTerminals(RuleAt(r).rhs)
  {
  }

  lemma PlainIsSpelled(tokens: seq<Token>, s: nat, f: Factor)
    requires s < |tokens| && (f.Id? || f.Num? || f.NullValue? || (f.Call? && f.args.NoArgs?))
    requires match f
             case Num(n) => Stoi(tokens[s].value) == Some(n)
             case NullValue => true
             case _ => tokens[s].value == if f.Id? then f.name else f.callee
    ensures FactorSpelled(tokens, s, f)
    ensures FactorYield(f) ==
            if f.Id? then [ID] else if f.Num? then [NUM] else if f.NullValue? then [NULL] else [ID, LPAREN, RPAREN]
  {
    hide Stoi;
    if f.Call? {
      assert ArgsYield(NoArgs) == [] && ArgsSpelled(tokens, s + 2, NoArgs);
      assert [ID, LPAREN] + [] + [RPAREN] == [ID, LPAREN, RPAREN];
    }
  }

  lemma ArgsRules(r: nat)
    requires r < 49 && RuleAt(r).lhs == ARGLIST
    ensures RuleAt(r).rhs == [EXPR] || RuleAt(r).rhs == [] + [EXPR] + ([COMMA] + [ARGLIST] + [])
  {
  }

  lemma {:induction false} ArgsTree(tokens: seq<Token>, s: nat, z: Form, n: nat) returns (args: Arglist)
    requires Gets([ARGLIST], z, n) && Holds(tokens, s, z)
    ensures args.Args? && ArgsYield(args) == z && ArgsSpelled(tokens, s, args)
    decreases n
  {
    hide RuleAt, Gets, Holds, ExprYield, ExprSpelled;
    var r := FirstStep(tokens, s, ARGLIST, z, n);
    ArgsRules(r);
    if RuleAt(r).rhs == [EXPR] {
      var e := ExprTree(tokens, s, z, n - 1);
      return Args(e, NoArgs);
    }
    var x, y, i, j := TwoParts(tokens, s, [], EXPR, [COMMA], ARGLIST, [], z, n - 1);
    var e := ExprTree(tokens, s, x, i);
    var rest := ArgsTree(tokens, s + |x| + 1, y, j);
    args := Args(e, rest);
    assert [] + x + ([COMMA] + y + []) == x + [COMMA] + y;
  }

  lemma LvalueForms(r: nat)
    requires r < 49 && RuleAt(r).lhs == LVALUE
    ensures 46 <= r <= 48
    ensures RuleAt(r).rhs ==
            if r == 46 then [ID] else if r == 47 then [STAR] + [FACTOR] + [] else [LPAREN] + [LVALUE] + [RPAREN]
  {
  }

  lemma {:induction false} LvalueTree(tokens: seq<Token>, s: nat, z: Form, n: nat) returns (l: Lvalue)
    requires Gets([LVALUE], z, n) && Holds(tokens, s, z)
    ensures LvalueYield(l) == z && LvalueSpelled(tokens, s, l)
    decreases n
  {
    hide RuleAt, Gets, Holds, IsToken, FactorYield, FactorSpelled;
    var r := FirstStep(tokens, s, LVALUE, z, n);
    LvalueForms(r);
    if r == 46 {
      Rest([ID], z, n - 1);
      TokenAt(tokens, s, z, 0);
      l := Var(tokens[s].value);
    } else if r == 47 {
      var x, i := OnePart(tokens, s, [STAR], FACTOR, [], z, n - 1);
      var f := FactorTree(tokens, s + 1, x, i);
      l := Target(f);
    } else {
      var x, i := OnePart(tokens, s, [LPAREN], LVALUE, [RPAREN], z, n - 1);
      var inner := LvalueTree(tokens, s + 1, x, i);
      l := Enclosed(inner);
    }
  }

  // ----- statements -----

  lemma TestForms(r: nat)
    requires r < 49 && RuleAt(r).lhs == TEST
    ensures 22 <= r <= 27 && IsTerminal(RuleAt(r).rhs[1]) && IsComparison(RuleAt(r).rhs[1])
    ensures RuleAt(r).rhs == [] + [EXPR] + ([RuleAt(r).rhs[1]] + [EXPR] + [])
  {
  }

  lemma TestTree(tokens: seq<Token>, s: nat, z: Form, n: nat) returns (t: Test)
    requires Gets([TEST], z, n) && Holds(tokens, s, z)
    ensures TestYield(t) == z && TestSpelled(tokens, s, t)
  {
    hide RuleAt, Gets, Holds, ExprYield, ExprSpelled, IsComparison;
    var r := FirstStep(tokens, s, TEST, z, n);
    TestForms(r);
    var op := RuleAt(r).rhs[1];
    var x, y, i, j := TwoParts(tokens, s, [], EXPR, [op], EXPR, [], z, n - 1);
    var left := ExprTree(tokens, s, x, i);
    var right := ExprTree(tokens, s + |x| + 1, y, j);
    t := Test(op, left, right);
    assert [] + x + ([op] + y + []) == x + [op] + y;
  }

  lemma BodyForms(r: nat)
    requires r < 49 && RuleAt(r).lhs == STATEMENTS
    ensures RuleAt(r).rhs == [] || RuleAt(r).rhs == [] + [STATEMENTS] + ([] + [STATEMENT] + [])
  {
  }

  lemma {:induction false} BodyTree(tokens: seq<Token>, s: nat, z: Form, n: nat) returns (stmts: seq<Statement>)
    requires Gets([STATEMENTS], z, n) && Holds(tokens, s, z)
    ensures BodyYield(stmts) == z && BodySpelled(tokens, s, stmts)
    decreases n, 0
  {
    hide RuleAt, Gets, Holds, StatementYield, StatementSpelled;
    var r := FirstStep(tokens, s, STATEMENTS, z, n);
    BodyForms(r);
    if RuleAt(r).rhs == [] {
      Rest([], z, n - 1);
      return [];
    }
    var x, y, i, j := TwoParts(tokens, s, [], STATEMENTS, [], STATEMENT, [], z, n - 1);
    var front := BodyTree(tokens, s, x, i);
    var last := StatementTree(tokens, s + |x|, y, j);
    stmts := front + [last];
    assert stmts[..|stmts| - 1] == front;
    assert [] + x + ([] + y + []) == x + y;
  }

  lemma StatementForms(r: nat)
    requires r < 49 && RuleAt(r).lhs == STATEMENT
    ensures 17 <= r <= 21
    ensures r == 17 ==> RuleAt(r).rhs == [] + [LVALUE] + ([BECOMES] + [EXPR] + [SEMI])
    ensures r == 18 ==> RuleAt(r).rhs ==
                        [IF, LPAREN] + [TEST] +
                        ([RPAREN, LBRACE] + [STATEMENTS] + ([RBRACE, ELSE, LBRACE] + [STATEMENTS] + [RBRACE]))
    ensures r == 19 ==> RuleAt(r).rhs == [WHILE, LPAREN] + [TEST] + ([RPAREN, LBRACE] + [STATEMENTS] + [RBRACE])
    ensures r == 20 ==> RuleAt(r).rhs == [PRINTLN, LPAREN] + [EXPR] + [RPAREN, SEMI]
    ensures r == 21 ==> RuleAt(r).rhs == [DELETE, LBRACK, RBRACK] + [EXPR] + [SEMI]
  {
  }

  lemma {:induction false} StatementTree(tokens: seq<Token>, s: nat, z: Form, n: nat) returns (st: Statement)
    requires Gets([STATEMENT], z, n) && Holds(tokens, s, z)
    ensures StatementYield(st) == z && StatementSpelled(tokens, s, st)
    decreases n, 0
  {
    hide RuleAt, Gets, Holds, ExprYield, ExprSpelled, LvalueYield, LvalueSpelled, TestYield, TestSpelled, BodyYield,
         BodySpelled;
    var r := FirstStep(tokens, s, STATEMENT, z, n);
    StatementForms(r);
    if r == 17 {
      var x, y, i, j := TwoParts(tokens, s, [], LVALUE, [BECOMES], EXPR, [SEMI], z, n - 1);
      var l := LvalueTree(tokens, s, x, i);
      var e := ExprTree(tokens, s + |x| + 1, y, j);
      st := Assign(l, e);
      assert [] + x + ([BECOMES] + y + [SEMI]) == x + [BECOMES] + y + [SEMI];
    } else if r == 18 {
      st := IfTree(tokens, s, z, n - 1);
    } else if r == 19 {
      var x, y, i, j := TwoParts(tokens, s, [WHILE, LPAREN], TEST, [RPAREN, LBRACE], STATEMENTS, [RBRACE], z, n - 1);
      var t := TestTree(tokens, s + 2, x, i);
      var body := BodyTree(tokens, s + 2 + |x| + 2, y, j);
      st := While(t, body);
      assert [WHILE, LPAREN] + x + ([RPAREN, LBRACE] + y + [RBRACE]) ==
             [WHILE, LPAREN] + x + [RPAREN, LBRACE] + y + [RBRACE];
    } else if r == 20 {
      var x, i := OnePart(tokens, s, [PRINTLN, LPAREN], EXPR, [RPAREN, SEMI], z, n - 1);
      var e := ExprTree(tokens, s + 2, x, i);
      st := Println(e);
    } else {
      var x, i := OnePart(tokens, s, [DELETE, LBRACK, RBRACK], EXPR, [SEMI], z, n - 1);
      var e := ExprTree(tokens, s + 3, x, i);
      st := Delete(e);
    }
  }

  lemma {:induction false} IfTree(tokens: seq<Token>, s: nat, z: Form, n: nat) returns (st: Statement)
    requires Gets([IF, LPAREN] + [TEST] +
                  ([RPAREN, LBRACE] + [STATEMENTS] + ([RBRACE, ELSE, LBRACE] + [STATEMENTS] + [RBRACE])), z, n)
    requires Holds(tokens, s, z)
    ensures StatementYield(st) == z && StatementSpelled(tokens, s, st)
    decreases n, 1
  {
    hide RuleAt, Gets, Holds, TestYield, TestSpelled, BodyYield, BodySpelled;
    var close := [RBRACE, ELSE, LBRACE] + [STATEMENTS] + [RBRACE];
    var x, w, i, m := Part([IF, LPAREN], TEST, [RPAREN, LBRACE] + [STATEMENTS] + close, z, n);
    HoldsParts(tokens, s, [IF, LPAREN] + x, w);
    HoldsParts(tokens, s, [IF, LPAREN], x);
    var t := TestTree(tokens, s + 2, x, i);
    var y1, v, j1, l := Part([RPAREN, LBRACE], STATEMENTS, close, w, m);
    var at := s + 2 + |x|;
    HoldsParts(tokens, at, [RPAREN, LBRACE] + y1, v);
    HoldsParts(tokens, at, [RPAREN, LBRACE], y1);
    var onTrue := BodyTree(tokens, at + 2, y1, j1);
    var y2, j2 := OnePart(tokens, at + 2 + |y1|, [RBRACE, ELSE, LBRACE], STATEMENTS, [RBRACE], v, l);
    var onFalse := BodyTree(tokens, at + 2 + |y1| + 3, y2, j2);
    st := If(t, onTrue, onFalse);
    assert z == [IF, LPAREN] + x + ([RPAREN, LBRACE] + y1 + ([RBRACE, ELSE, LBRACE] + y2 + [RBRACE]));
  }

  // ----- declarations -----

  lemma DclForms(r: nat)
    requires r < 49
    ensures RuleAt(r).lhs == DCL ==> RuleAt(r).rhs == [] + [TYPE] + [ID]
    ensures RuleAt(r).lhs == TYPE ==> RuleAt(r).rhs == [INT] || RuleAt(r).rhs == [INT, STAR]
  {
  }

  /** A declaration without a value. */
  lemma DclTree(tokens: seq<Token>, s: nat, z: Form, n: nat) returns (d: Dcl)
    requires Gets([DCL], z, n) && Holds(tokens, s, z)
    ensures DclYield(d) == z && DclSpelled(tokens, s, d) && d.dclType != Invalid && d.value == ""
  {
    hide RuleAt, Gets, Holds, IsToken;
    var r := FirstStep(tokens, s, DCL, z, n);
    DclForms(r);
    var x, i := OnePart(tokens, s, [], TYPE, [ID], z, n - 1);
    var q := FirstStep(tokens, s, TYPE, x, i);
    DclForms(q);
    Rest(RuleAt(q).rhs, x, i - 1);
    TokenAt(tokens, s, z, |x|);
    d := Dcl(tokens[s + |x|].value, if |x| == 1 then Int else IntStar, "");
    assert z == x + [ID];
  }

  lemma DclsForms(r: nat)
    requires r < 49 && RuleAt(r).lhs == DCLS
    ensures RuleAt(r).rhs == [] || RuleAt(r).rhs == [] + [DCLS] + ([] + [DCL] + [BECOMES, NUM, SEMI]) ||
            RuleAt(r).rhs == [] + [DCLS] + ([] + [DCL] + [BECOMES, NULL, SEMI])
  {
  }

  lemma SignsAreSpelled(t: Token)
    requires IsToken(t)
    ensures t.kind == BECOMES ==> t.value == "="
    ensures t.kind == SEMI ==> t.value == ";"
    ensures t.kind == NULL ==> t.value == "NULL"
    ensures t.kind == WAIN ==> t.value == "wain"
    ensures t.kind == ID ==> t.value != "wain"
  {
  }

  /** A declaration with the initial value that follows it. */
  lemma WithInitial(tokens: seq<Token>, s: nat, d: Dcl, sym: Symbol) returns (d': Dcl)
    requires (sym == NUM || sym == NULL) && DclSpelled(tokens, s, d)
    requires Holds(tokens, s + |DclYield(d)|, [BECOMES, sym, SEMI])
    ensures d'.dclType == d.dclType && DclYield(d') == DclYield(d) && InitialToken(d') == sym
    ensures DclSpelled(tokens, s, d') && InitialSpelled(tokens, s, d')
  {
    hide Holds, IsToken;
    var m := s + |DclYield(d)|;
    TokenAt(tokens, m, [BECOMES, sym, SEMI], 0);
    TokenAt(tokens, m, [BECOMES, sym, SEMI], 1);
    TokenAt(tokens, m, [BECOMES, sym, SEMI], 2);
    SignsAreSpelled(tokens[m]);
    SignsAreSpelled(tokens[m + 1]);
    SignsAreSpelled(tokens[m + 2]);
    if sym == NUM {
      NumberAt(tokens[m + 1]);
    }
    d' := d.(value := tokens[m + 1].value);
  }

  lemma {:induction false} DclsTree(tokens: seq<Token>, s: nat, z: Form, n: nat) returns (ds: seq<Dcl>)
    requires Gets([DCLS], z, n) && Holds(tokens, s, z)
    ensures DclsYield(ds) == z && DclsSpelled(tokens, s, ds) && forall i :: 0 <= i < |ds| ==> ds[i].dclType != Invalid
    decreases n
  {
    hide RuleAt, Gets, Holds, DclYield, DclSpelled, InitialSpelled, InitialToken;
    var r := FirstStep(tokens, s, DCLS, z, n);
    DclsForms(r);
    if RuleAt(r).rhs == [] {
      Rest([], z, n - 1);
      return [];
    }
    var sym := if RuleAt(r).rhs == [] + [DCLS] + ([] + [DCL] + [BECOMES, NUM, SEMI]) then NUM else NULL;
    var x, y, i, j := TwoParts(tokens, s, [], DCLS, [], DCL, [BECOMES, sym, SEMI], z, n - 1);
    var front := DclsTree(tokens, s, x, i);
    var d := DclTree(tokens, s + |x|, y, j);
    var d' := WithInitial(tokens, s + |x|, d, sym);
    ds := front + [d'];
    assert ds[..|ds| - 1] == front;
    assert [] + x + ([] + y + [BECOMES, sym, SEMI]) == x + y + [BECOMES, sym, SEMI];
  }

  lemma ParamsForms(r: nat)
    requires r < 49
    ensures RuleAt(r).lhs == PARAMS ==> RuleAt(r).rhs == [] || RuleAt(r).rhs == [PARAMLIST]
    ensures RuleAt(r).lhs == PARAMLIST ==>
              RuleAt(r).rhs == [DCL] || RuleAt(r).rhs == [] + [DCL] + ([COMMA] + [PARAMLIST] + [])
  {
  }

  predicate AreParams(ds: seq<Dcl>) {
    forall i :: 0 <= i < |ds| ==> ds[i].dclType != Invalid && ds[i].value == ""
  }

  /** One more parameter after those in front, and where it starts. */
  lemma MoreParams(tokens: seq<Token>, s: nat, front: seq<Dcl>, d: Dcl)
    requires ParamsSpelled(tokens, s, front)
    requires var at := if front == [] then s else s + |ParamsYield(front)| + 1; DclSpelled(tokens, at, d)
    ensures ParamsSpelled(tokens, s, front + [d])
    ensures ParamsYield(front + [d]) == (if front == [] then [] else ParamsYield(front) + [COMMA]) + DclYield(d)
  {
    hide DclYield, DclSpelled;
    var ds := front + [d];
    assert ds[..|ds| - 1] == front;
    if front == [] {
      assert [] + DclYield(d) == DclYield(d);
    }
  }

  /** The parameters from a place on, after those in front. */
  lemma {:induction false} ParamlistTree(tokens: seq<Token>, s: nat, front: seq<Dcl>, z: Form, n: nat)
      returns (ds: seq<Dcl>)
    requires Gets([PARAMLIST], z, n) && ParamsSpelled(tokens, s, front) && AreParams(front)
    requires Holds(tokens, if front == [] then s else s + |ParamsYield(front)| + 1, z)
    ensures ParamsSpelled(tokens, s, ds) && AreParams(ds) && ds != []
    ensures ParamsYield(ds) == (if front == [] then [] else ParamsYield(front) + [COMMA]) + z
    decreases n
  {
    hide RuleAt, Gets, Holds, DclYield, DclSpelled, ParamsSpelled, ParamsYield;
    var at := if front == [] then s else s + |ParamsYield(front)| + 1;
    var r := FirstStep(tokens, at, PARAMLIST, z, n);
    ParamsForms(r);
    if RuleAt(r).rhs == [DCL] {
      var d := DclTree(tokens, at, z, n - 1);
      MoreParams(tokens, s, front, d);
      return front + [d];
    }
    var x, y, i, j := TwoParts(tokens, at, [], DCL, [COMMA], PARAMLIST, [], z, n - 1);
    var d := DclTree(tokens, at, x, i);
    MoreParams(tokens, s, front, d);
    var before := if front == [] then [] else ParamsYield(front) + [COMMA];
    assert s + |ParamsYield(front + [d])| + 1 == at + |x| + 1;
    ds := ParamlistTree(tokens, s, front + [d], y, j);
    assert (before + x) + [COMMA] + y == before + ([] + x + ([COMMA] + y + []));
  }

  lemma ParamsTree(tokens: seq<Token>, s: nat, z: Form, n: nat) returns (ds: seq<Dcl>)
    requires Gets([PARAMS], z, n) && Holds(tokens, s, z)
    ensures ParamsYield(ds) == z && ParamsSpelled(tokens, s, ds) && AreParams(ds)
  {
    hide RuleAt, Gets, Holds, DclYield, DclSpelled;
    var r := FirstStep(tokens, s, PARAMS, z, n);
    ParamsForms(r);
    if RuleAt(r).rhs == [] {
      Rest([], z, n - 1);
      return [];
    }
    ds := ParamlistTree(tokens, s, [], z, n - 1);
    assert [] + z == z;
  }

  // ----- procedures -----

  const CLOSE: Form := [RPAREN, LBRACE] + [DCLS] + ([] + [STATEMENTS] + ([RETURN] + [EXPR] + [SEMI, RBRACE]))

  lemma ProcedureForms(r: nat)
    requires r < 49
    ensures RuleAt(r).lhs == PROCEDURE ==> RuleAt(r).rhs == [INT, ID, LPAREN] + [PARAMS] + CLOSE
    ensures RuleAt(r).lhs == MAIN ==> RuleAt(r).rhs == [INT, WAIN, LPAREN] + [DCL] + ([COMMA] + [DCL] + CLOSE)
    ensures RuleAt(r).lhs == PROCEDURES ==>
              RuleAt(r).rhs == [MAIN] || RuleAt(r).rhs == [] + [PROCEDURE] + ([] + [PROCEDURES] + [])
    ensures RuleAt(r).lhs == START ==> RuleAt(r).rhs == [PROCEDURES]
  {
  }

  /** What follows the parameters. */
  lemma InsideTree(tokens: seq<Token>, s: nat, z: Form, n: nat)
      returns (ds: seq<Dcl>, stmts: seq<Statement>, e: Expr)
    requires Gets(CLOSE, z, n) && Holds(tokens, s, z)
    ensures z == [RPAREN, LBRACE] + DclsYield(ds) + BodyYield(stmts) + [RETURN] + ExprYield(e) + [SEMI, RBRACE]
    ensures DclsSpelled(tokens, s + 2, ds) && BodySpelled(tokens, s + 2 + |DclsYield(ds)|, stmts)
    ensures ExprSpelled(tokens, s + 2 + |DclsYield(ds)| + |BodyYield(stmts)| + 1, e)
    ensures forall i :: 0 <= i < |ds| ==> ds[i].dclType != Invalid
  {
    hide RuleAt, Gets, Holds, DclsYield, DclsSpelled, BodyYield, BodySpelled, ExprYield, ExprSpelled;
    var last := [RETURN] + [EXPR] + [SEMI, RBRACE];
    var x, w, i, m := Part([RPAREN, LBRACE], DCLS, [] + [STATEMENTS] + last, z, n);
    HoldsParts(tokens, s, [RPAREN, LBRACE] + x, w);
    HoldsParts(tokens, s, [RPAREN, LBRACE], x);
    ds := DclsTree(tokens, s + 2, x, i);
    var at := s + 2 + |x|;
    var y, v, j, l := Part([], STATEMENTS, last, w, m);
    assert [] + y == y;
    HoldsParts(tokens, at, y, v);
    stmts := BodyTree(tokens, at, y, j);
    var u, k := OnePart(tokens, at + |y|, [RETURN], EXPR, [SEMI, RBRACE], v, l);
    e := ExprTree(tokens, at + |y| + 1, u, k);
    assert z == [RPAREN, LBRACE] + x + (y + ([RETURN] + u + [SEMI, RBRACE]));
  }

  /** What a procedure is written with, from its head. */
  lemma Assembled(tokens: seq<Token>, s: nat, z: Form, head: Symbol, name: string, ps: seq<Dcl>, ds: seq<Dcl>,
                  stmts: seq<Statement>, e: Expr) returns (p: Procedure)
    requires head == if name == "wain" then WAIN else ID
    requires z == [INT, head, LPAREN] + ParamsYield(ps) +
                  ([RPAREN, LBRACE] + DclsYield(ds) + BodyYield(stmts) + [RETURN] + ExprYield(e) + [SEMI, RBRACE])
    requires Spells(tokens, s + 1, name) && ParamsSpelled(tokens, s + 3, ps) && AreParams(ps)
    requires var at := s + 5 + |ParamsYield(ps)|;
             && DclsSpelled(tokens, at, ds) && BodySpelled(tokens, at + |DclsYield(ds)|, stmts)
             && ExprSpelled(tokens, at + |DclsYield(ds)| + |BodyYield(stmts)| + 1, e)
    requires (forall i :: 0 <= i < |ds| ==> ds[i].dclType != Invalid) && (name == "wain" ==> |ps| == 2)
    ensures ProcedureYield(p) == z && ProcedureSpelled(tokens, s, p) && IsShaped(p) && p.name == name
    ensures p.params == ps
  {
    hide DclsYield, DclsSpelled, BodyYield, BodySpelled, ExprYield, ExprSpelled, ParamsYield, ParamsSpelled;
    p := Procedure(name, ps, ds, stmts, e);
    var rest := [RPAREN, LBRACE] + DclsYield(ds) + BodyYield(stmts) + [RETURN] + ExprYield(e) + [SEMI, RBRACE];
    assert [INT, head, LPAREN] + ParamsYield(ps) + rest == ProcedureYield(p);
  }

  lemma ProcedureTree(tokens: seq<Token>, s: nat, z: Form, n: nat) returns (p: Procedure)
    requires Gets([PROCEDURE], z, n) && Holds(tokens, s, z)
    ensures ProcedureYield(p) == z && ProcedureSpelled(tokens, s, p) && IsShaped(p) && p.name != "wain"
  {
    hide RuleAt, Gets, Holds, IsToken, DclsYield, DclsSpelled, BodyYield, BodySpelled, ExprYield, ExprSpelled,
         ParamsYield, ParamsSpelled, ProcedureYield, ProcedureSpelled, IsShaped;
    var r := FirstStep(tokens, s, PROCEDURE, z, n);
    ProcedureForms(r);
    var x, w, i, m := Part([INT, ID, LPAREN], PARAMS, CLOSE, z, n - 1);
    HoldsParts(tokens, s, [INT, ID, LPAREN] + x, w);
    HoldsParts(tokens, s, [INT, ID, LPAREN], x);
    TokenAt(tokens, s, [INT, ID, LPAREN], 1);
    SignsAreSpelled(tokens[s + 1]);
    var ps := ParamsTree(tokens, s + 3, x, i);
    var ds, stmts, e := InsideTree(tokens, s + 3 + |x|, w, m);
    p := Assembled(tokens, s, z, ID, tokens[s + 1].value, ps, ds, stmts, e);
  }

  lemma WainTree(tokens: seq<Token>, s: nat, z: Form, n: nat) returns (p: Procedure)
    requires Gets([MAIN], z, n) && Holds(tokens, s, z)
    ensures ProcedureYield(p) == z && ProcedureSpelled(tokens, s, p) && IsShaped(p) && p.name == "wain"
    ensures |p.params| == 2
  {
    hide RuleAt, Gets, Holds, IsToken, DclsYield, DclsSpelled, BodyYield, BodySpelled, ExprYield, ExprSpelled,
         ParamsYield, ParamsSpelled, DclYield, DclSpelled, ProcedureYield, ProcedureSpelled, IsShaped;
    var r := FirstStep(tokens, s, MAIN, z, n);
    ProcedureForms(r);
    var x, w, i, m := Part([INT, WAIN, LPAREN], DCL, [COMMA] + [DCL] + CLOSE, z, n - 1);
    HoldsParts(tokens, s, [INT, WAIN, LPAREN] + x, w);
    HoldsParts(tokens, s, [INT, WAIN, LPAREN], x);
    TokenAt(tokens, s, [INT, WAIN, LPAREN], 1);
    SignsAreSpelled(tokens[s + 1]);
    var d1 := DclTree(tokens, s + 3, x, i);
    var y, v, j, l := Part([COMMA], DCL, CLOSE, w, m);
    var at := s + 3 + |x|;
    HoldsParts(tokens, at, [COMMA] + y, v);
    HoldsParts(tokens, at, [COMMA], y);
    var d2 := DclTree(tokens, at + 1, y, j);
    var ps := TwoParams(tokens, s + 3, d1, d2);
    var ds, stmts, e := InsideTree(tokens, at + 1 + |y|, v, l);
    assert z == [INT, WAIN, LPAREN] + ParamsYield(ps) + v;
    p := Assembled(tokens, s, z, WAIN, "wain", ps, ds, stmts, e);
  }

  lemma TwoParams(tokens: seq<Token>, s: nat, d1: Dcl, d2: Dcl) returns (ps: seq<Dcl>)
    requires DclSpelled(tokens, s, d1) && DclSpelled(tokens, s + |DclYield(d1)| + 1, d2) && AreParams([d1, d2])
    ensures |ps| == 2 && ParamsSpelled(tokens, s, ps) && AreParams(ps)
    ensures ParamsYield(ps) == DclYield(d1) + [COMMA] + DclYield(d2)
  {
    hide DclYield, DclSpelled, ParamsYield, ParamsSpelled;
    assert ParamsSpelled(tokens, s, []) by { NoParams(tokens, s); }
    MoreParams(tokens, s, [], d1);
    assert [] + [d1] == [d1] && [] + DclYield(d1) == DclYield(d1);
    MoreParams(tokens, s, [d1], d2);
    ps := [d1] + [d2];
    assert ps == [d1, d2];
  }

  lemma NoParams(tokens: seq<Token>, s: nat)
    ensures ParamsSpelled(tokens, s, [])
  {
  }

  // ----- programs -----

  /** Procedures none of which is wain, from the first token on. */
  predicate IsFront(tokens: seq<Token>, ps: seq<Procedure>) {
    && ProgramSpelled(tokens, ps)
    && forall i :: 0 <= i < |ps| ==> ps[i].name != "wain" && IsShaped(ps[i])
  }

  lemma OneMore(tokens: seq<Token>, front: seq<Procedure>, p: Procedure)
    requires ProgramSpelled(tokens, front) && ProcedureSpelled(tokens, |ProgramYield(front)|, p)
    ensures ProgramSpelled(tokens, front + [p]) && ProgramYield(front + [p]) == ProgramYield(front) + ProcedureYield(p)
  {
    hide ProcedureYield, ProcedureSpelled;
    assert (front + [p])[..|front + [p]| - 1] == front;
  }

  /** A whole program, by the tokens of which the first ones are those of its front. */
  lemma {:induction false} ProgramTree(tokens: seq<Token>, front: seq<Procedure>, z: Form, n: nat)
      returns (ps: seq<Procedure>)
    requires Gets([PROCEDURES], z, n) && IsFront(tokens, front) && Holds(tokens, |ProgramYield(front)|, z)
    ensures ProgramYield(ps) == ProgramYield(front) + z && ProgramSpelled(tokens, ps) && EndsInWain(ps)
    ensures forall i :: 0 <= i < |ps| ==> IsShaped(ps[i])
    decreases n
  {
    hide RuleAt, Gets, Holds, ProgramYield, ProgramSpelled, ProcedureYield, ProcedureSpelled, IsShaped;
    var s := |ProgramYield(front)|;
    var r := FirstStep(tokens, s, PROCEDURES, z, n);
    ProcedureForms(r);
    if RuleAt(r).rhs == [MAIN] {
      var p := WainTree(tokens, s, z, n - 1);
      OneMore(tokens, front, p);
      return front + [p];
    }
    var x, y, i, j := TwoParts(tokens, s, [], PROCEDURE, [], PROCEDURES, [], z, n - 1);
    var p := ProcedureTree(tokens, s, x, i);
    OneMore(tokens, front, p);
    ps := ProgramTree(tokens, front + [p], y, j);
    assert (ProgramYield(front) + x) + y == ProgramYield(front) + ([] + x + ([] + y + []));
  }

  /** Every sentence of the tokeniser's tokens is what some program, with wain last, is written with. */
  lemma SentencesArePrograms(tokens: seq<Token>, z: Form) returns (ps: seq<Procedure>)
    requires Derives(CFG(), [START], z) && Holds(tokens, 0, z)
    ensures ProgramYield(ps) == z && ProgramSpelled(tokens, ps) && EndsInWain(ps)
    ensures forall i :: 0 <= i < |ps| ==> IsShaped(ps[i])
  {
    hide RuleAt, Holds, ProcedureYield, ProcedureSpelled, IsShaped, EndsInWain;
    var n: nat :| DerivesIn(CFG(), [START], z, n);
    hide CFG;
    var r := FirstStep(tokens, 0, START, z, n);
    ProcedureForms(r);
    ps := ProgramTree(tokens, [], z, n - 1);
    assert [] + z == z;
  }
}
