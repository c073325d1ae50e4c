/** What trees are written with is derived from their symbols, so the recogniser accepts every program. */
module Sentences {
  import opened Symbols
  import opened Grammar
  import opened Earley
  import opened Wlp4Grammar
  import opened Tokens
  import opened Ast
  import opened Yields
  import opened Items
  import opened Programs

  /** The symbol derives the terminals. */
  ghost predicate Makes(a: Symbol, w: Form) {
    Derives(CFG(), [a], w)
  }

  /** The symbols derive the terminals, part by part. */
  ghost predicate MakesAll(rhs: Form, w: Form) {
    Derives(CFG(), rhs, w)
  }

  lemma ByRule(r: nat, w: Form)
    requires r < 49 && MakesAll(RuleAt(r).rhs, w)
    ensures Makes(RuleAt(r).lhs, w)
  {
    hide RuleAt;
    var g := CFG();
    assert g[r] == RuleAt(r);
    DerivesByRule(g, r);
    DerivesTrans(g, [g[r].lhs], g[r].rhs, w);
  }

  lemma Beside(a: Form, w: Form, b: Form, x: Form)
    requires MakesAll(a, w) && MakesAll(b, x)
    ensures MakesAll(a + b, w + x)
  {
    hide CFG;
    DerivesBeside(CFG(), a, w, b, x);
  }

  lemma Itself(a: Form)
    ensures MakesAll(a, a)
  {
    hide CFG;
    DerivesRefl(CFG(), a);
  }

  /** A part between fixed terminals. */
  lemma Between(p: Form, a: Symbol, w: Form, q: Form)
    requires Makes(a, w)
    ensures MakesAll(p + [a] + q, p + w + q)
  {
    Itself(p);
    Itself(q);
    Beside(p, p, [a], w);
    Beside(p + [a], p + w, q, q);
  }

  /** Two parts between fixed terminals. */
  lemma Both(p: Form, a: Symbol, w: Form, q: Form, b: Symbol, x: Form, r: Form)
    requires Makes(a, w) && Makes(b, x)
    ensures MakesAll(p + [a] + q + [b] + r, p + w + q + x + r)
  {
    Between(p, a, w, q);
    Itself(r);
    Beside(p + [a] + q, p + w + q, [b], x);
    Beside(p + [a] + q + [b], p + w + q + x, r, r);
  }

  // ----- expressions -----

  lemma {:induction false} ExprMade(e: Expr)
    ensures Makes(EXPR, ExprYield(e))
    decreases e
  {
    hide Makes, MakesAll, TermYield;
    match e
    case JustTerm(term) =>
      TermMade(term);
      Alone(28, TERM, TermYield(term));
    case _ =>
      ExprMade(e.left);
      TermMade(e.term);
      var op := if e.Plus? then PLUS else MINUS;
      Both([], EXPR, ExprYield(e.left), [op], TERM, TermYield(e.term), []);
      assert [] + [EXPR] + [op] + [TERM] + [] == RuleAt(ExprRule(e)).rhs;
      assert [] + ExprYield(e.left) + [op] + TermYield(e.term) + [] == ExprYield(e);
      ByRule(ExprRule(e), ExprYield(e));
  }

  lemma Alone(r: nat, a: Symbol, w: Form)
    requires r < 49 && RuleAt(r).rhs == [a] && Makes(a, w)
    ensures Makes(RuleAt(r).lhs, w)
  {
    ByRule(r, w);
  }

  lemma {:induction false} TermMade(t: Term)
    ensures Makes(TERM, TermYield(t))
    decreases t
  {
    hide Makes, MakesAll, FactorYield;
    match t
    case JustFactor(factor) =>
      FactorMade(factor);
      Alone(31, FACTOR, FactorYield(factor));
    case _ =>
      TermMade(t.left);
      FactorMade(t.factor);
      var op, r := if t.Times? then STAR else if t.Slash? then SLASH else PCT, TermRule(t);
      Both([], TERM, TermYield(t.left), [op], FACTOR, FactorYield(t.factor), []);
      assert [] + [TERM] + [op] + [FACTOR] + [] == RuleAt(r).rhs;
      assert [] + TermYield(t.left) + [op] + FactorYield(t.factor) + [] == TermYield(t);
      ByRule(r, TermYield(t));
  }

  /** A rule with one part between fixed terminals. */
  lemma Wrapped(r: nat, p: Form, a: Symbol, w: Form, q: Form)
    requires r < 49 && RuleAt(r).rhs == p + [a] + q && Makes(a, w)
    ensures Makes(RuleAt(r).lhs, p + w + q)
  {
    hide RuleAt, Makes;
    Between(p, a, w, q);
    ByRule(r, p + w + q);
  }

  lemma Fixed(r: nat)
    requires r < 49
    ensures Makes(RuleAt(r).lhs, RuleAt(r).rhs)
  {
    hide RuleAt;
    Itself(RuleAt(r).rhs);
    ByRule(r, RuleAt(r).rhs);
  }

  lemma {:induction false} FactorMade(f: Factor)
    ensures Makes(FACTOR, FactorYield(f))
    decreases f
  {
    hide Makes, MakesAll, ExprYield, LvalueYield, ArgsYield;
    match f
    case Id(_) => Fixed(35);
    case Num(_) => Fixed(36);
    case NullValue => Fixed(37);
    case Paren(e) =>
      ExprMade(e);
      Wrapped(38, [LPAREN], EXPR, ExprYield(e), [RPAREN]);
    case NewArray(e) =>
      ExprMade(e);
      Wrapped(41, [NEW, INT, LBRACK], EXPR, ExprYield(e), [RBRACK]);
    case AddressOf(l) =>
      LvalueMade(l);
      AddressMade(l);
    case Deref(g) =>
      FactorMade(g);
      DerefMade(g);
    case Call(callee, args) =>
      if args.Args? {
        ArgsMade(args);
      }
      CallMade(callee, args);
  }

  lemma AddressMade(l: Lvalue)
    requires Makes(LVALUE, LvalueYield(l))
    ensures Makes(FACTOR, FactorYield(AddressOf(l)))
  {
    hide Makes, MakesAll, LvalueYield;
    Wrapped(39, [AMP], LVALUE, LvalueYield(l), []);
    assert [AMP] + LvalueYield(l) + [] == FactorYield(AddressOf(l));
  }

  lemma DerefMade(g: Factor)
    requires Makes(FACTOR, FactorYield(g))
    ensures Makes(FACTOR, FactorYield(Deref(g)))
  {
    assert [STAR] + FactorYield(g) + [] == FactorYield(Deref(g));
    hide Makes, MakesAll, FactorYield;
    Wrapped(40, [STAR], FACTOR, FactorYield(g), []);
  }

  lemma CallMade(callee: string, args: Arglist)
    requires args.Args? ==> Makes(ARGLIST, ArgsYield(args))
    ensures Makes(FACTOR, FactorYield(Call(callee, args)))
  {
    hide Makes, MakesAll, ArgsYield;
    if args.NoArgs? {
      Fixed(42);
      assert [ID, LPAREN] + ArgsYield(NoArgs) + [RPAREN] == [ID, LPAREN, RPAREN] by { NoYield(); }
    } else {
      Wrapped(43, [ID, LPAREN], ARGLIST, ArgsYield(args), [RPAREN]);
    }
  }

  lemma NoYield()
    ensures ArgsYield(NoArgs) == []
  {
  }

  lemma {:induction false} ArgsMade(args: Arglist)
    requires args.Args?
    ensures Makes(ARGLIST, ArgsYield(args))
    decreases args
  {
    hide Makes, MakesAll, ExprYield;
    ExprMade(args.expr);
    if args.rest.NoArgs? {
      Alone(44, EXPR, ExprYield(args.expr));
    } else {
      ArgsMade(args.rest);
      Both([], EXPR, ExprYield(args.expr), [COMMA], ARGLIST, ArgsYield(args.rest), []);
      assert [] + [EXPR] + [COMMA] + [ARGLIST] + [] == RuleAt(45).rhs;
      assert [] + ExprYield(args.expr) + [COMMA] + ArgsYield(args.rest) + [] == ArgsYield(args);
      ByRule(45, ArgsYield(args));
    }
  }

  lemma {:induction false} LvalueMade(l: Lvalue)
    ensures Makes(LVALUE, LvalueYield(l))
    decreases l
  {
    hide Makes, MakesAll, FactorYield;
    match l
    case Var(_) => Fixed(46);
    case Target(pointer) =>
      FactorMade(pointer);
      Wrapped(47, [STAR], FACTOR, FactorYield(pointer), []);
      assert [STAR] + FactorYield(pointer) + [] == LvalueYield(l);
    case Enclosed(inner) =>
      LvalueMade(inner);
      Wrapped(48, [LPAREN], LVALUE, LvalueYield(inner), [RPAREN]);
  }

  // ----- statements -----

  lemma TestMade(t: Test)
    requires IsComparison(t.op)
    ensures Makes(TEST, TestYield(t))
  {
    hide Makes, MakesAll, ExprYield;
    ExprMade(t.left);
    ExprMade(t.right);
    Both([], EXPR, ExprYield(t.left), [t.op], EXPR, ExprYield(t.right), []);
    assert RuleAt(TestRule(t.op)) == Rule(TEST, [EXPR, t.op, EXPR]);
    assert [] + [EXPR] + [t.op] + [EXPR] + [] == [EXPR, t.op, EXPR];
    assert [] + ExprYield(t.left) + [t.op] + ExprYield(t.right) + [] == TestYield(t);
    ByRule(TestRule(t.op), TestYield(t));
  }

  lemma {:induction false} StatementMade(tokens: seq<Token>, s: nat, st: Statement)
    requires StatementSpelled(tokens, s, st)
    ensures Makes(STATEMENT, StatementYield(st))
    decreases st, 0
  {
    hide Makes, MakesAll, ExprYield, LvalueYield, TestYield, BodyYield, ExprSpelled, LvalueSpelled, BodySpelled;
    match st
    case Assign(l, e) =>
      LvalueMade(l);
      ExprMade(e);
      Both([], LVALUE, LvalueYield(l), [BECOMES], EXPR, ExprYield(e), [SEMI]);
      assert [] + [LVALUE] + [BECOMES] + [EXPR] + [SEMI] == RuleAt(17).rhs;
      assert [] + LvalueYield(l) + [BECOMES] + ExprYield(e) + [SEMI] == StatementYield(st);
      ByRule(17, StatementYield(st));
    case If(t, onTrue, onFalse) =>
      var s1 := s + |TestYield(t)| + 4;
      TestMade(t);
      BodyMade(tokens, s1, onTrue);
      BodyMade(tokens, s1 + |BodyYield(onTrue)| + 3, onFalse);
      IfMade(t, onTrue, onFalse);
    case While(t, body) =>
      TestMade(t);
      BodyMade(tokens, s + |TestYield(t)| + 4, body);
      Both([WHILE, LPAREN], TEST, TestYield(t), [RPAREN, LBRACE], STATEMENTS, BodyYield(body), [RBRACE]);
      assert [WHILE, LPAREN] + [TEST] + [RPAREN, LBRACE] + [STATEMENTS] + [RBRACE] == RuleAt(19).rhs;
      ByRule(19, StatementYield(st));
    case Println(e) =>
      ExprMade(e);
      Wrapped(20, [PRINTLN, LPAREN], EXPR, ExprYield(e), [RPAREN, SEMI]);
    case Delete(e) =>
      ExprMade(e);
      Wrapped(21, [DELETE, LBRACK, RBRACK], EXPR, ExprYield(e), [SEMI]);
  }

  lemma IfMade(t: Test, onTrue: seq<Statement>, onFalse: seq<Statement>)
    requires Makes(TEST, TestYield(t)) && Makes(STATEMENTS, BodyYield(onTrue)) && Makes(STATEMENTS, BodyYield(onFalse))
    ensures Makes(STATEMENT, StatementYield(If(t, onTrue, onFalse)))
  {
    hide Makes, MakesAll, TestYield, BodyYield;
    var p, q, r := [IF, LPAREN], [RPAREN, LBRACE], [RBRACE, ELSE, LBRACE];
    var w, x, y := TestYield(t), BodyYield(onTrue), BodyYield(onFalse);
    Both(p, TEST, w, q, STATEMENTS, x, r);
    Between([], STATEMENTS, y, [RBRACE]);
    Beside(p + [TEST] + q + [STATEMENTS] + r, p + w + q + x + r, [] + [STATEMENTS] + [RBRACE], [] + y + [RBRACE]);
    assert p + [TEST] + q + [STATEMENTS] + r + ([] + [STATEMENTS] + [RBRACE]) == RuleAt(18).rhs;
    assert p + w + q + x + r + ([] + y + [RBRACE]) == StatementYield(If(t, onTrue, onFalse));
    ByRule(18, StatementYield(If(t, onTrue, onFalse)));
  }

  lemma {:induction false} BodyMade(tokens: seq<Token>, s: nat, stmts: seq<Statement>)
    requires BodySpelled(tokens, s, stmts)
    ensures Makes(STATEMENTS, BodyYield(stmts))
    decreases stmts, 1
  {
    hide Makes, MakesAll, StatementYield, StatementSpelled;
    if stmts == [] {
      Fixed(15);
    } else {
      var front, last := stmts[..|stmts| - 1], stmts[|stmts| - 1];
      BodyMade(tokens, s, front);
      StatementMade(tokens, s + |BodyYield(front)|, last);
      Both([], STATEMENTS, BodyYield(front), [], STATEMENT, StatementYield(last), []);
      assert [] + [STATEMENTS] + [] + [STATEMENT] + [] == RuleAt(16).rhs;
      assert [] + BodyYield(front) + [] + StatementYield(last) + [] == BodyYield(stmts);
      ByRule(16, BodyYield(stmts));
    }
  }

  // ----- procedures -----

  lemma DclMade(d: Dcl)
    ensures Makes(DCL, DclYield(d))
  {
    hide Makes, MakesAll;
    var r := if d.dclType == IntStar then 10 else 9;
    Fixed(r);
    assert RuleAt(r) == Rule(TYPE, if d.dclType == IntStar then [INT, STAR] else [INT]);
    Wrapped(14, [], TYPE, RuleAt(r).rhs, [ID]);
    assert [] + RuleAt(r).rhs + [ID] == DclYield(d);
  }

  lemma {:induction false} DclsMade(ds: seq<Dcl>)
    ensures Makes(DCLS, DclsYield(ds))
  {
    hide Makes, MakesAll, DclYield;
    if ds == [] {
      Fixed(11);
    } else {
      var front, d := ds[..|ds| - 1], ds[|ds| - 1];
      var r, value := DclsRule(d), InitialToken(d);
      DclsMade(front);
      DclMade(d);
      Both([], DCLS, DclsYield(front), [], DCL, DclYield(d), [BECOMES, value, SEMI]);
      assert RuleAt(r) == Rule(DCLS, [DCLS, DCL, BECOMES, value, SEMI]);
      assert [] + [DCLS] + [] + [DCL] + [BECOMES, value, SEMI] == RuleAt(r).rhs;
      assert [] + DclsYield(front) + [] + DclYield(d) + [BECOMES, value, SEMI] == DclsYield(ds);
      ByRule(r, DclsYield(ds));
    }
  }

  /** Parameters from the first one on. */
  lemma {:induction false} ParamsYieldFirst(ds: seq<Dcl>)
    requires |ds| > 1
    ensures ParamsYield(ds) == DclYield(ds[0]) + [COMMA] + ParamsYield(ds[1..])
  {
    hide DclYield;
    var front, last := ds[..|ds| - 1], DclYield(ds[|ds| - 1]);
    if |ds| > 2 {
      ParamsYieldFirst(front);
      assert front[1..] == ds[1..][..|ds| - 2];
      assert front[0] == ds[0] && ds[1..][|ds| - 2] == ds[|ds| - 1];
      assert ParamsYield(ds[1..]) == ParamsYield(front[1..]) + [COMMA] + last;
    } else {
      assert ParamsYield(front) == DclYield(ds[0]) && ParamsYield(ds[1..]) == last;
    }
  }

  lemma {:induction false} ParamlistMade(ds: seq<Dcl>)
    requires ds != []
    ensures Makes(PARAMLIST, ParamsYield(ds))
    decreases |ds|
  {
    hide Makes, MakesAll, DclYield, ParamsYield;
    DclMade(ds[0]);
    if |ds| == 1 {
      Alone(7, DCL, DclYield(ds[0]));
      OneParam(ds);
    } else {
      ParamlistMade(ds[1..]);
      Both([], DCL, DclYield(ds[0]), [COMMA], PARAMLIST, ParamsYield(ds[1..]), []);
      ParamsYieldFirst(ds);
      assert [] + [DCL] + [COMMA] + [PARAMLIST] + [] == RuleAt(8).rhs;
      assert [] + DclYield(ds[0]) + [COMMA] + ParamsYield(ds[1..]) + [] == ParamsYield(ds);
      ByRule(8, ParamsYield(ds));
    }
  }

  lemma OneParam(ds: seq<Dcl>)
    requires |ds| == 1
    ensures ParamsYield(ds) == DclYield(ds[0])
  {
  }

  lemma ParamsMade(ds: seq<Dcl>)
    ensures Makes(PARAMS, ParamsYield(ds))
  {
    hide Makes, MakesAll;
    if ds == [] {
      Fixed(5);
    } else {
      ParamlistMade(ds);
      hide ParamsYield;
      Alone(6, PARAMLIST, ParamsYield(ds));
    }
  }

  /** From the opening brace to the closing one. */
  lemma InsideMade(tokens: seq<Token>, s: nat, p: Procedure)
    requires BodySpelled(tokens, s, p.stmts)
    ensures MakesAll([RPAREN, LBRACE, DCLS, STATEMENTS, RETURN, EXPR, SEMI, RBRACE],
                     [RPAREN, LBRACE] + DclsYield(p.dcls) + BodyYield(p.stmts) + [RETURN] + ExprYield(p.ret) +
                       [SEMI, RBRACE])
  {
    hide Makes, MakesAll, DclsYield, BodyYield, ExprYield, BodySpelled;
    var d, b, e := DclsYield(p.dcls), BodyYield(p.stmts), ExprYield(p.ret);
    DclsMade(p.dcls);
    BodyMade(tokens, s, p.stmts);
    ExprMade(p.ret);
    Both([RPAREN, LBRACE], DCLS, d, [], STATEMENTS, b, [RETURN]);
    Between([], EXPR, e, [SEMI, RBRACE]);
    Beside([RPAREN, LBRACE] + [DCLS] + [] + [STATEMENTS] + [RETURN], [RPAREN, LBRACE] + d + [] + b + [RETURN],
           [] + [EXPR] + [SEMI, RBRACE], [] + e + [SEMI, RBRACE]);
    assert [RPAREN, LBRACE] + [DCLS] + [] + [STATEMENTS] + [RETURN] + ([] + [EXPR] + [SEMI, RBRACE]) ==
           [RPAREN, LBRACE, DCLS, STATEMENTS, RETURN, EXPR, SEMI, RBRACE];
    assert [RPAREN, LBRACE] + d + [] + b + [RETURN] + ([] + e + [SEMI, RBRACE]) ==
           [RPAREN, LBRACE] + d + b + [RETURN] + e + [SEMI, RBRACE];
  }

  lemma ProcedureMade(tokens: seq<Token>, s: nat, p: Procedure)
    requires BodySpelled(tokens, s, p.stmts) && (p.name == "wain" ==> |p.params| == 2)
    ensures Makes(if p.name == "wain" then MAIN else PROCEDURE, ProcedureYield(p))
  {
    hide Makes, MakesAll, DclsYield, BodyYield, ExprYield, ParamsYield, DclYield, BodySpelled;
    InsideMade(tokens, s, p);
    var rest := [RPAREN, LBRACE] + DclsYield(p.dcls) + BodyYield(p.stmts) + [RETURN] + ExprYield(p.ret) +
      [SEMI, RBRACE];
    var close := [RPAREN, LBRACE, DCLS, STATEMENTS, RETURN, EXPR, SEMI, RBRACE];
    var x := ParamsYield(p.params);
    if p.name == "wain" {
      var d1, d2 := p.params[0], p.params[1];
      DclMade(d1);
      DclMade(d2);
      ParamsYieldFirst(p.params);
      OneParam(p.params[1..]);
      Both([INT, WAIN, LPAREN], DCL, DclYield(d1), [COMMA], DCL, DclYield(d2), []);
      assert [INT, WAIN, LPAREN] + [DCL] + [COMMA] + [DCL] + [] == [INT, WAIN, LPAREN, DCL, COMMA, DCL];
      assert [INT, WAIN, LPAREN] + DclYield(d1) + [COMMA] + DclYield(d2) + [] == [INT, WAIN, LPAREN] + x;
      Beside([INT, WAIN, LPAREN, DCL, COMMA, DCL], [INT, WAIN, LPAREN] + x, close, rest);
      assert [INT, WAIN, LPAREN, DCL, COMMA, DCL] + close == RuleAt(4).rhs;
      assert [INT, WAIN, LPAREN] + x + rest == ProcedureYield(p);
      ByRule(4, ProcedureYield(p));
    } else {
      ParamsMade(p.params);
      Between([INT, ID, LPAREN], PARAMS, x, []);
      assert [INT, ID, LPAREN] + [PARAMS] + [] == [INT, ID, LPAREN, PARAMS] &&
             [INT, ID, LPAREN] + x + [] == [INT, ID, LPAREN] + x;
      Beside([INT, ID, LPAREN, PARAMS], [INT, ID, LPAREN] + x, close, rest);
      assert [INT, ID, LPAREN, PARAMS] + close == RuleAt(3).rhs;
      assert [INT, ID, LPAREN] + x + rest == ProcedureYield(p);
      ByRule(3, ProcedureYield(p));
    }
  }

  /** wain is the last procedure and no other, and has two parameters. */
  predicate EndsInWain(ps: seq<Procedure>) {
    && ps != []
    && (forall i :: 0 <= i < |ps| ==> (ps[i].name == "wain" <==> i == |ps| - 1))
    && |ps[|ps| - 1].params| == 2
  }

  /** A program from its first procedure on. */
  lemma {:induction false} ProgramYieldFirst(ps: seq<Procedure>)
    requires ps != []
    ensures ProgramYield(ps) == ProcedureYield(ps[0]) + ProgramYield(ps[1..])
  {
    hide ProcedureYield;
    if |ps| > 1 {
      var front := ps[..|ps| - 1];
      ProgramYieldFirst(front);
      assert front[1..] == ps[1..][..|ps| - 2] && front[0] == ps[0] && ps[1..][|ps| - 2] == ps[|ps| - 1];
    } else {
      assert ps[..0] == [];
    }
  }

  /** The tokens spell the body of the procedure somewhere. */
  ghost predicate IsSpelled(tokens: seq<Token>, p: Procedure) {
    exists s: nat :: BodySpelled(tokens, s, p.stmts)
  }

  ghost predicate BodiesSpelled(tokens: seq<Token>, ps: seq<Procedure>) {
    forall i :: 0 <= i < |ps| ==> IsSpelled(tokens, ps[i])
  }

  lemma {:induction false} SpelledBodies(tokens: seq<Token>, ps: seq<Procedure>)
    requires ProgramSpelled(tokens, ps)
    ensures BodiesSpelled(tokens, ps)
  {
    hide BodySpelled, ExprSpelled, DclsSpelled, ParamsSpelled, IsSpelled, ProgramYield, BodyStart;
    if ps != [] {
      var front, p := ps[..|ps| - 1], ps[|ps| - 1];
      SpelledBodies(tokens, front);
      SpelledAt(tokens, BodyStart(p, |ProgramYield(front)|), p);
      forall i | 0 <= i < |ps|
        ensures IsSpelled(tokens, ps[i])
      {
        if i < |front| {
          assert front[i] == ps[i];
        }
      }
    }
  }

  lemma SpelledAt(tokens: seq<Token>, s: nat, p: Procedure)
    requires BodySpelled(tokens, s, p.stmts)
    ensures IsSpelled(tokens, p)
  {
  }

  lemma {:induction false} ProceduresMade(tokens: seq<Token>, ps: seq<Procedure>)
    requires BodiesSpelled(tokens, ps) && EndsInWain(ps)
    ensures Makes(PROCEDURES, ProgramYield(ps))
    decreases |ps|
  {
    hide Makes, MakesAll, ProcedureYield, ProgramYield, BodySpelled;
    var p, rest := ps[0], ps[1..];
    assert IsSpelled(tokens, p);
    var s: nat :| BodySpelled(tokens, s, p.stmts);
    ProcedureMade(tokens, s, p);
    ProgramYieldFirst(ps);
    if rest == [] {
      assert ProgramYield(rest) == [] by { NoProcedures(); }
      assert ProgramYield(ps) == ProcedureYield(p);
      Alone(2, MAIN, ProcedureYield(p));
    } else {
      forall i | 0 <= i < |rest|
        ensures IsSpelled(tokens, rest[i])
        ensures rest[i].name == "wain" <==> i == |rest| - 1
      {
        assert rest[i] == ps[i + 1];
      }
      ProceduresMade(tokens, rest);
      Both([], PROCEDURE, ProcedureYield(p), [], PROCEDURES, ProgramYield(rest), []);
      assert [] + [PROCEDURE] + [] + [PROCEDURES] + [] == RuleAt(1).rhs;
      assert [] + ProcedureYield(p) + [] + ProgramYield(rest) + [] == ProgramYield(ps);
      ByRule(1, ProgramYield(ps));
    }
  }

  lemma NoProcedures()
    ensures ProgramYield([]) == []
  {
  }

  /** Every program is a sentence of the grammar, so the recogniser, which accepts what is viable, accepts it. */
  lemma ProgramsAreViable(tokens: seq<Token>, ps: seq<Procedure>)
    requires ProgramSpelled(tokens, ps) && EndsInWain(ps)
    ensures Derives(CFG(), [START], ProgramYield(ps)) && Viable(CFG(), ProgramYield(ps))
  {
    hide ProgramSpelled, ProgramYield, EndsInWain;
    var w := ProgramYield(ps);
    SpelledBodies(tokens, ps);
    ProceduresMade(tokens, ps);
    Alone(0, PROCEDURES, w);
    assert Derives(CFG(), [START], w) && CFG()[0].lhs == START;
    assert w + [] == w;
  }
}
