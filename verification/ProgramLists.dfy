/** The final chart of a program is exactly the list of its items. */
module ProgramLists {
  import opened Symbols
  import opened Grammar
  import opened Earley
  import opened Charts
  import opened Wlp4Grammar
  import opened FinalChart
  import opened Tokens
  import opened Ast
  import opened Yields
  import opened Sentences
  import opened Traces
  import opened Lists
  import opened Openings
  import opened Operands
  import opened ExprLists
  import opened StatementLists
  import opened DclLists
  import opened Items
  import opened Programs

  lemma ProcedureRuleIs()
    ensures RuleAt(3) ==
            Rule(PROCEDURE, [INT, ID, LPAREN, PARAMS, RPAREN, LBRACE, DCLS, STATEMENTS, RETURN, EXPR, SEMI, RBRACE])
  {
  }

  lemma MainRuleIs()
    ensures RuleAt(4) ==
            Rule(MAIN, [INT, WAIN, LPAREN, DCL, COMMA, DCL, RPAREN, LBRACE, DCLS, STATEMENTS, RETURN, EXPR, SEMI,
                        RBRACE])
  {
  }

  lemma ProgramRules()
    ensures RuleAt(0) == Rule(START, [PROCEDURES]) && RuleAt(1) == Rule(PROCEDURES, [PROCEDURE, PROCEDURES])
    ensures RuleAt(2) == Rule(PROCEDURES, [MAIN])
  {
  }

  // ----- from the first brace of a procedure to the last -----

  /** Where DCLS stands in the rule of a procedure. */
  function DclsDot(r: nat): nat {
    if r == 3 then 6 else 8
  }

  lemma RestOfRule(r: nat, s: nat)
    requires r == 3 || r == 4
    ensures var k := DclsDot(r);
            && AsksForDcls(Elem(r, s, k)) && Wants(Elem(r, s, k + 3), EXPR) && Wants(Elem(r, s, k + 4), SEMI) &&
               Wants(Elem(r, s, k + 5), RBRACE)
            && Elem(r, s, k + 6) == Done(r, s)
  {
    hide RuleAt;
    ProcedureRuleIs();
    MainRuleIs();
  }

  function InsideYield(p: Procedure): Form {
    DclsYield(p.dcls) + BodyYield(p.stmts) + [RETURN] + ExprYield(p.ret) + [SEMI]
  }

  /** Declarations and statements. */
  lemma BlockLists(w: Form, c: Chart, tokens: seq<Token>, p: Procedure, b: nat, q: Elem)
    requires Traced(w, c) && 0 < b < |w| && w[b - 1] == LBRACE && Wanted(c, b - 1, LBRACE, {q}) &&
             AsksForDcls(Advance(q))
    requires Reads(w, b, DclsYield(p.dcls)) && Reads(w, b + |DclsYield(p.dcls)|, BodyYield(p.stmts))
    requires BodySpelled(tokens, b + |DclsYield(p.dcls)|, p.stmts)
    ensures var m1 := b + |DclsYield(p.dcls)|; var m2 := m1 + |BodyYield(p.stmts)|;
            && m2 + 1 < |c| && Span(c, b, m2 + 1) == DclsItems(p.dcls, b) + BodyItems(p.stmts, m1)
            && Wanted(c, m2, RETURN, {Advance(Advance(Advance(q)))})
  {
    hide RuleAt, IsTraced, AsksForDcls, Span, Reads, DclsYield, DclsItems, BodyYield, BodyItems, Done, BodySpelled,
         AtType, BodyIsWanted, AtStatement;
    var z := Advance(q);
    var m1 := b + |DclsYield(p.dcls)|;
    var m2 := m1 + |BodyYield(p.stmts)|;
    DclsOpen(w, c, b, q);
    DclsAreListed(w, c, p.dcls, b, z);
    BodyIsListed(w, c, tokens, p.stmts, m1, Advance(z), RETURN);
    SpanSplit(c, b, m1 + 1, m2 + 1);
  }

  /** All of it. */
  lemma InsideLists(w: Form, c: Chart, tokens: seq<Token>, p: Procedure, b: nat, r: nat, s: nat)
    requires Traced(w, c) && 0 < b && (r == 3 || r == 4) && Reads(w, b, InsideYield(p))
    requires w[b - 1] == LBRACE && Wanted(c, b - 1, LBRACE, {Elem(r, s, DclsDot(r) - 1)})
    requires BodySpelled(tokens, b + |DclsYield(p.dcls)|, p.stmts)
    ensures var n := b + |InsideYield(p)|; var m := b + |DclsYield(p.dcls)|;
            && n + 1 < |c| && Wanted(c, n, RBRACE, {Elem(r, s, DclsDot(r) + 5)})
            && Span(c, b, n + 1) ==
               DclsItems(p.dcls, b) + BodyItems(p.stmts, m) + ExprItems(p.ret, m + |BodyYield(p.stmts)| + 1, [])
  {
    hide RuleAt, IsTraced, AsksForDcls, Span, Reads, DclsYield, DclsItems, BodyYield, BodyItems, Done, BodySpelled,
         ExprYield, ExprItems, IsSilent, Wants;
    var m1 := b + |DclsYield(p.dcls)|;
    var m2 := m1 + |BodyYield(p.stmts)|;
    var m3 := m2 + 1;
    var m4 := m3 + |ExprYield(p.ret)|;
    RestOfRule(r, s);
    ReadsInside(w, b, p);
    var k := DclsDot(r);
    BlockLists(w, c, tokens, p, b, Elem(r, s, k - 1));
    ExprInside(w, c, m3, Elem(r, s, k + 2), SEMI, p.ret);
    TokenOpens(w, c, m4 + 1, Elem(r, s, k + 4), RBRACE);
    SilentSpan(c, m4 + 1);
    SpanSplit(c, b, m3, m4 + 1);
    SpanSplit(c, b, m4 + 1, m4 + 2);
  }

  lemma ReadsInside(w: Form, b: nat, p: Procedure)
    requires Reads(w, b, InsideYield(p))
    ensures var m1 := b + |DclsYield(p.dcls)|; var m2 := m1 + |BodyYield(p.stmts)|;
            var m4 := m2 + 1 + |ExprYield(p.ret)|;
            && Reads(w, b, DclsYield(p.dcls)) && Reads(w, m1, BodyYield(p.stmts)) && Reads(w, m2 + 1, ExprYield(p.ret))
            && m4 + 1 < |w| && w[m2] == RETURN && w[m4] == SEMI && |InsideYield(p)| == m4 + 1 - b
  {
    hide Reads, DclsYield, BodyYield, ExprYield;
    var x, y, z := DclsYield(p.dcls), BodyYield(p.stmts), ExprYield(p.ret);
    ReadsSum(w, b, x + y, RETURN, z + [SEMI]) by { assert x + y + [RETURN] + (z + [SEMI]) == InsideYield(p); }
    ReadsBoth(w, b, x, y);
    ReadsSum(w, b + |x| + |y| + 1, z, SEMI, []) by { assert z + [SEMI] + [] == z + [SEMI]; }
  }

  // ----- headers -----

  /** A procedure may start at s. */
  ghost predicate AtProcedure(c: Chart, s: nat) {
    Wanted(c, s, INT, {Elem(3, s, 0), Elem(4, s, 0)}) && Wanted(c, s, PROCEDURE, {Elem(1, s, 0)})
  }

  /** After INT a name or WAIN follows. */
  lemma HeaderOpens(w: Form, c: Chart, s: nat)
    requires Traced(w, c) && s + 1 < |w| && AtProcedure(c, s) && w[s] == INT
    ensures IsSilent(c, s + 1) && Wanted(c, s + 1, ID, {Elem(3, s, 1)}) && Wanted(c, s + 1, WAIN, {Elem(4, s, 1)})
  {
    hide RuleAt, IsTraced, IsSilent, IsTidy;
    ProcedureRuleIs();
    MainRuleIs();
    NoneIsTidy();
    var xs, m := {Elem(3, s, 0), Elem(4, s, 0)}, s + 1;
    Scan(w, c, s, xs);
    OpenList(w, c, m, xs, {});
    assert Elem(3, s, 0) in xs && Elem(4, s, 0) in xs;
    assert Advance(Elem(3, s, 0)) == Elem(3, s, 1) && Advance(Elem(4, s, 0)) == Elem(4, s, 1);
    forall e | e in c[m]
      ensures e == Elem(3, s, 1) || e == Elem(4, s, 1)
    {
      assert e in Moved(xs) ==> Advance(Retreat(e)) == e;
    }
  }

  lemma ProcedureSymbolsAreTidy()
    ensures IsTidy({PROCEDURES, PROCEDURE, MAIN})
  {
    ProgramRules();
    ProcedureRuleIs();
    MainRuleIs();
    hide RuleAt;
    forall r: nat | r < 49 && RuleAt(r).lhs in {PROCEDURES, PROCEDURE, MAIN}
      ensures RuleAt(r).rhs != [] && (IsTerminal(RuleAt(r).rhs[0]) || RuleAt(r).rhs[0] in {PROCEDURES, PROCEDURE, MAIN})
    {
      LeftSides(r);
    }
  }

  lemma ReadsHeader(w: Form, s: nat, name: Symbol, y: Form)
    requires Reads(w, s, [INT, name, LPAREN] + y + [RPAREN, LBRACE])
    ensures var h := s + 3 + |y|;
            && h + 2 < |w| && w[s] == INT && w[s + 1] == name && w[s + 2] == LPAREN && Reads(w, s + 3, y) &&
               w[h] == RPAREN && w[h + 1] == LBRACE
  {
    hide Reads;
    var pre, post, h := [INT, name, LPAREN], [RPAREN, LBRACE], s + 3 + |y|;
    ReadsWrapped(w, s, pre, y, post);
    ReadsOne(w, s, pre, 1);
    ReadsOne(w, s, pre, 2);
    ReadsOne(w, h, post, 1);
    ReadsEnd(w, h, post);
  }

  lemma Advances(r: nat, s: nat)
    ensures forall i: nat :: Advance(Elem(r, s, i)) == Elem(r, s, i + 1)
  {
  }

  lemma HeaderWants(s: nat)
    ensures Wants(Elem(3, s, 1), ID) && Wants(Elem(3, s, 2), LPAREN) && Wants(Elem(3, s, 3), PARAMS)
    ensures Wants(Elem(3, s, 4), RPAREN) && Wants(Elem(3, s, 5), LBRACE) && IsTerminal(LPAREN) && IsTerminal(LBRACE)
  {
    hide RuleAt;
    ProcedureRuleIs();
  }

  lemma WainWants(s: nat)
    ensures Wants(Elem(4, s, 1), WAIN) && Wants(Elem(4, s, 2), LPAREN) && Wants(Elem(4, s, 3), DCL) &&
            Wants(Elem(4, s, 4), COMMA)
    ensures Wants(Elem(4, s, 5), DCL) && Wants(Elem(4, s, 6), RPAREN) && Wants(Elem(4, s, 7), LBRACE)
    ensures IsTerminal(LPAREN) && IsTerminal(LBRACE)
  {
    hide RuleAt;
    MainRuleIs();
  }

  /** The parameters of a procedure other than wain. */
  lemma ParamsLists(w: Form, c: Chart, ds: seq<Dcl>, b: nat, z: Elem)
    requires Traced(w, c) && ParamsBegin(c, b, z) && Reads(w, b, ParamsYield(ds))
    ensures var h := b + |ParamsYield(ds)|;
            h + 1 < |c| && Span(c, b, h + 1) == ParamsItems(ds, b) && Wanted(c, h, RPAREN, {Advance(z)})
  {
    hide RuleAt, Traced, ParamsBegin, ParamsListed, ParamsYield, ParamsItems, Span, Wanted, Reads;
    if ds == [] {
      NoParamsListed(c, b, z);
    } else {
      var x := ParamsAreListed(w, c, ds, b, z);
      SomeParamsListed(c, b, ds, z, x);
    }
  }

  lemma NoParamsListed(c: Chart, b: nat, z: Elem)
    requires ParamsBegin(c, b, z)
    ensures ParamsYield([]) == [] && b + 1 < |c| && Span(c, b, b + 1) == ParamsItems([], b) &&
            Wanted(c, b, RPAREN, {Advance(z)})
  {
    hide RuleAt, AtParam, Wanted, Wants, Span;
  }

  lemma SomeParamsListed(c: Chart, b: nat, ds: seq<Dcl>, z: Elem, x: Demand)
    requires ds != [] && ParamsListed(c, b, ds, z, x)
    ensures var h := b + |ParamsYield(ds)|;
            h + 1 < |c| && Span(c, b, h + 1) == ParamsItems(ds, b) && Wanted(c, h, RPAREN, {Advance(z)})
  {
    hide ParamsYield, ParamsItems, Span, Wanted, Demands, Chain, Pends, ListEnds, LastParamAt;
  }

  /** Silent lists before and after. */
  lemma HeaderSpan(c: Chart, s: nat, h: nat, items: seq<Elem>)
    requires s + 3 <= h + 1 && IsSilent(c, s + 1) && IsSilent(c, s + 2) && IsSilent(c, h + 1) &&
             Span(c, s + 3, h + 1) == items
    ensures Span(c, s + 1, h + 2) == items
  {
    hide Span, IsSilent;
    SilentSpan(c, s + 1);
    SilentSpan(c, s + 2);
    SilentSpan(c, h + 1);
    SpanSplit(c, s + 1, s + 2, s + 3);
    SpanSplit(c, s + 1, s + 3, h + 1);
    SpanSplit(c, s + 1, h + 1, h + 2);
    assert [] + [] + items + [] == items;
  }

  lemma ProcedureHeader(w: Form, c: Chart, ds: seq<Dcl>, s: nat)
    requires Traced(w, c) && AtProcedure(c, s) && Reads(w, s, [INT, ID, LPAREN] + ParamsYield(ds) + [RPAREN, LBRACE])
    ensures var b := s + 5 + |ParamsYield(ds)|;
            && b < |c| && Span(c, s + 1, b) == ParamsItems(ds, s + 3)
            && b < |w| && w[b - 1] == LBRACE && Wanted(c, b - 1, LBRACE, {Elem(3, s, 5)})
  {
    hide *;
    var h := s + 3 + |ParamsYield(ds)|;
    TraceLength(w, c);
    ReadsHeader(w, s, ID, ParamsYield(ds));
    HeaderWants(s);
    Advances(3, s);
    HeaderOpens(w, c, s);
    TokenOpens(w, c, s + 2, Elem(3, s, 1), LPAREN);
    ParamsOpen(w, c, s + 3, Elem(3, s, 2));
    ParamsLists(w, c, ds, s + 3, Elem(3, s, 3));
    TokenOpens(w, c, h + 1, Elem(3, s, 4), LBRACE);
    HeaderSpan(c, s, h, ParamsItems(ds, s + 3));
  }

  /** What waits for a parameter of wain that token t follows. */
  lemma WainDemand(c: Chart, p: nat, q: Elem, t: Symbol) returns (x: Demand)
    requires Wanted(c, p, DCL, {q}) && Wants(q, DCL) && Wants(Advance(q), t) && (t == COMMA || t == RPAREN)
    ensures Demands(c, p, DCL, x) && Calm(x) && Chain(x) == [] && OnlyPending(x, t, Advance(q)) && t != LPAREN
  {
    hide RuleAt;
    x := Open({q});
    assert Retreat(Advance(q)) == q;
    assert forall e: Elem :: e.dot > 0 && Retreat(e) == q ==> e == Advance(q);
  }

  /** One parameter of wain, which the token before p asks for, and the token t after it. */
  lemma WainParam(w: Form, c: Chart, p: nat, q: Elem, d: Dcl, t: Symbol)
    requires Traced(w, c) && 0 < p < |w| && Wanted(c, p - 1, w[p - 1], {q}) && Wants(Advance(q), DCL)
    requires Wants(Advance(Advance(q)), t) && (t == COMMA || t == RPAREN) && Reads(w, p, DclYield(d))
    ensures var m := p + |DclYield(d)|;
            m + 1 < |c| && Span(c, p, m + 1) == DclItems(d, p) && Wanted(c, m, t, {Advance(Advance(q))})
  {
    hide *;
    TraceLength(w, c);
    var m := p + |DclYield(d)|;
    DclOpens(w, c, p, q);
    var x := WainDemand(c, p, Advance(q), t);
    DclIsListed(w, c, d, p, x);
    ListedEnds(c, p, |DclYield(d)|, DclItems(d, p), x, {LPAREN});
    EndedWants(c, m, x, {LPAREN}, t, Advance(Advance(q)));
    SilentlyListed(c, p, |DclYield(d)|, DclItems(d, p), x, {LPAREN});
  }

  lemma WainHeader(w: Form, c: Chart, ds: seq<Dcl>, s: nat)
    requires Traced(w, c) && AtProcedure(c, s) && |ds| == 2 &&
             Reads(w, s, [INT, WAIN, LPAREN] + ParamsYield(ds) + [RPAREN, LBRACE])
    ensures var b := s + 5 + |ParamsYield(ds)|;
            && b < |c| && Span(c, s + 1, b) == DclItems(ds[0], s + 3) + DclItems(ds[1], LastParamAt(ds, s + 3))
            && b < |w| && w[b - 1] == LBRACE && Wanted(c, b - 1, LBRACE, {Elem(4, s, 7)})
  {
    hide *;
    var y0, y1 := DclYield(ds[0]), DclYield(ds[1]);
    WainYield(ds, s + 3);
    TraceLength(w, c);
    var m, h := s + 3 + |y0|, s + 3 + |ParamsYield(ds)|;
    ReadsHeader(w, s, WAIN, ParamsYield(ds));
    ReadsSum(w, s + 3, y0, COMMA, y1);
    WainWants(s);
    Advances(4, s);
    HeaderOpens(w, c, s);
    TokenOpens(w, c, s + 2, Elem(4, s, 1), LPAREN);
    WainParam(w, c, s + 3, Elem(4, s, 2), ds[0], COMMA);
    WainParam(w, c, m + 1, Elem(4, s, 4), ds[1], RPAREN);
    TokenOpens(w, c, h + 1, Elem(4, s, 6), LBRACE);
    SpanSplit(c, s + 3, m + 1, h + 1);
    HeaderSpan(c, s, h, DclItems(ds[0], s + 3) + DclItems(ds[1], m + 1));
  }

  lemma WainYield(ds: seq<Dcl>, s: nat)
    requires |ds| == 2
    ensures ParamsYield(ds) == DclYield(ds[0]) + [COMMA] + DclYield(ds[1]) &&
            LastParamAt(ds, s) == s + |DclYield(ds[0])| + 1
  {
    assert ParamsYield(ds[..1]) == DclYield(ds[0]);
  }

  // ----- one procedure -----

  /** Everything but the closing brace. */
  function OpenYield(p: Procedure): Form {
    [INT, if p.name == "wain" then WAIN else ID, LPAREN] + ParamsYield(p.params) + [RPAREN, LBRACE] + InsideYield(p)
  }

  lemma ProcedureCloses(p: Procedure)
    ensures ProcedureYield(p) == OpenYield(p) + [RBRACE]
  {
    hide ParamsYield, DclsYield, BodyYield, ExprYield;
  }

  function InnerItems(p: Procedure, s: nat): seq<Elem> {
    HeaderItems(p, s + 3) +
      (DclsItems(p.dcls, DclsAt(p, s)) + BodyItems(p.stmts, BodyStart(p, s)) + ExprItems(p.ret, ReturnAt(p, s), []))
  }

  lemma ItemsOfProcedure(p: Procedure, s: nat)
    ensures ProcedureItems(p, s) == InnerItems(p, s) + [Done(ProcedureRule(p.name), s)]
  {
    hide HeaderItems, DclsItems, BodyItems, ExprItems, Done, DclsAt, BodyStart, ReturnAt;
  }

  function HeadYield(p: Procedure): Form {
    [INT, if p.name == "wain" then WAIN else ID, LPAREN] + ParamsYield(p.params) + [RPAREN, LBRACE]
  }

  lemma HeaderLists(w: Form, c: Chart, p: Procedure, s: nat)
    requires Traced(w, c) && AtProcedure(c, s) && Reads(w, s, HeadYield(p)) && (p.name == "wain" ==> |p.params| == 2)
    ensures var b, r := DclsAt(p, s), ProcedureRule(p.name);
            && b == s + |HeadYield(p)| && b < |c| && Span(c, s + 1, b) == HeaderItems(p, s + 3)
            && b < |w| && w[b - 1] == LBRACE && Wanted(c, b - 1, LBRACE, {Elem(r, s, DclsDot(r) - 1)})
  {
    hide RuleAt, Traced, Span, Reads, ParamsYield, ParamsItems, DclItems, AtProcedure, LastParamAt, Wanted;
    if p.name == "wain" {
      WainHeader(w, c, p.params, s);
    } else {
      ProcedureHeader(w, c, p.params, s);
    }
  }

  lemma OpenProcedureLists(w: Form, c: Chart, tokens: seq<Token>, p: Procedure, s: nat)
    requires Traced(w, c) && AtProcedure(c, s) && Reads(w, s, OpenYield(p)) && (p.name == "wain" ==> |p.params| == 2)
    requires BodySpelled(tokens, BodyStart(p, s), p.stmts)
    ensures var n, r := s + |OpenYield(p)|, ProcedureRule(p.name);
            n + 1 < |c| && Span(c, s + 1, n + 1) == InnerItems(p, s) &&
              Wanted(c, n, RBRACE, {Elem(r, s, DclsDot(r) + 5)})
  {
    hide RuleAt, Traced, Span, Reads, InsideYield, HeaderItems, DclsItems, BodyItems, ExprItems, DclsYield, BodyYield,
         ExprYield, BodySpelled, AtProcedure, Wanted, DclsAt, HeadYield;
    var b, r := DclsAt(p, s), ProcedureRule(p.name);
    assert OpenYield(p) == HeadYield(p) + InsideYield(p) by { OpensWithHead(p); }
    hide OpenYield;
    ReadsBoth(w, s, HeadYield(p), InsideYield(p));
    HeaderLists(w, c, p, s);
    InsideLists(w, c, tokens, p, b, r, s);
    SpanSplit(c, s + 1, b, b + |InsideYield(p)| + 1);
  }

  lemma OpensWithHead(p: Procedure)
    ensures OpenYield(p) == HeadYield(p) + InsideYield(p)
  {
    hide InsideYield, ParamsYield;
  }

  // ----- between procedures -----

  const PROGRAM_SYMBOLS: set<Symbol> := {PROCEDURES, PROCEDURE, MAIN}

  lemma ProgramItemWants(r: nat, m: nat)
    requires r <= 4
    ensures forall t :: Wants(Elem(r, m, 0), t) <==>
                          t == if r == 0 then PROCEDURES else if r == 1 then PROCEDURE else if r == 2 then MAIN else INT
    ensures !IsDone(Elem(r, m, 0))
  {
    hide RuleAt;
    ProgramRules();
    ProcedureRuleIs();
    MainRuleIs();
  }

  /** Where nothing else wants anything, an item that asks for procedures lets one start. */
  lemma ProcedurePlace(w: Form, c: Chart, m: nat, q: Elem)
    requires Traced(w, c) && m < |w| && q in c[m] && Wants(q, PROCEDURES)
    requires forall e, t :: e in c[m] && Wants(e, t) ==> e == q || (e.dot == 0 && e.start == m && 1 <= e.rule <= 4)
    ensures AtProcedure(c, m)
  {
    hide RuleAt, IsTraced;
    PredictedRules(w, c, m, q, PROCEDURES);
    ProgramItemWants(1, m);
    ProgramItemWants(2, m);
    PredictedRules(w, c, m, Elem(1, m, 0), PROCEDURE);
    PredictedRules(w, c, m, Elem(2, m, 0), MAIN);
    ProgramItemWants(3, m);
    ProgramItemWants(4, m);
  }

  lemma ProgramSides(e: Elem)
    requires e.rule < 49 && Left(e) in PROGRAM_SYMBOLS
    ensures 1 <= e.rule <= 4
  {
    hide RuleAt;
    LeftSides(e.rule);
  }

  lemma ProcedureDemand(c: Chart, s: nat) returns (x: Demand)
    requires AtProcedure(c, s)
    ensures Demands(c, s, PROCEDURE, x) && Chain(x) == [] && (forall e :: Pends(x, e) <==> e == Elem(1, s, 1)) &&
            Wants(Elem(1, s, 1), PROCEDURES)
  {
    hide RuleAt;
    ProgramRules();
    x := Open({Elem(1, s, 0)});
    assert Retreat(Elem(1, s, 1)) == Elem(1, s, 0);
  }

  /** The brace before m closes a procedure, and another one may start. */
  lemma ProcedureEnds(w: Form, c: Chart, m: nat, s: nat)
    requires Traced(w, c) && s < m < |w| && w[m - 1] == RBRACE && Wanted(c, m - 1, RBRACE, {Elem(3, s, 11)}) &&
             AtProcedure(c, s)
    ensures Span(c, m, m + 1) == [Done(3, s)] && AtProcedure(c, m)
  {
    hide RuleAt, IsTraced, Demands, Chain, Pends, Span, IsTidy;
    ProcedureRuleIs();
    ProcedureSymbolsAreTidy();
    var q := Elem(3, s, 11);
    var x := ProcedureDemand(c, s);
    assert {q} + {} == {q};
    Scan(w, c, m - 1, {q} + {});
    CloseList(w, c, m, q, x, {}, PROGRAM_SYMBOLS);
    forall e, t | e in c[m] && Wants(e, t)
      ensures e == Elem(1, s, 1) || (e.dot == 0 && e.start == m && 1 <= e.rule <= 4)
    {
      if !Pends(x, e) {
        ProgramSides(e);
      }
    }
    ProcedurePlace(w, c, m, Elem(1, s, 1));
  }

  /** The first list. */
  lemma ProgramOpens(w: Form, c: Chart)
    requires Traced(w, c)
    ensures |c| > 1 && Span(c, 0, 1) == [] && AtProcedure(c, 0)
  {
    hide RuleAt, IsTraced, Span, IsTidy;
    ProcedureSymbolsAreTidy();
    var q := Elem(0, 0, 0);
    var xs := iset{q};
    ProgramItemWants(0, 0);
    NothingScanned(w, c);
    forall e | Fits(e, 0, xs, PROGRAM_SYMBOLS)
      ensures !IsDone(e) && forall t :: Wants(e, t) ==> IsTerminal(t) || t in PROGRAM_SYMBOLS
      ensures e == q || (e.dot == 0 && e.start == 0 && 1 <= e.rule <= 4)
    {
      if e != q {
        ProgramSides(e);
        ProgramItemWants(e.rule, 0);
      }
    }
    AllFit(w, c, 0, xs, PROGRAM_SYMBOLS);
    NoneCompleted(c[0]);
    SpanOfOne(c, 0);
    ProcedurePlace(w, c, 0, q);
  }

  lemma NothingScanned(w: Form, c: Chart)
    requires Traced(w, c)
    ensures ScansInto(c, 0, iset{Elem(0, 0, 0)})
  {
    hide RuleAt, IsAnswered;
    forall e | e in c[0]
      ensures forall t :: Passed(e, t) ==> !IsTerminal(t)
    {
      var j := InList(c, 0, e);
      assert IsTraced(w, c, 0, j);
    }
  }

  /** The last list holds the item of wain and nothing else. */
  lemma LastList(w: Form, c: Chart, s: nat)
    requires Traced(w, c) && w[|w| - 1] == RBRACE && Wanted(c, |w| - 1, RBRACE, {Elem(4, s, 13)})
    ensures Kept(CFG(), c[|w|], []) == [Done(4, s)]
  {
    hide RuleAt, IsTraced, CFG;
    MainRuleIs();
    var n, q, d := |w|, Elem(4, s, 13), Done(4, s);
    Scan(w, c, n - 1, {q});
    assert q in {q} && Advance(q) == d && d in c[n];
    forall e | e in c[n]
      ensures e == d
    {
      assert Passed(e, w[n - 1]);
      assert Advance(Retreat(e)) == e;
    }
    SameItems(d, ID);
    KeptIsCompleted(c[n], []);
    LinedUp(c[n], [d]);
  }

  // ----- the whole program -----

  /** The chart after the first k procedures. */
  ghost predicate ProceduresListed(c: Chart, ps: seq<Procedure>, k: nat)
    requires k <= |ps|
  {
    var q := |ProgramYield(ps[..k])|;
    q + 1 < |c| && Span(c, 0, q + 1) == ProgramItems(ps[..k]) && AtProcedure(c, q)
  }

  lemma ReadsToTheEnd(w: Form, s: nat, y: Form, t: Symbol)
    requires s <= |w| && w[s..] == y + [t]
    ensures Reads(w, s, y) && w[|w| - 1] == t && s + |y| == |w| - 1
  {
    var n := |w| - 1;
    assert |w[s..]| == |y| + 1;
    assert w[s..n] == w[s..][..n - s] == y;
    assert w[n] == w[s..][n - s];
  }

  lemma LastDot(p: Procedure)
    ensures p.name == "wain" ==> ProcedureRule(p.name) == 4 && DclsDot(4) + 5 == 13
    ensures p.name != "wain" ==> ProcedureRule(p.name) == 3 && DclsDot(3) + 5 == 11
  {
  }

  lemma ProcedureIsListed(w: Form, c: Chart, tokens: seq<Token>, p: Procedure, s: nat)
    requires Traced(w, c) && AtProcedure(c, s) && Reads(w, s, ProcedureYield(p)) && p.name != "wain"
    requires BodySpelled(tokens, BodyStart(p, s), p.stmts)
    ensures var m := s + |ProcedureYield(p)|;
            m + 1 < |c| && Span(c, s + 1, m + 1) == ProcedureItems(p, s) && AtProcedure(c, m)
  {
    hide *;
    TraceLength(w, c);
    LastDot(p);
    var m := s + |OpenYield(p)|;
    ProcedureCloses(p);
    ReadsBoth(w, s, OpenYield(p), [RBRACE]);
    ReadsOne(w, m, [RBRACE], 0);
    ReadsEnd(w, m, [RBRACE]);
    OpenProcedureLists(w, c, tokens, p, s);
    ProcedureEnds(w, c, m + 1, s);
    ItemsOfProcedure(p, s);
    SpanSplit(c, s + 1, m + 1, m + 2);
  }

  lemma WainIsListed(w: Form, c: Chart, tokens: seq<Token>, p: Procedure, s: nat)
    requires Traced(w, c) && AtProcedure(c, s) && p.name == "wain" && |p.params| == 2
    requires s + |ProcedureYield(p)| == |w| && w[s..] == ProcedureYield(p)
    requires BodySpelled(tokens, BodyStart(p, s), p.stmts)
    ensures Span(c, s + 1, |w|) + Kept(CFG(), c[|w|], []) == ProcedureItems(p, s)
  {
    hide *;
    TraceLength(w, c);
    LastDot(p);
    ProcedureCloses(p);
    ReadsToTheEnd(w, s, OpenYield(p), RBRACE);
    OpenProcedureLists(w, c, tokens, p, s);
    LastList(w, c, s);
    ItemsOfProcedure(p, s);
  }

  /** The text of a program from procedure k on. */
  lemma {:induction false} YieldFrom(ps: seq<Procedure>, k: nat)
    requires k <= |ps|
    ensures |ProgramYield(ps[..k])| <= |ProgramYield(ps)| &&
            ProgramYield(ps)[..|ProgramYield(ps[..k])|] == ProgramYield(ps[..k])
    ensures k < |ps| ==> ProgramYield(ps[..k + 1]) == ProgramYield(ps[..k]) + ProcedureYield(ps[k])
    decreases |ps| - k
  {
    hide ProcedureYield;
    if k < |ps| {
      YieldFrom(ps, k + 1);
      assert ps[..k + 1][..k] == ps[..k];
    } else {
      assert ps[..k] == ps;
    }
  }

  lemma ProcedureIsNotEmpty(p: Procedure)
    ensures |ProcedureYield(p)| > 0
  {
    ProcedureCloses(p);
  }

  /** Procedure k of several is in the text, and not at its end. */
  lemma ReadsProcedure(w: Form, ps: seq<Procedure>, k: nat)
    requires k + 1 < |ps| && w == ProgramYield(ps)
    ensures var q := |ProgramYield(ps[..k])|; Reads(w, q, ProcedureYield(ps[k]))
    ensures |ProgramYield(ps[..k + 1])| == |ProgramYield(ps[..k])| + |ProcedureYield(ps[k])|
  {
    hide ProcedureYield, ProgramYield;
    var q, y := |ProgramYield(ps[..k])|, ProcedureYield(ps[k]);
    YieldFrom(ps, k);
    YieldFrom(ps, k + 1);
    YieldFrom(ps, k + 2);
    ProcedureIsNotEmpty(ps[k + 1]);
    assert w[q..q + |y|] == w[..q + |y|][q..] == (ProgramYield(ps[..k]) + y)[q..] == y;
  }

  /** Every procedure is in the text up to its closing brace. */
  lemma ReadsOpenProcedure(w: Form, ps: seq<Procedure>, k: nat)
    requires k < |ps| && w == ProgramYield(ps)
    ensures Reads(w, |ProgramYield(ps[..k])|, OpenYield(ps[k]))
  {
    hide ProcedureYield, ProgramYield, OpenYield, Reads;
    var q := |ProgramYield(ps[..k])|;
    ProcedureCloses(ps[k]);
    if k + 1 < |ps| {
      ReadsProcedure(w, ps, k);
      ReadsBoth(w, q, OpenYield(ps[k]), [RBRACE]);
    } else {
      TextOfLast(ps);
      ReadsToTheEnd(w, q, OpenYield(ps[k]), RBRACE);
    }
  }

  lemma SpelledUpTo(tokens: seq<Token>, ps: seq<Procedure>, k: nat)
    requires k < |ps| && ProgramSpelled(tokens, ps)
    ensures ProcedureSpelled(tokens, |ProgramYield(ps[..k])|, ps[k])
    ensures BodySpelled(tokens, BodyStart(ps[k], |ProgramYield(ps[..k])|), ps[k].stmts)
    decreases |ps|
  {
    hide ProcedureYield, ProgramYield, BodySpelled, BodyStart, DclsSpelled, ParamsSpelled, ExprSpelled;
    var front := ps[..|ps| - 1];
    if k < |front| {
      SpelledUpTo(tokens, front, k);
      assert front[..k] == ps[..k] && front[k] == ps[k];
    } else {
      assert ps[..k] == front;
    }
  }

  lemma {:induction false} ProceduresAreListed(w: Form, c: Chart, tokens: seq<Token>, ps: seq<Procedure>, k: nat)
    requires Traced(w, c) && w == ProgramYield(ps) && ProgramSpelled(tokens, ps) && EndsInWain(ps) && k < |ps|
    ensures ProceduresListed(c, ps, k)
    decreases k
  {
    hide RuleAt, Traced, Span, ProcedureYield, ProgramYield, ProcedureItems, ProgramSpelled, BodySpelled, AtProcedure,
         BodyStart, Reads;
    if k == 0 {
      ProgramOpens(w, c);
      assert ps[..0] == [];
      assert ProgramYield([]) == [] && ProgramItems([]) == [] by { NothingAtAll(); }
    } else {
      var front, p, s := ps[..k - 1], ps[k - 1], |ProgramYield(ps[..k - 1])|;
      ProceduresAreListed(w, c, tokens, ps, k - 1);
      ReadsProcedure(w, ps, k - 1);
      SpelledUpTo(tokens, ps, k - 1);
      ProcedureIsListed(w, c, tokens, p, s);
      var m := s + |ProcedureYield(p)|;
      SpanSplit(c, 0, s + 1, m + 1);
      ItemsUpTo(ps, k - 1);
    }
  }

  lemma NothingAtAll()
    ensures ProgramYield([]) == [] && ProgramItems([]) == []
  {
  }

  lemma ItemsUpTo(ps: seq<Procedure>, k: nat)
    requires k < |ps|
    ensures ProgramItems(ps[..k + 1]) == ProgramItems(ps[..k]) + ProcedureItems(ps[k], |ProgramYield(ps[..k])|)
  {
    hide ProcedureItems, ProgramYield;
    assert ps[..k + 1][..k] == ps[..k];
  }

  lemma FinalIsSpan(c: Chart, n: nat)
    requires |c| == n + 1
    ensures Final(CFG(), c, |c|) == Span(c, 0, n) + Kept(CFG(), c[n], [])
  {
    hide CFG, Kept;
    SpanIsKeptBelow(c, n);
  }

  lemma TextOfLast(ps: seq<Procedure>)
    requires ps != []
    ensures var w, q := ProgramYield(ps), |ProgramYield(ps[..|ps| - 1])|;
            q < |w| && w[q..] == ProcedureYield(ps[|ps| - 1]) && q + |ProcedureYield(ps[|ps| - 1])| == |w|
  {
    hide ProcedureYield;
    ProcedureIsNotEmpty(ps[|ps| - 1]);
  }

  lemma TraceIsItems(w: Form, c: Chart, tokens: seq<Token>, ps: seq<Procedure>)
    requires Traced(w, c) && w == ProgramYield(ps) && ProgramSpelled(tokens, ps) && EndsInWain(ps)
    ensures |c| == |w| + 1 && Span(c, 0, |w|) + Kept(CFG(), c[|w|], []) == ProgramItems(ps)
  {
    hide *;
    TraceLength(w, c);
    WainIsLast(ps);
    TextOfLast(ps);
    var k := |ps| - 1;
    var p, s := ps[k], |ProgramYield(ps[..k])|;
    ProceduresAreListed(w, c, tokens, ps, k);
    ListedSoFar(c, ps, k);
    SpelledUpTo(tokens, ps, k);
    WainIsListed(w, c, tokens, p, s);
    SpanEnds(c, s + 1, |w|, ProgramItems(ps[..k]), Kept(CFG(), c[|w|], []), ProcedureItems(p, s));
    ItemsUpTo(ps, k);
    assert ps[..k + 1] == ps;
  }

  lemma WainIsLast(ps: seq<Procedure>)
    requires EndsInWain(ps)
    ensures ps != [] && ps[|ps| - 1].name == "wain" && |ps[|ps| - 1].params| == 2
  {
  }

  lemma ListedSoFar(c: Chart, ps: seq<Procedure>, k: nat)
    requires k <= |ps| && ProceduresListed(c, ps, k)
    ensures var q := |ProgramYield(ps[..k])|;
            q + 1 < |c| && Span(c, 0, q + 1) == ProgramItems(ps[..k]) && AtProcedure(c, q)
  {
    hide Span, ProgramYield, ProgramItems, AtProcedure;
  }

  lemma SpanEnds(c: Chart, m: nat, n: nat, xs: seq<Elem>, last: seq<Elem>, ys: seq<Elem>)
    requires m <= n < |c| && Span(c, 0, m) == xs && Span(c, m, n) + last == ys
    ensures Span(c, 0, n) + last == xs + ys
  {
    hide Span;
    SpanSplit(c, 0, m, n);
    assert xs + Span(c, m, n) + last == xs + (Span(c, m, n) + last);
  }

  /** What the recogniser hands on for the text of a program is exactly the list of the program's items. */
  lemma FinalChartIsItems(c: Chart, tokens: seq<Token>, ps: seq<Procedure>)
    requires ProgramSpelled(tokens, ps) && EndsInWain(ps) && AllTerminals(ProgramYield(ps)) &&
             IsFilled(CFG(), ProgramYield(ps), c)
    ensures Final(CFG(), c, |c|) == ProgramItems(ps)
  {
    hide RuleAt, CFG, Traced, Span, Kept, ProcedureYield, ProgramYield, ProgramItems, ProgramSpelled, IsFilled, Final;
    TextOfLast(ps);
    FilledIsTraced(ProgramYield(ps), c);
    TraceIsItems(ProgramYield(ps), c, tokens, ps);
    FinalIsSpan(c, |ProgramYield(ps)|);
  }
}
