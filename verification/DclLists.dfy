/** The lists of declarations and parameters complete exactly their items. */
module DclLists {
  import opened Symbols
  import opened Grammar
  import opened Earley
  import opened Charts
  import opened Wlp4Grammar
  import opened FinalChart
  import opened Ast
  import opened Yields
  import opened Traces
  import opened Lists
  import opened Openings
  import opened Operands
  import opened ExprLists
  import opened StatementLists
  import opened Items
  import opened Programs

  lemma DclTableRules()
    ensures RuleAt(9) == Rule(TYPE, [INT]) && RuleAt(10) == Rule(TYPE, [INT, STAR]) &&
            RuleAt(14) == Rule(DCL, [TYPE, ID])
  {
  }

  lemma ParamRules()
    ensures RuleAt(5) == Rule(PARAMS, []) && RuleAt(6) == Rule(PARAMS, [PARAMLIST])
    ensures RuleAt(7) == Rule(PARAMLIST, [DCL]) && RuleAt(8) == Rule(PARAMLIST, [DCL, COMMA, PARAMLIST])
  {
  }

  lemma DclsTableRules()
    ensures RuleAt(11) == Rule(DCLS, []) && RuleAt(12) == Rule(DCLS, [DCLS, DCL, BECOMES, NUM, SEMI])
    ensures RuleAt(13) == Rule(DCLS, [DCLS, DCL, BECOMES, NULL, SEMI])
  {
  }

  // ----- one declaration -----

  /** A type may start at p, for a declaration. */
  ghost predicate AtType(c: Chart, p: nat) {
    Wanted(c, p, TYPE, {Elem(14, p, 0)}) && Wanted(c, p, INT, {Elem(9, p, 0), Elem(10, p, 0)})
  }

  /** What waits for a type. */
  lemma TypeDemand(c: Chart, p: nat) returns (x: Demand)
    requires AtType(c, p)
    ensures Demands(c, p, TYPE, x) && Calm(x) && Chain(x) == [] && forall e :: Pends(x, e) <==> e == Elem(14, p, 1)
  {
    hide RuleAt;
    DclTableRules();
    x := Open({Elem(14, p, 0)});
    assert Retreat(Elem(14, p, 1)) == Elem(14, p, 0);
  }

  /** After INT: the short type is complete, and a star may follow. */
  lemma IntLists(w: Form, c: Chart, p: nat)
    requires Traced(w, c) && p + 1 < |w| && AtType(c, p) && w[p] == INT
    ensures Completed(c[p + 1]) == [Done(9, p)] && Wanted(c, p + 1, ID, {Elem(14, p, 1)}) &&
            Wanted(c, p + 1, STAR, {Elem(10, p, 1)})
  {
    hide RuleAt, IsTraced, Demands, Chain, Pends, Calm;
    DclTableRules();
    NoneIsTidy();
    var x := TypeDemand(c, p);
    var q, xs, m := Elem(9, p, 0), {Elem(10, p, 0)}, p + 1;
    assert {q} + xs == {Elem(9, p, 0), Elem(10, p, 0)};
    Scan(w, c, p, {q} + xs);
    CloseList(w, c, m, q, x, xs, {});
    assert Elem(10, p, 0) in xs && Advance(Elem(10, p, 0)) == Elem(10, p, 1);
    assert Elem(10, p, 0) in {q} + xs;
    forall e, t | e in c[m] && Wants(e, t)
      ensures e == Elem(14, p, 1) || e == Elem(10, p, 1)
    {
      assert e in Moved(xs) ==> Advance(Retreat(e)) == e;
    }
  }

  /** After INT and STAR: the long type. */
  lemma StarLists(w: Form, c: Chart, p: nat)
    requires Traced(w, c) && p + 2 < |w| && AtType(c, p) && w[p + 1] == STAR && Wanted(c, p + 1, STAR, {Elem(10, p, 1)})
    ensures Span(c, p + 2, p + 3) == [Done(10, p)] && Elem(10, p, 2) in c[p + 2] &&
            Wanted(c, p + 2, ID, {Elem(14, p, 1)})
  {
    hide RuleAt, IsTraced, Demands, Chain, Pends, Calm, Span;
    DclTableRules();
    NoneIsTidy();
    var x := TypeDemand(c, p);
    var q, m := Elem(10, p, 1), p + 2;
    assert {q} + {} == {q};
    Scan(w, c, p + 1, {q} + {});
    CloseList(w, c, m, q, x, {}, {});
    assert q in {q};
  }

  /** The list of the short type hands it on if and only if no star follows. */
  lemma ShortTypeHanded(c: Chart, p: nat)
    requires p + 2 < |c| && Completed(c[p + 1]) == [Done(9, p)]
    ensures Span(c, p + 1, p + 2) == if Elem(10, p, 2) in c[p + 2] then [] else [Done(9, p)]
  {
    hide RuleAt, CFG;
    DclTableRules();
    var items, next := c[p + 1], c[p + 2];
    CompletedAre(items);
    if Elem(10, p, 2) in next {
      AllSuperseded(items, next);
    } else {
      KeptIsCompleted(items, next);
    }
    assert Span(c, p + 1, p + 1) == [];
  }

  lemma {:induction false} AllSuperseded(items: seq<Elem>, next: seq<Elem>)
    requires forall e :: e in items && IsDone(e) ==> Superseded(e, next)
    ensures Kept(CFG(), items, next) == []
  {
    hide RuleAt, CFG, Superseded;
    if items != [] {
      SameItems(items[|items| - 1], ID);
      assert items[|items| - 1] in items;
      AllSuperseded(items[..|items| - 1], next);
    }
  }

  lemma NameEnds(w: Form, c: Chart, m: nat, p: nat, x: Demand)
    requires Traced(w, c) && p < m < |w| && w[m - 1] == ID && Wanted(c, m - 1, ID, {Elem(14, p, 1)}) &&
             Demands(c, p, DCL, x) && Calm(x)
    ensures Span(c, m, m + 1) == [Done(14, p)] + Chain(x) && Ended(c, m, x, {LPAREN})
  {
    hide RuleAt, IsTraced, Demands, Chain, Pends, Calm, Span, Ended;
    DclTableRules();
    var q := Elem(14, p, 1);
    assert {q} + {} == {q};
    EndOperand(w, c, m, q, x, {});
  }

  lemma IntDclLists(w: Form, c: Chart, p: nat, x: Demand)
    requires Traced(w, c) && Reads(w, p, [INT, ID]) && AtType(c, p) && Demands(c, p, DCL, x) && Calm(x)
    ensures Listed(c, p, 2, [Done(9, p), Done(14, p)], x, {LPAREN})
  {
    hide RuleAt, IsTraced, Demands, Chain, Pends, Calm, Span, Ended;
    ReadsOne(w, p, [INT, ID], 0);
    ReadsOne(w, p, [INT, ID], 1);
    IntLists(w, c, p);
    NameEnds(w, c, p + 2, p, x);
    NoStar(w, c, p);
    ShortTypeHanded(c, p);
    SpanSplit(c, p + 1, p + 2, p + 3);
    assert [Done(9, p)] + ([Done(14, p)] + Chain(x)) == [Done(9, p), Done(14, p)] + Chain(x);
  }

  lemma NoStar(w: Form, c: Chart, p: nat)
    requires Traced(w, c) && p + 1 < |w| && w[p + 1] == ID
    ensures Elem(10, p, 2) !in c[p + 2]
  {
    hide RuleAt, IsTraced;
    DclTableRules();
    if Elem(10, p, 2) in c[p + 2] {
      ScanOrigin(w, c, p + 1, Elem(10, p, 2), STAR);
    }
  }

  lemma PointerDclLists(w: Form, c: Chart, p: nat, x: Demand)
    requires Traced(w, c) && Reads(w, p, [INT, STAR, ID]) && AtType(c, p) && Demands(c, p, DCL, x) && Calm(x)
    ensures Listed(c, p, 3, [Done(10, p), Done(14, p)], x, {LPAREN})
  {
    hide RuleAt, IsTraced, Demands, Chain, Pends, Calm, Span, Ended;
    var y := [INT, STAR, ID];
    ReadsOne(w, p, y, 0);
    ReadsOne(w, p, y, 1);
    ReadsOne(w, p, y, 2);
    IntLists(w, c, p);
    StarLists(w, c, p);
    NameEnds(w, c, p + 3, p, x);
    ShortTypeHanded(c, p);
    SpanSplit(c, p + 1, p + 2, p + 3);
    SpanSplit(c, p + 1, p + 3, p + 4);
    assert [] + [Done(10, p)] + ([Done(14, p)] + Chain(x)) == [Done(10, p), Done(14, p)] + Chain(x);
  }

  lemma DclIsListed(w: Form, c: Chart, d: Dcl, p: nat, x: Demand)
    requires Traced(w, c) && Reads(w, p, DclYield(d)) && AtType(c, p) && Demands(c, p, DCL, x) && Calm(x)
    ensures Listed(c, p, |DclYield(d)|, DclItems(d, p), x, {LPAREN})
  {
    hide RuleAt, Traced, Demands, Calm, Listed, Reads, AtType;
    if d.dclType == IntStar {
      PointerDclLists(w, c, p, x);
    } else {
      IntDclLists(w, c, p, x);
    }
  }

  // ----- places of declarations -----

  /** The first symbol of a rule around declarations. */
  function EarlyFirst(r: nat): Symbol {
    if r == 6 then PARAMLIST else if r <= 8 then DCL else if r <= 10 then INT else if r <= 13 then DCLS
    else if r == 14 then TYPE else STATEMENTS
  }

  predicate IsEarly(r: nat) {
    6 <= r <= 10 || 12 <= r <= 14 || r == 16
  }

  lemma EarlyIsWanted(r: nat, m: nat)
    requires IsEarly(r)
    ensures Wants(Elem(r, m, 0), EarlyFirst(r)) && !IsDone(Elem(r, m, 0))
    ensures forall t :: Wants(Elem(r, m, 0), t) ==> t == EarlyFirst(r)
  {
  }

  lemma EmptyIsDone(r: nat, m: nat)
    requires r == 5 || r == 11 || r == 15
    ensures IsDone(Elem(r, m, 0)) && Elem(r, m, 0) == Done(r, m)
  {
  }

  const PARAM_SYMBOLS: set<Symbol> := {PARAMS, PARAMLIST, DCL, TYPE}

  lemma ParamSymbolsAreTidy(syms: set<Symbol>)
    requires syms == {DCL, TYPE} || syms == {PARAMLIST, DCL, TYPE}
    ensures IsTidy(syms)
  {
    hide RuleAt;
    forall r: nat | r < 49 && RuleAt(r).lhs in syms
      ensures RuleAt(r).rhs != [] && (IsTerminal(RuleAt(r).rhs[0]) || RuleAt(r).rhs[0] in syms)
    {
      LeftSides(r);
      EarlyIsWanted(r, 0);
    }
  }

  lemma TypeIsPlaced(w: Form, c: Chart, m: nat, e: Elem)
    requires Traced(w, c) && m < |w| && e in c[m] && Wants(e, DCL)
    ensures Elem(14, m, 0) in c[m] && Elem(9, m, 0) in c[m] && Elem(10, m, 0) in c[m]
  {
    hide RuleAt, IsTraced, Wants;
    PredictedRules(w, c, m, e, DCL);
    EarlyIsWanted(14, m);
    PredictedRules(w, c, m, Elem(14, m, 0), TYPE);
  }

  /** All but xs is predicted for types, declarations and lists of parameters. */
  ghost predicate DclsStart(c: Chart, m: nat, xs: set<Elem>) {
    && m < |c|
    && (forall e, t :: e in c[m] && Wants(e, t) ==>
                         e in xs || (IsEarly(e.rule) && e.dot == 0 && e.start == m && e.rule <= 14))
    && (forall e, t :: e in xs && Wants(e, t) ==> t != TYPE && t != INT)
  }

  /** Nothing but what is predicted here wants a type or INT. */
  ghost predicate TypesAlone(c: Chart, m: nat) {
    m < |c| && forall e, t :: e in c[m] && Wants(e, t) && (t == TYPE || t == INT) ==>
      IsEarly(e.rule) && e == Elem(e.rule, m, 0)
  }

  lemma TypePlace(w: Form, c: Chart, m: nat, e: Elem)
    requires Traced(w, c) && m < |w| && TypesAlone(c, m) && e in c[m] && Wants(e, DCL)
    ensures AtType(c, m)
  {
    hide RuleAt, IsTraced;
    TypeIsPlaced(w, c, m, e);
    EarlyIsWanted(14, m);
    EarlyIsWanted(9, m);
    EarlyIsWanted(10, m);
    forall p, t | p in c[m] && Wants(p, t) && (t == TYPE || t == INT)
      ensures t == EarlyFirst(p.rule) && p == Elem(p.rule, m, 0) && IsEarly(p.rule)
    {
      EarlyIsWanted(p.rule, m);
    }
  }

  /** A token before m asks for a declaration. */
  lemma DclOpens(w: Form, c: Chart, m: nat, q: Elem)
    requires Traced(w, c) && 0 < m < |w| && Wanted(c, m - 1, w[m - 1], {q}) && Wants(Advance(q), DCL)
    ensures IsSilent(c, m) && AtType(c, m) && Wanted(c, m, DCL, {Advance(q)})
  {
    hide RuleAt, IsTraced, IsSilent, IsTidy;
    ParamSymbolsAreTidy({DCL, TYPE});
    Scan(w, c, m - 1, {q});
    assert q in {q};
    OpenList(w, c, m, {q}, {DCL, TYPE});
    forall e, t | e in c[m] && Wants(e, t)
      ensures e == Advance(q) ||
              (IsEarly(e.rule) && e == Elem(e.rule, m, 0) && e.rule <= 14 && t == EarlyFirst(e.rule) && t != DCL)
    {
      if e in Moved({q}) {
        assert Advance(Retreat(e)) == e;
      } else {
        LeftSides(e.rule);
        EarlyIsWanted(e.rule, m);
      }
    }
    TypePlace(w, c, m, Advance(q));
  }

  /** A list of parameters may start at p, asked for by y. */
  ghost predicate AtParam(c: Chart, p: nat, y: Elem) {
    Wanted(c, p, PARAMLIST, {y}) && Wanted(c, p, DCL, {Elem(7, p, 0), Elem(8, p, 0)}) && AtType(c, p)
  }

  lemma ParamPlace(w: Form, c: Chart, m: nat, xs: set<Elem>, y: Elem)
    requires Traced(w, c) && m < |w| && DclsStart(c, m, xs) && y in c[m] && Wants(y, PARAMLIST)
    requires forall e :: e in xs && Wants(e, PARAMLIST) ==> e == y
    requires forall e :: e in xs ==> !Wants(e, DCL)
    requires y !in xs ==> y == Elem(6, m, 0)
    requires Elem(6, m, 0) in c[m] ==> y == Elem(6, m, 0)
    ensures AtParam(c, m, y)
  {
    hide RuleAt, IsTraced;
    PredictedRules(w, c, m, y, PARAMLIST);
    EarlyIsWanted(7, m);
    EarlyIsWanted(8, m);
    forall e, t | e in c[m] && Wants(e, t) && e !in xs
      ensures IsEarly(e.rule) && e == Elem(e.rule, m, 0) && t == EarlyFirst(e.rule) && e.rule <= 14
    {
      EarlyIsWanted(e.rule, m);
    }
    TypePlace(w, c, m, Elem(7, m, 0));
  }

  /** After the comma between parameters. */
  lemma ParamOpens(w: Form, c: Chart, m: nat, q: Elem)
    requires Traced(w, c) && 0 < m < |w| && Wanted(c, m - 1, w[m - 1], {q}) && Wants(Advance(q), PARAMLIST)
    ensures IsSilent(c, m) && AtParam(c, m, Advance(q))
  {
    hide RuleAt, IsTraced, IsSilent, IsTidy;
    ParamSymbolsAreTidy({PARAMLIST, DCL, TYPE});
    Scan(w, c, m - 1, {q});
    assert q in {q};
    OpenList(w, c, m, {q}, {PARAMLIST, DCL, TYPE});
    forall e | e in c[m]
      ensures e == Advance(q) || ((7 <= e.rule <= 10 || e.rule == 14) && e == Elem(e.rule, m, 0))
    {
      if e in Moved({q}) {
        assert Advance(Retreat(e)) == e;
      } else {
        LeftSides(e.rule);
      }
    }
    ParamPlace(w, c, m, {Advance(q)}, Advance(q));
  }

  // ----- parameters -----

  lemma FitsInParams(m: nat, z: Elem, e: Elem)
    requires Wants(z, PARAMS) && Wants(Advance(z), RPAREN) && Fits(e, m, iset{z, Advance(z)}, PARAM_SYMBOLS)
    ensures IsDone(e) <==> e == Done(5, m)
    ensures forall t :: Wants(e, t) ==> IsTerminal(t) || t in PARAM_SYMBOLS
    ensures Wants(e, PARAMS) ==> e == z
    ensures Wants(e, RPAREN) ==> e == Advance(z)
    ensures e == z || e == Advance(z) || e == Elem(5, m, 0) ||
            (IsEarly(e.rule) && e.rule <= 14 && e == Elem(e.rule, m, 0))
  {
    hide RuleAt;
    EmptyIsDone(5, m);
    if e != z && e != Advance(z) {
      LeftSides(e.rule);
      if e.rule != 5 {
        EarlyIsWanted(e.rule, m);
      }
    }
  }

  lemma ParamsListFits(w: Form, c: Chart, m: nat, q: Elem)
    requires Traced(w, c) && 0 < m < |w| && Wanted(c, m - 1, w[m - 1], {q}) && Wants(Advance(q), PARAMS) &&
             Wants(Advance(Advance(q)), RPAREN)
    ensures forall e :: e in c[m] ==> Fits(e, m, iset{Advance(q), Advance(Advance(q))}, PARAM_SYMBOLS)
  {
    hide RuleAt, IsTraced, Fits, Wants, IsDone;
    var z := Advance(q);
    var xs := iset{z, Advance(z)};
    Scan(w, c, m - 1, {q});
    forall e, s | e in c[m] && Passed(e, s) && IsTerminal(s)
      ensures e in xs
    {
      assert Advance(Retreat(e)) == e;
    }
    forall e, s | Fits(e, m, xs, PARAM_SYMBOLS) && Wants(e, s)
      ensures IsTerminal(s) || s in PARAM_SYMBOLS
    {
      FitsInParams(m, z, e);
    }
    forall d, p | d in c[m] && Fits(d, m, xs, PARAM_SYMBOLS) && IsDone(d) && Crosses(c, m, xs, PARAM_SYMBOLS, d, p)
      ensures Advance(p) in xs
    {
      FitsInParams(m, z, d);
      ParamRules();
      FitsInParams(m, z, p);
    }
    AllFit(w, c, m, xs, PARAM_SYMBOLS);
  }

  /** The first list of the parameters, which z asked for. */
  ghost predicate ParamsBegin(c: Chart, s: nat, z: Elem) {
    && s + 1 < |c|
    && Span(c, s, s + 1) == [Done(5, s)]
    && Wanted(c, s, PARAMS, {z})
    && Wanted(c, s, RPAREN, {Advance(z)})
    && AtParam(c, s, Elem(6, s, 0))
    && Wants(z, PARAMS)
    && Wants(Advance(z), RPAREN)
  }

  lemma ParamsArePlaced(w: Form, c: Chart, m: nat, z: Elem)
    requires Traced(w, c) && m < |w| && z in c[m] && Advance(z) in c[m] && Wants(z, PARAMS) && Wants(Advance(z), RPAREN)
    requires forall e :: e in c[m] ==> Fits(e, m, iset{z, Advance(z)}, PARAM_SYMBOLS)
    ensures Wanted(c, m, PARAMS, {z}) && Wanted(c, m, RPAREN, {Advance(z)}) && AtParam(c, m, Elem(6, m, 0))
  {
    hide RuleAt, IsTraced, Fits, IsDone, AtParam, Passed;
    PredictedRules(w, c, m, z, PARAMS);
    EarlyIsWanted(6, m);
    forall e | e in c[m]
      ensures Wants(e, PARAMS) ==> e == z
      ensures Wants(e, RPAREN) ==> e == Advance(z)
      ensures forall t :: Wants(e, t) ==>
                e in {z, Advance(z)} || (IsEarly(e.rule) && e.dot == 0 && e.start == m && e.rule <= 14)
    {
      FitsInParams(m, z, e);
      EmptyIsDone(5, m);
    }
    ParamPlace(w, c, m, {z, Advance(z)}, Elem(6, m, 0));
  }

  lemma NoParamsComplete(w: Form, c: Chart, m: nat, z: Elem)
    requires Traced(w, c) && m < |w| && Elem(5, m, 0) in c[m] && Wants(z, PARAMS) && Wants(Advance(z), RPAREN)
    requires forall e :: e in c[m] ==> Fits(e, m, iset{z, Advance(z)}, PARAM_SYMBOLS)
    ensures Span(c, m, m + 1) == [Done(5, m)]
  {
    hide RuleAt, IsTraced, Fits, IsDone, Passed, Wants;
    EmptyIsDone(5, m);
    forall e | e in c[m]
      ensures IsDone(e) <==> e == Done(5, m)
    {
      FitsInParams(m, z, e);
    }
    LinedUp(c[m], [Done(5, m)]);
    SpanOfOne(c, m);
  }

  lemma ParamsOpen(w: Form, c: Chart, m: nat, q: Elem)
    requires Traced(w, c) && 0 < m < |w| && Wanted(c, m - 1, w[m - 1], {q}) && Wants(Advance(q), PARAMS) &&
             Wants(Advance(Advance(q)), RPAREN)
    ensures ParamsBegin(c, m, Advance(q))
  {
    hide RuleAt, IsTraced, Fits, IsDone, AtParam, Passed, Span;
    var z := Advance(q);
    ParamsListFits(w, c, m, q);
    Scan(w, c, m - 1, {q});
    assert q in {q} && z in c[m] && IsEmptiable(PARAMS);
    Skips(w, c, m, z, PARAMS);
    PredictedRules(w, c, m, z, PARAMS);
    hide Wants, Wanted;
    ParamsArePlaced(w, c, m, z);
    NoParamsComplete(w, c, m, z);
  }

  /** What waits for a parameter, where x waits for a list of them. */
  lemma ParamDemand(c: Chart, p: nat, y: Elem, x: Demand, z: Elem) returns (u: Demand)
    requires AtParam(c, p, y) && Demands(c, p, PARAMLIST, x) && Wants(Advance(z), RPAREN) &&
             forall e :: Pends(x, e) <==> e == Advance(z)
    ensures Demands(c, p, DCL, u) && Calm(u) && Chain(u) == [Done(7, p)] + Chain(x)
    ensures OnlyPending(u, COMMA, Elem(8, p, 1)) && OnlyPending(u, RPAREN, Advance(z))
  {
    hide RuleAt, AtType;
    ParamRules();
    u := Closing(Elem(7, p, 0), {Elem(8, p, 0)}, x);
    forall e
      ensures Pends(u, e) <==> e == Elem(8, p, 1) || e == Advance(z)
    {
      assert e.dot > 0 ==> Advance(Retreat(e)) == e;
      assert Retreat(Elem(8, p, 1)) == Elem(8, p, 0);
    }
  }

  /** After parameters: their items, and what may come next. */
  ghost predicate ParamsListed(c: Chart, s: nat, ds: seq<Dcl>, z: Elem, x: Demand)
    requires ds != []
  {
    AreListed(c, s, ds, z, x, LastParamAt(ds, s), s + |ParamsYield(ds)|)
  }

  /** The last of them starts at `at`, and they end at m. */
  ghost predicate AreListed(c: Chart, s: nat, ds: seq<Dcl>, z: Elem, x: Demand, at: nat, m: nat)
    requires ds != []
  {
    && s <= m && m + 1 < |c|
    && Span(c, s, m + 1) == ParamsItems(ds, s)
    && Wanted(c, m, COMMA, {Elem(8, at, 1)})
    && Wanted(c, m, RPAREN, {Advance(z)})
    && Demands(c, at, PARAMLIST, x)
    && Chain(x) == ListEnds(ds[..|ds| - 1], s) + [Done(6, s)]
    && forall e :: Pends(x, e) <==> e == Advance(z)
  }

  /** The last parameter, at p, where x waits for the list it starts. */
  lemma LastParam(w: Form, c: Chart, d: Dcl, p: nat, y: Elem, x: Demand, z: Elem)
    requires Traced(w, c) && Reads(w, p, DclYield(d)) && AtParam(c, p, y)
    requires Demands(c, p, PARAMLIST, x) && Wants(Advance(z), RPAREN) && forall e :: Pends(x, e) <==> e == Advance(z)
    ensures var m := p + |DclYield(d)|;
            && m + 1 < |c| && Span(c, p + 1, m + 1) == DclItems(d, p) + ([Done(7, p)] + Chain(x))
            && Wanted(c, m, COMMA, {Elem(8, p, 1)}) && Wanted(c, m, RPAREN, {Advance(z)})
  {
    hide RuleAt, Traced, Demands, Pends, Chain, Calm, OnlyPending, DclItems, DclYield, AtType, Ended, Reads, Wants;
    var m := p + |DclYield(d)|;
    var u := ParamDemand(c, p, y, x, z);
    DclIsListed(w, c, d, p, u);
    EndedWants(c, m, u, {LPAREN}, COMMA, Elem(8, p, 1));
    EndedWants(c, m, u, {LPAREN}, RPAREN, Advance(z));
  }

  lemma FirstParamDemand(c: Chart, s: nat, z: Elem) returns (x: Demand)
    requires ParamsBegin(c, s, z)
    ensures Demands(c, s, PARAMLIST, x) && Chain(x) == [Done(6, s)] && forall e :: Pends(x, e) <==> e == Advance(z)
  {
    hide RuleAt, AtType, Span;
    ParamRules();
    var o := Open({z});
    x := Closing(Elem(6, s, 0), {}, o);
    assert Demands(c, s, PARAMS, o);
    assert Chain(x) == [Elem(6, s, 1)] + [];
    forall e
      ensures Pends(x, e) <==> e == Advance(z)
    {
      assert e.dot > 0 ==> Advance(Retreat(e)) == e;
      assert Retreat(Advance(z)) == z;
    }
  }

  lemma {:induction false} ParamsAreListed(w: Form, c: Chart, ds: seq<Dcl>, s: nat, z: Elem) returns (x: Demand)
    requires Traced(w, c) && ds != [] && Reads(w, s, ParamsYield(ds)) && ParamsBegin(c, s, z)
    ensures ParamsListed(c, s, ds, z, x)
    decreases |ds|
  {
    hide RuleAt, Traced, Demands, Pends, Chain, DclItems, DclYield, AtParam, Reads, Wants, Wanted, Span;
    var d := ds[|ds| - 1];
    if |ds| == 1 {
      x := FirstParamDemand(c, s, z);
      LastParam(w, c, d, s, Elem(6, s, 0), x, z);
      OneParam(c, ds, s, z, x);
    } else {
      var front := ds[..|ds| - 1];
      var m, at := s + |ParamsYield(front)|, LastParamAt(front, s);
      ReadsSum(w, s, ParamsYield(front), COMMA, DclYield(d));
      var x' := ParamsAreListed(w, c, front, s, z);
      MoreParamsOpen(w, c, m, at, s, x');
      x := NextParamDemand(c, m + 1, at, x');
      LastParam(w, c, d, m + 1, Elem(8, at, 2), x, z);
      MoreParams(c, ds, s, z, x', x);
    }
  }

  lemma OneParam(c: Chart, ds: seq<Dcl>, s: nat, z: Elem, x: Demand)
    requires |ds| == 1 && ParamsBegin(c, s, z)
    requires Demands(c, s, PARAMLIST, x) && Chain(x) == [Done(6, s)] && forall e :: Pends(x, e) <==> e == Advance(z)
    requires var m := s + |DclYield(ds[0])|;
             && m + 1 < |c| && Span(c, s + 1, m + 1) == DclItems(ds[0], s) + ([Done(7, s)] + Chain(x))
             && Wanted(c, m, COMMA, {Elem(8, s, 1)}) && Wanted(c, m, RPAREN, {Advance(z)})
    ensures ParamsListed(c, s, ds, z, x)
  {
    hide RuleAt, Demands, Pends, Chain, DclItems, DclYield, AtParam, Wants, Wanted, Span, Done, ParamsItems, ListEnds,
         ParamsYield, LastParamAt;
    ItemsOfOne(ds, s);
    OneParamSpan(c, ds, s, s + |DclYield(ds[0])|);
    assert [] + [Done(6, s)] == [Done(6, s)];
  }

  lemma OneParamSpan(c: Chart, ds: seq<Dcl>, s: nat, m: nat)
    requires |ds| == 1 && s <= m && m + 1 < |c| && Span(c, s, s + 1) == [Done(5, s)]
    requires Span(c, s + 1, m + 1) == DclItems(ds[0], s) + ([Done(7, s)] + [Done(6, s)])
    ensures Span(c, s, m + 1) == ParamsItems(ds, s)
  {
    hide RuleAt, DclItems, Span, Done, ParamsItems, ListEnds;
    SpanSplit(c, s, s + 1, m + 1);
    ItemsOfOne(ds, s);
  }

  lemma ItemsOfOne(ds: seq<Dcl>, s: nat)
    requires |ds| == 1
    ensures ParamsItems(ds, s) == [Done(5, s)] + (DclItems(ds[0], s) + ([Done(7, s)] + [Done(6, s)]))
    ensures ListEnds(ds[..0], s) == [] && LastParamAt(ds, s) == s && ParamsYield(ds) == DclYield(ds[0])
  {
    hide DclItems, DclYield, Done;
    assert ds[..0] == [];
    assert ParamsItems([], s) == [Done(5, s)] && ListEnds([], s) == [];
    assert ParamsItems(ds, s) == [Done(5, s)] + DclItems(ds[0], s) + [Done(7, s)] + [] + [Done(6, s)];
  }

  /** After a comma between parameters. */
  lemma MoreParamsOpen(w: Form, c: Chart, m: nat, at: nat, s: nat, x: Demand)
    requires Traced(w, c) && at <= m && m + 1 < |w| && w[m] == COMMA && Wanted(c, m, COMMA, {Elem(8, at, 1)})
    ensures IsSilent(c, m + 1) && AtParam(c, m + 1, Elem(8, at, 2)) && Advance(Elem(8, at, 1)) == Elem(8, at, 2)
  {
    hide RuleAt, Traced, IsSilent, AtParam;
    ParamRules();
    ParamOpens(w, c, m + 1, Elem(8, at, 1));
  }

  lemma NextParamDemand(c: Chart, p: nat, at: nat, x: Demand) returns (y: Demand)
    requires AtParam(c, p, Elem(8, at, 2)) && at <= p && Demands(c, at, PARAMLIST, x)
    ensures Demands(c, p, PARAMLIST, y) && Chain(y) == [Done(8, at)] + Chain(x) &&
            forall e :: Pends(y, e) <==> Pends(x, e)
  {
    hide RuleAt, Demands, Pends, Chain, AtType;
    ParamRules();
    OneDemand(c, p, PARAMLIST, Elem(8, at, 2), x);
    y := Closing(Elem(8, at, 2), {}, x);
  }

  lemma MoreParams(c: Chart, ds: seq<Dcl>, s: nat, z: Elem, x': Demand, x: Demand)
    requires |ds| > 1 && ParamsListed(c, s, ds[..|ds| - 1], z, x')
    requires var m := s + |ParamsYield(ds[..|ds| - 1])|;
             && IsSilent(c, m + 1) && Demands(c, m + 1, PARAMLIST, x)
             && Chain(x) == [Done(8, LastParamAt(ds[..|ds| - 1], s))] + Chain(x') &&
                (forall e :: Pends(x, e) <==> Pends(x', e))
             && var n := m + 1 + |DclYield(ds[|ds| - 1])|;
                && n + 1 < |c| && Span(c, m + 2, n + 1) == DclItems(ds[|ds| - 1], m + 1) + ([Done(7, m + 1)] + Chain(x))
                && Wanted(c, n, COMMA, {Elem(8, m + 1, 1)}) && Wanted(c, n, RPAREN, {Advance(z)})
    ensures ParamsListed(c, s, ds, z, x)
  {
    hide RuleAt, Demands, Pends, Chain, DclItems, DclYield, Wants, Wanted, Span, Done, ParamsItems, ListEnds,
         ParamsYield, LastParamAt, IsSilent;
    MoreParamsItems(ds, s);
    MoreParamsSpan(c, ds, s, Chain(x'), Chain(x));
  }

  lemma MoreParamsSpan(c: Chart, ds: seq<Dcl>, s: nat, k': seq<Elem>, k: seq<Elem>)
    requires |ds| > 1
    requires var front, d := ds[..|ds| - 1], ds[|ds| - 1];
             var m := s + |ParamsYield(front)|; var n := m + 1 + |DclYield(d)|;
             && n + 1 < |c| && Span(c, s, m + 1) == ParamsItems(front, s) && IsSilent(c, m + 1)
             && Span(c, m + 2, n + 1) == DclItems(d, m + 1) + ([Done(7, m + 1)] + k)
             && k' == ListEnds(front[..|front| - 1], s) + [Done(6, s)] && k == [Done(8, LastParamAt(front, s))] + k'
    ensures Span(c, s, s + |ParamsYield(ds)| + 1) == ParamsItems(ds, s) &&
            k == ListEnds(ds[..|ds| - 1], s) + [Done(6, s)]
  {
    hide RuleAt, DclItems, DclYield, Span, Done, ParamsItems, ListEnds, ParamsYield, LastParamAt, IsSilent;
    var front, d := ds[..|ds| - 1], ds[|ds| - 1];
    var m := s + |ParamsYield(front)|;
    var n := m + 1 + |DclYield(d)|;
    MoreParamsItems(ds, s);
    SpanAcross(c, s, m + 1, n + 1, ParamsItems(front, s), DclItems(d, m + 1) + ([Done(7, m + 1)] + k));
    Joined(ParamsItems(front, s), DclItems(d, m + 1), [Done(7, m + 1)], [Done(8, LastParamAt(front, s))],
           ListEnds(front[..|front| - 1], s), [Done(6, s)]);
  }

  lemma Joined(a: seq<Elem>, b: seq<Elem>, c: seq<Elem>, d: seq<Elem>, e: seq<Elem>, f: seq<Elem>)
    ensures a + (b + (c + (d + (e + f)))) == a + b + c + (d + e) + f && d + (e + f) == d + e + f
  {
    assert c + (d + (e + f)) == c + (d + e) + f;
    assert b + (c + (d + e) + f) == b + c + (d + e) + f;
  }

  /** Two stretches with a silent list between them. */
  lemma SpanAcross(c: Chart, s: nat, m: nat, n: nat, xs: seq<Elem>, ys: seq<Elem>)
    requires s <= m && m + 1 <= n < |c| && Span(c, s, m) == xs && IsSilent(c, m) && Span(c, m + 1, n) == ys
    ensures Span(c, s, n) == xs + ys
  {
    hide Kept;
    SpanSplit(c, s, m, m + 1);
    SpanSplit(c, s, m + 1, n);
  }

  lemma MoreParamsItems(ds: seq<Dcl>, s: nat)
    requires |ds| > 1
    ensures var front, d := ds[..|ds| - 1], ds[|ds| - 1];
            var m := s + |ParamsYield(front)|;
            && LastParamAt(ds, s) == m + 1
            && |ParamsYield(ds)| == |ParamsYield(front)| + 1 + |DclYield(d)|
            && ListEnds(front, s) == [Done(8, LastParamAt(front, s))] + ListEnds(front[..|front| - 1], s)
            && ParamsItems(ds, s) ==
               ParamsItems(front, s) + DclItems(d, m + 1) + [Done(7, m + 1)] + ListEnds(front, s) + [Done(6, s)]
  {
    hide RuleAt, DclItems, DclYield;
  }

  // ----- declarations of a procedure -----

  /** Item z asks for declarations, then statements, then RETURN. */
  predicate AsksForDcls(z: Elem) {
    Wants(z, DCLS) && Wants(Advance(z), STATEMENTS) && Wants(Advance(Advance(z)), RETURN)
  }

  /** The item that completes the declarations from b up to p. */
  predicate CompletesDcls(d: Elem, b: nat, p: nat) {
    if p == b then d == Done(11, b) else b < p && (d == Done(12, b) || d == Done(13, b))
  }

  /** What a list between declarations holds, besides what is predicted. */
  ghost function DclsKernel(p: nat, b: nat, z: Elem, d: Elem): iset<Elem> {
    iset{d, Advance(z), Advance(Advance(z)), Elem(12, b, 1), Elem(13, b, 1), Elem(16, p, 1)} +
    if p == b then iset{z} else iset{}
  }

  function DclsSymbols(p: nat, b: nat): set<Symbol> {
    if p == b then {DCLS, STATEMENTS, STATEMENT, LVALUE, DCL, TYPE} else {STATEMENTS, STATEMENT, LVALUE, DCL, TYPE}
  }

  /** What may be wanted, by what, between declarations. */
  ghost predicate WantsBetween(e: Elem, t: Symbol, p: nat, b: nat, z: Elem) {
    if t == DCLS then p == b && e in {z, Elem(12, b, 0), Elem(13, b, 0)}
    else if t == STATEMENTS then e == Advance(z) || e == Elem(16, p, 0)
    else if t == RETURN then e == Advance(Advance(z))
    else if t == DCL then e == Elem(12, b, 1) || e == Elem(13, b, 1)
    else if t == STATEMENT then e == Elem(16, p, 1)
    else if t == TYPE then e == Elem(14, p, 0)
    else if t == INT then e == Elem(9, p, 0) || e == Elem(10, p, 0)
    else IsStatementStart(e, p)
  }

  lemma FitsInDcls(p: nat, b: nat, z: Elem, d: Elem, e: Elem)
    requires AsksForDcls(z) && CompletesDcls(d, b, p) && Fits(e, p, DclsKernel(p, b, z, d), DclsSymbols(p, b))
    ensures IsDone(e) <==> e == d || e == Done(15, p)
    ensures forall t :: Wants(e, t) ==> WantsBetween(e, t, p, b, z) && (IsTerminal(t) || t in DclsSymbols(p, b))
  {
    hide RuleAt;
    EmptyIsDone(11, p);
    EmptyIsDone(15, p);
    DclsTableRules();
    BodyRules();
    if e in DclsKernel(p, b, z, d) {
      assert IsDone(d);
    } else {
      LeftSides(e.rule);
      if e.rule >= 17 {
        FirstIsWanted(e.rule, p);
      } else if e.rule != 11 && e.rule != 15 {
        EarlyIsWanted(e.rule, p);
      }
    }
  }

  /** Of the list between declarations: what was there when it opened. */
  ghost predicate DclsComeIn(c: Chart, p: nat, b: nat, z: Elem, d: Elem) {
    && b <= p < |c|
    && ScansInto(c, p, DclsKernel(p, b, z, d))
    && (if p == b then z in c[p] else d in c[p] && Wanted(c, b, DCLS, {z, Elem(12, b, 0), Elem(13, b, 0)}))
  }

  lemma DclsListFits(w: Form, c: Chart, p: nat, b: nat, z: Elem, d: Elem)
    requires Traced(w, c) && 0 < b <= p < |w| && AsksForDcls(z) && CompletesDcls(d, b, p) && DclsComeIn(c, p, b, z, d)
    ensures forall e :: e in c[p] ==> Fits(e, p, DclsKernel(p, b, z, d), DclsSymbols(p, b))
  {
    hide RuleAt, IsTraced, Fits, Wants, Passed, DclsSymbols, AsksForDcls;
    var xs, syms := DclsKernel(p, b, z, d), DclsSymbols(p, b);
    forall e, t | Fits(e, p, xs, syms) && Wants(e, t)
      ensures IsTerminal(t) || t in syms
    {
      FitsInDcls(p, b, z, d, e);
    }
    DclsTableRules();
    BodyRules();
    forall f, q | f in c[p] && Fits(f, p, xs, syms) && IsDone(f) && Crosses(c, p, xs, syms, f, q)
      ensures Advance(q) in xs
    {
      FitsInDcls(p, b, z, d, f);
      if f.start == p {
        FitsInDcls(p, b, z, d, q);
        assert WantsBetween(q, Left(f), p, b, z);
      } else {
        assert q in {z, Elem(12, b, 0), Elem(13, b, 0)};
      }
    }
    AllFit(w, c, p, xs, syms);
  }

  /** What opens or completes declarations brings in all the rest. */
  lemma DclsBringIn(w: Form, c: Chart, p: nat, b: nat, z: Elem, d: Elem)
    requires Traced(w, c) && 0 < b <= p < |w| && AsksForDcls(z) && CompletesDcls(d, b, p) && DclsComeIn(c, p, b, z, d)
    ensures d in c[p] && Advance(z) in c[p] && Elem(12, b, 1) in c[p] && Elem(13, b, 1) in c[p]
    ensures p == b ==> Elem(12, b, 0) in c[p] && Elem(13, b, 0) in c[p]
  {
    hide RuleAt, IsTraced, Passed, AsksForDcls, Wants;
    assert Wants(z, DCLS) by { AsksInTurn(z); }
    DclsTableRules();
    EarlyIsWanted(12, b);
    EarlyIsWanted(13, b);
    EmptyIsDone(11, b);
    if p == b {
      PredictedRules(w, c, p, z, DCLS);
      assert IsEmptiable(DCLS);
      Skips(w, c, p, z, DCLS);
      Skips(w, c, p, Elem(12, b, 0), DCLS);
      Skips(w, c, p, Elem(13, b, 0), DCLS);
    } else {
      AnsweredIn(w, c, p, d);
      assert z in {z, Elem(12, b, 0), Elem(13, b, 0)};
      assert Advance(Elem(12, b, 0)) == Elem(12, b, 1) && Advance(Elem(13, b, 0)) == Elem(13, b, 1);
    }
  }

  lemma AsksInTurn(z: Elem)
    requires AsksForDcls(z)
    ensures Wants(z, DCLS) && Wants(Advance(z), STATEMENTS) && Wants(Advance(Advance(z)), RETURN)
  {
    hide RuleAt;
  }

  /** Among the declarations from b on, where a body may start as well. */
  ghost predicate InDcls(c: Chart, p: nat, b: nat, z: Elem) {
    && Wanted(c, p, DCL, {Elem(12, b, 1), Elem(13, b, 1)})
    && AtType(c, p)
    && BodyIsWanted(c, p, Advance(z), RETURN)
    && InBody(c, p, p, Advance(z), RETURN)
    && Wanted(c, b, DCLS, {z, Elem(12, b, 0), Elem(13, b, 0)})
  }

  lemma DclsPlaces(w: Form, c: Chart, p: nat, b: nat, z: Elem, d: Elem)
    requires Traced(w, c) && 0 < b <= p < |w| && AsksForDcls(z) && CompletesDcls(d, b, p) && DclsComeIn(c, p, b, z, d)
    ensures InDcls(c, p, b, z)
  {
    hide RuleAt, IsTraced, Passed, AsksForDcls, Fits, InBody, IsDone, ScansInto, IsStatementStart;
    AsksInTurn(z);
    DclsTableRules();
    DclsListFits(w, c, p, b, z, d);
    DclsBringIn(w, c, p, b, z, d);
    var z1 := Advance(z);
    PredictedRules(w, c, p, z1, STATEMENTS);
    StatementsItem(p);
    assert IsEmptiable(STATEMENTS);
    Skips(w, c, p, z1, STATEMENTS);
    Skips(w, c, p, Elem(16, p, 0), STATEMENTS);
    forall e, t | e in c[p] && Wants(e, t)
      ensures WantsBetween(e, t, p, b, z)
    {
      FitsInDcls(p, b, z, d, e);
    }
    TypePlace(w, c, p, Elem(12, b, 1));
    BodyBetween(w, c, p, b, z);
  }

  lemma BodyBetween(w: Form, c: Chart, p: nat, b: nat, z: Elem)
    requires Traced(w, c) && p < |w| && AsksForDcls(z) && b <= p
    requires Advance(Advance(z)) in c[p] && Elem(16, p, 1) in c[p]
    requires forall e, t :: e in c[p] && Wants(e, t) ==> WantsBetween(e, t, p, b, z)
    ensures InBody(c, p, p, Advance(z), RETURN)
  {
    hide RuleAt, IsTraced, IsStatementStart;
    AsksInTurn(z);
    StatementsItem(p);
    var xs := {z, Advance(z), Advance(Advance(z)), Elem(12, b, 0), Elem(13, b, 0), Elem(12, b, 1), Elem(13, b, 1),
               Elem(16, p, 0), Elem(16, p, 1), Elem(14, p, 0), Elem(9, p, 0), Elem(10, p, 0)};
    StatementsArePredicted(w, c, p, Elem(16, p, 1));
    BetweenWants(b, p, z, xs);
    BodyPlace(c, p, xs, p, Advance(z), RETURN);
  }

  lemma BetweenWants(b: nat, p: nat, z: Elem, xs: set<Elem>)
    requires AsksForDcls(z)
    requires xs == {z, Advance(z), Advance(Advance(z)), Elem(12, b, 0), Elem(13, b, 0), Elem(12, b, 1), Elem(13, b, 1),
                    Elem(16, p, 0), Elem(16, p, 1), Elem(14, p, 0), Elem(9, p, 0), Elem(10, p, 0)}
    ensures forall e, t :: e in xs && Wants(e, t) ==> t in {STATEMENT, STATEMENTS, DCL, DCLS, TYPE, INT, RETURN, RBRACE}
    ensures forall e :: e in xs && Wants(e, STATEMENT) ==> e == Elem(16, p, 1)
    ensures forall e :: e in xs && Wants(e, RETURN) ==> e == Advance(Advance(z))
  {
    hide RuleAt;
    DclsTableRules();
    DclTableRules();
    BodyRules();
  }

  // ----- two completions in one list -----

  /** Whatever asks for statements, or is an empty list of them, comes after what completes the declarations. */
  lemma {:induction false} DclsComeFirst(w: Form, c: Chart, p: nat, b: nat, z: Elem, d: Elem, j: nat)
    requires Traced(w, c) && 0 < b <= p < |w| && AsksForDcls(z) && CompletesDcls(d, b, p)
    requires forall e :: e in c[p] ==> Fits(e, p, DclsKernel(p, b, z, d), DclsSymbols(p, b))
    requires j < |c[p]| && (c[p][j] == Elem(15, p, 0) || Wants(c[p][j], STATEMENTS))
    ensures d in c[p][..j]
    decreases j
  {
    hide RuleAt, Fits, IsAnswered, AsksForDcls, Wants, IsDone;
    var e := c[p][j];
    assert IsTraced(w, c, p, j) && e in c[p];
    FitsInDcls(p, b, z, d, e);
    BodyRules();
    if e == Advance(z) {
      AsksInTurn(z);
      WantedThenPassed(z, DCLS);
      var f :| f in c[p][..j] && Moves(c, c[p][..j], p, f, DCLS, e);
      assert f in c[p];
      FitsInDcls(p, b, z, d, f);
    } else {
      var q :| q in c[p][..j] && Wants(q, Left(e));
      var i :| 0 <= i < j && c[p][i] == q;
      DclsComeFirst(w, c, p, b, z, d, i);
      assert c[p][..i] <= c[p][..j];
    }
  }

  lemma DclsCompleted(w: Form, c: Chart, p: nat, b: nat, z: Elem, d: Elem)
    requires Traced(w, c) && 0 < b <= p < |w| && AsksForDcls(z) && CompletesDcls(d, b, p) && DclsComeIn(c, p, b, z, d)
    ensures Span(c, p, p + 1) == [d, Done(15, p)]
  {
    hide RuleAt, IsTraced, Passed, AsksForDcls, Fits, IsDone, ScansInto, Wants;
    DclsListFits(w, c, p, b, z, d);
    DclsBringIn(w, c, p, b, z, d);
    AsksInTurn(z);
    PredictedRules(w, c, p, Advance(z), STATEMENTS);
    EmptyIsDone(15, p);
    EmptyIsDone(11, p);
    var line := [d, Done(15, p)];
    forall e | e in c[p]
      ensures IsDone(e) <==> e in line
    {
      FitsInDcls(p, b, z, d, e);
    }
    forall j, i | 0 <= j < |c[p]| && 0 < i < |line| && c[p][j] == line[i]
      ensures line[i - 1] in c[p][..j]
    {
      DclsComeFirst(w, c, p, b, z, d, j);
    }
    LinedUp(c[p], line);
    SpanOfOne(c, p);
  }

  /** The token before b opens the declarations. */
  lemma DclsOpen(w: Form, c: Chart, b: nat, q: Elem)
    requires Traced(w, c) && 0 < b < |w| && Wanted(c, b - 1, w[b - 1], {q}) && AsksForDcls(Advance(q))
    ensures InDcls(c, b, b, Advance(q)) && Span(c, b, b + 1) == [Done(11, b), Done(15, b)]
  {
    hide RuleAt, IsTraced, AsksForDcls, InDcls, Wants, Span;
    var z := Advance(q);
    Scan(w, c, b - 1, {q});
    assert q in {q};
    forall e, t | e in c[b] && Passed(e, t) && IsTerminal(t)
      ensures e in DclsKernel(b, b, z, Done(11, b))
    {
      assert Advance(Retreat(e)) == e;
    }
    DclsPlaces(w, c, b, b, z, Done(11, b));
    DclsCompleted(w, c, b, b, z, Done(11, b));
  }

  lemma BecomesIsWanted(c: Chart, m: nat, p: nat, b: nat, x: Demand)
    requires b <= p && x == Open({Elem(12, b, 1), Elem(13, b, 1)}) && Ended(c, m, x, {LPAREN})
    ensures Wanted(c, m, BECOMES, {Elem(12, b, 2), Elem(13, b, 2)})
  {
    hide RuleAt;
    DclsTableRules();
    assert Retreat(Elem(12, b, 2)) == Elem(12, b, 1) && Retreat(Elem(13, b, 2)) == Elem(13, b, 1);
    forall e | Pends(x, e)
      ensures e == Elem(12, b, 2) || e == Elem(13, b, 2)
    {
      assert Advance(Retreat(e)) == e;
    }
  }

  lemma DclsDemand(c: Chart, p: nat, b: nat) returns (x: Demand)
    requires Wanted(c, p, DCL, {Elem(12, b, 1), Elem(13, b, 1)})
    ensures x == Open({Elem(12, b, 1), Elem(13, b, 1)}) && Demands(c, p, DCL, x) && Calm(x) && Chain(x) == []
  {
    hide RuleAt;
    DclsTableRules();
    x := Open({Elem(12, b, 1), Elem(13, b, 1)});
    forall e | Pends(x, e)
      ensures e == Elem(12, b, 2) || e == Elem(13, b, 2)
    {
      assert Advance(Retreat(e)) == e;
    }
  }

  /** After BECOMES a number or NULL follows. */
  lemma ValueOpens(w: Form, c: Chart, m: nat, b: nat)
    requires Traced(w, c) && 0 < m < |w| && w[m - 1] == BECOMES &&
             Wanted(c, m - 1, BECOMES, {Elem(12, b, 2), Elem(13, b, 2)})
    ensures IsSilent(c, m) && Wanted(c, m, NUM, {Elem(12, b, 3)}) && Wanted(c, m, NULL, {Elem(13, b, 3)})
  {
    hide RuleAt, IsTraced, IsSilent, IsTidy;
    DclsTableRules();
    NoneIsTidy();
    var xs := {Elem(12, b, 2), Elem(13, b, 2)};
    Scan(w, c, m - 1, xs);
    OpenList(w, c, m, xs, {});
    assert Elem(12, b, 2) in xs && Elem(13, b, 2) in xs;
    assert Advance(Elem(12, b, 2)) == Elem(12, b, 3) && Advance(Elem(13, b, 2)) == Elem(13, b, 3);
    forall e | e in c[m]
      ensures e == Elem(12, b, 3) || e == Elem(13, b, 3)
    {
      assert e in Moved(xs) ==> Advance(Retreat(e)) == e;
    }
  }

  /** From the name of a declaration to the semicolon. */
  lemma DclEnds(w: Form, c: Chart, m: nat, b: nat, z: Elem, d: Dcl)
    requires Traced(w, c) && 0 < b < m && m + 3 < |w| && w[m] == BECOMES && w[m + 1] == InitialToken(d) &&
             w[m + 2] == SEMI
    requires Wanted(c, m, BECOMES, {Elem(12, b, 2), Elem(13, b, 2)}) && AsksForDcls(z) &&
             Wanted(c, b, DCLS, {z, Elem(12, b, 0), Elem(13, b, 0)})
    ensures InDcls(c, m + 3, b, z) && Span(c, m + 1, m + 4) == [Done(DclsRule(d), b), Done(15, m + 3)]
  {
    hide RuleAt, IsTraced, AsksForDcls, InDcls, IsSilent, Span;
    DclsTableRules();
    var r, p := DclsRule(d), m + 3;
    ValueOpens(w, c, m + 1, b);
    TokenOpens(w, c, m + 2, Elem(r, b, 3), SEMI);
    var q, e0 := Elem(r, b, 4), Done(r, b);
    Scan(w, c, m + 2, {q});
    assert q in {q} && Advance(q) == e0;
    hide Wants;
    forall e, t | e in c[p] && Passed(e, t) && IsTerminal(t)
      ensures e in DclsKernel(p, b, z, e0)
    {
      assert Advance(Retreat(e)) == e;
    }
    DclsPlaces(w, c, p, b, z, e0);
    DclsCompleted(w, c, p, b, z, e0);
    TwoSilent(c, m + 1);
    SpanSplit(c, m + 1, p, p + 1);
  }

  lemma TwoSilent(c: Chart, m: nat)
    requires IsSilent(c, m) && IsSilent(c, m + 1)
    ensures Span(c, m, m + 2) == []
  {
    SpanSplit(c, m, m + 1, m + 2);
  }

  lemma DclStep(w: Form, c: Chart, p: nat, b: nat, z: Elem, d: Dcl)
    requires Traced(w, c) && 0 < b <= p && InDcls(c, p, b, z) && AsksForDcls(z) &&
             Reads(w, p, DclYield(d) + [BECOMES, InitialToken(d), SEMI])
    ensures var n := p + |DclYield(d)| + 3;
            n + 1 < |c| && InDcls(c, n, b, z) &&
              Span(c, p + 1, n + 1) == DclItems(d, p) + [Done(DclsRule(d), b), Done(15, n)]
  {
    hide RuleAt, IsTraced, AsksForDcls, AtType, InBody, BodyIsWanted, Span, Reads, DclYield, DclItems, Demands, Calm,
         Chain, Ended;
    var m, end := p + |DclYield(d)|, [BECOMES, InitialToken(d), SEMI];
    ReadsBoth(w, p, DclYield(d), end);
    ReadsOne(w, m, end, 0);
    ReadsOne(w, m, end, 1);
    ReadsOne(w, m, end, 2);
    assert m + 3 < |w| && |DclYield(d)| > 0 by { ReadsEnd(w, m, end); DclIsNotEmpty(d); }
    var x := DclsDemand(c, p, b);
    DclIsListed(w, c, d, p, x);
    BecomesIsWanted(c, m, p, b, x);
    DclEnds(w, c, m, b, z, d);
    SpanSplit(c, p + 1, m + 1, m + 4);
  }

  lemma ReadsEnd(w: Form, s: nat, y: Form)
    requires Reads(w, s, y)
    ensures s + |y| < |w|
  {
  }

  lemma DclIsNotEmpty(d: Dcl)
    ensures |DclYield(d)| > 0
  {
  }

  lemma {:induction false} DclsAreListed(w: Form, c: Chart, ds: seq<Dcl>, b: nat, z: Elem)
    requires Traced(w, c) && 0 < b && InDcls(c, b, b, z) && AsksForDcls(z) && Reads(w, b, DclsYield(ds))
    requires b + 1 < |c| && Span(c, b, b + 1) == [Done(11, b), Done(15, b)]
    ensures var p := b + |DclsYield(ds)|;
            p + 1 < |c| && InDcls(c, p, b, z) && Span(c, b, p + 1) == DclsItems(ds, b) + [Done(15, p)]
    decreases |ds|
  {
    hide RuleAt, Traced, AsksForDcls, InDcls, Span, Reads, DclYield, DclItems, Done;
    if ds == [] {
      assert DclsYield(ds) == [] && DclsItems(ds, b) == [Done(11, b)];
    } else {
      var front, d := ds[..|ds| - 1], ds[|ds| - 1];
      var at, end := b + |DclsYield(front)|, DclYield(d) + [BECOMES, InitialToken(d), SEMI];
      assert DclsYield(ds) == DclsYield(front) + end;
      ReadsBoth(w, b, DclsYield(front), end);
      DclsAreListed(w, c, front, b, z);
      DclStep(w, c, at, b, z, d);
      var p := at + |DclYield(d)| + 3;
      SpanSplit(c, b, at + 1, p + 1);
      assert DclsItems(ds, b) == DclsItems(front, b) + [Done(15, at)] + DclItems(d, at) + [Done(DclsRule(d), b)];
      hide DclsItems;
      assert DclsItems(front, b) + [Done(15, at)] + (DclItems(d, at) + [Done(DclsRule(d), b), Done(15, p)]) ==
             DclsItems(ds, b) + [Done(15, p)];
    }
  }
}
