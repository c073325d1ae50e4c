/** The first pass collects the names of a program with their types and numbers of parameters. */
module ReadNames {
  import opened Options
  import opened Symbols
  import opened Tokens
  import opened Earley
  import opened Wlp4Grammar
  import opened Ast
  import opened Types
  import opened Yields
  import opened Items
  import opened Procedures
  import opened Reading
  import opened Checking
  import opened ReadBack
  import opened ReadStatements
  import opened Passes
  import opened Programs
  import opened ReadDeclarations

  // ----- items of bodies are none of the parser's business in the first pass -----

  /** Items of rules from lo on. */
  predicate AllFrom(xs: seq<Elem>, lo: nat) {
    forall j :: 0 <= j < |xs| ==> lo <= xs[j].rule < 49
  }

  lemma {:induction false} ExprItemsFrom(e: Expr, s: nat, k: seq<Elem>)
    requires AllFrom(k, 15)
    ensures AllFrom(ExprItems(e, s, k), 15)
    decreases e
  {
    hide TermItems, ExprYield, ExprRule, RuleAt;
    match e
    case JustTerm(term) => TermItemsFrom(term, s, [Done(28, s)] + k);
    case _ =>
      ExprItemsFrom(e.left, s, k);
      TermItemsFrom(e.term, s + |ExprYield(e.left)| + 1, [Done(ExprRule(e), s)] + k);
  }

  lemma {:induction false} TermItemsFrom(t: Term, s: nat, k: seq<Elem>)
    requires AllFrom(k, 15)
    ensures AllFrom(TermItems(t, s, k), 15)
    decreases t
  {
    hide FactorItems, TermYield, TermRule, RuleAt;
    match t
    case JustFactor(factor) => FactorItemsFrom(factor, s, [Done(31, s)] + k);
    case _ =>
      TermItemsFrom(t.left, s, k);
      FactorItemsFrom(t.factor, s + |TermYield(t.left)| + 1, [Done(TermRule(t), s)] + k);
  }

  lemma {:induction false} FactorItemsFrom(f: Factor, s: nat, k: seq<Elem>)
    requires AllFrom(k, 15)
    ensures AllFrom(FactorItems(f, s, k), 15)
    decreases f
  {
    hide ExprItems, LvalueItems, ArgsItems, RuleAt;
    match f
    case Paren(e) => ExprItemsFrom(e, s + 1, []);
    case NewArray(e) => ExprItemsFrom(e, s + 3, []);
    case AddressOf(l) => LvalueItemsFrom(l, s + 1, [Done(39, s)] + k);
    case Deref(g) => FactorItemsFrom(g, s + 1, [Done(40, s)] + k);
    case Call(_, args) =>
      if args.Args? {
        ArgsItemsFrom(args, s + 2, []);
      }
    case _ =>
  }

  lemma {:induction false} ArgsItemsFrom(args: Arglist, s: nat, k: seq<Elem>)
    requires args.Args? && AllFrom(k, 15)
    ensures AllFrom(ArgsItems(args, s, k), 15)
    decreases args
  {
    hide ExprItems, ExprYield, RuleAt;
    ExprItemsFrom(args.expr, s, [Done(44, s)] + k);
    if args.rest.Args? {
      ArgsItemsFrom(args.rest, s + |ExprYield(args.expr)| + 1, [Done(45, s)] + k);
    }
  }

  lemma {:induction false} LvalueItemsFrom(l: Lvalue, s: nat, k: seq<Elem>)
    requires AllFrom(k, 15)
    ensures AllFrom(LvalueItems(l, s, k), 15)
    decreases l
  {
    match l
    case Var(_) =>
    case Target(pointer) => FactorItemsFrom(pointer, s + 1, [Done(47, s)] + k);
    case Enclosed(inner) => LvalueItemsFrom(inner, s + 1, []);
  }

  lemma TestItemsFrom(t: Test, s: nat)
    ensures AllFrom(TestItems(t, s), 15)
  {
    ExprItemsFrom(t.left, s, []);
    ExprItemsFrom(t.right, s + |ExprYield(t.left)| + 1, [Done(TestRule(t.op), s)]);
  }

  lemma {:induction false} StatementItemsFrom(st: Statement, s: nat)
    ensures AllFrom(StatementItems(st, s), 15)
    decreases st, 0
  {
    hide ExprItems, LvalueItems, TestItems, BodyItems, BodyYield, TestYield, LvalueYield, RuleAt;
    match st
    case Assign(l, e) =>
      LvalueItemsFrom(l, s, []);
      ExprItemsFrom(e, s + |LvalueYield(l)| + 1, []);
    case If(t, onTrue, onFalse) =>
      var s1 := s + |TestYield(t)| + 4;
      TestItemsFrom(t, s + 2);
      BodyItemsFrom(onTrue, s1);
      BodyItemsFrom(onFalse, s1 + |BodyYield(onTrue)| + 3);
    case While(t, body) =>
      TestItemsFrom(t, s + 2);
      BodyItemsFrom(body, s + |TestYield(t)| + 4);
    case Println(e) => ExprItemsFrom(e, s + 2, []);
    case Delete(e) => ExprItemsFrom(e, s + 3, []);
  }

  lemma {:induction false} BodyItemsFrom(stmts: seq<Statement>, s: nat)
    ensures AllFrom(BodyItems(stmts, s), 15)
    decreases stmts, 1
  {
    hide StatementItems, BodyYield, RuleAt;
    if stmts != [] {
      var front := stmts[..|stmts| - 1];
      BodyItemsFrom(front, s);
      StatementItemsFrom(stmts[|stmts| - 1], s + |BodyYield(front)|);
    }
  }

  // ----- the first pass -----

  lemma BodyRules(r: nat)
    requires 15 <= r < 49
    ensures RuleAt(r).lhs !in {PROCEDURE, MAIN, DCLS, DCL, PARAMS}
  {
  }

  lemma {:induction false} FirstPassSkips(chart: seq<Elem>, tokens: seq<Token>, i: int, xs: seq<Elem>, noise: seq<Elem>,
                                          name: string, t: Tables)
    requires ShowsIn(chart, i, xs + noise) && AllFrom(noise, 15)
    ensures ShowsIn(chart, |xs| - 1, xs) &&
            FirstPass(chart, tokens, i, name, t) == FirstPass(chart, tokens, |xs| - 1, name, t)
    decreases |noise|
  {
    hide RuleAt, CollectDcls, CollectParams, ReadWainParams, AddName;
    if noise == [] {
      assert xs + noise == xs;
    } else {
      var n := |noise| - 1;
      assert chart[..i + 1][..i] == chart[..i] == xs + noise[..n];
      assert chart[i] == chart[..i + 1][i] == noise[n];
      BodyRules(chart[i].rule);
      FirstPassSkips(chart, tokens, i - 1, xs, noise[..n], name, t);
    }
  }

  lemma HeaderRules()
    ensures RuleAt(3).lhs == PROCEDURE && RuleAt(4).lhs == MAIN
    ensures RuleAt(11).lhs == DCLS && RuleAt(12).lhs == DCLS && RuleAt(13).lhs == DCLS
    ensures RuleAt(5).lhs == PARAMS && RuleAt(6).lhs == PARAMS && RuleAt(14).lhs == DCL
  {
  }

  lemma FirstPassNames(chart: seq<Elem>, tokens: seq<Token>, i: int, name: string, t: Tables, next: string)
    requires 0 <= i && IsAt(chart, i) && 3 <= chart[i].rule <= 4 && Spells(tokens, chart[i].start + 1, next) &&
             next !in t.arity
    ensures FirstPass(chart, tokens, i, name, t) == FirstPass(chart, tokens, i - 1, next, AddName(t, next).value)
  {
    HeaderRules();
    hide RuleAt, CollectDcls, CollectParams, ReadWainParams;
  }

  lemma FirstPassDcls(chart: seq<Elem>, tokens: seq<Token>, i: int, name: string, t: Tables, t': Tables, j: int)
    requires 0 <= i && IsAt(chart, i) && 11 <= chart[i].rule <= 13
    requires CollectDcls(chart, tokens, i, t, name, None) == Ok((t', None, j))
    ensures FirstPass(chart, tokens, i, name, t) == FirstPass(chart, tokens, j, name, t')
  {
    HeaderRules();
    hide RuleAt, CollectDcls, CollectParams, ReadWainParams;
  }

  lemma FirstPassParams(chart: seq<Elem>, tokens: seq<Token>, i: int, name: string, t: Tables, t': Tables, j: int)
    requires 0 <= i && IsAt(chart, i) && 5 <= chart[i].rule <= 6
    requires CollectParams(chart, tokens, i, t, name, None) == Ok((t', None, j))
    ensures FirstPass(chart, tokens, i, name, t) == FirstPass(chart, tokens, j, name, t')
  {
    HeaderRules();
    hide RuleAt, CollectDcls, CollectParams, ReadWainParams;
  }

  lemma FirstPassWain(chart: seq<Elem>, tokens: seq<Token>, i: int, t: Tables, d1: Dcl, d2: Dcl, j: int)
    requires 0 <= i && IsAt(chart, i) && chart[i].rule == 14 && ReadWainParams(chart, tokens, i) == Ok((d1, d2, j))
    ensures FirstPass(chart, tokens, i, "wain", t) ==
            FirstPass(chart, tokens, j, "wain", AddAll(t, "wain", [d2, d1], false))
  {
    HeaderRules();
    hide RuleAt, CollectDcls, CollectParams, ReadWainParams;
    AddFirst(t, "wain", d2, [d1], false);
    AddFirst(AddDcl(t, "wain", d2), "wain", d1, [], false);
    assert [d2] + [d1] == [d2, d1] && [d1] + [] == [d1];
  }

  lemma WainParamsReadBack(chart: seq<Elem>, tokens: seq<Token>, i: int, xs: seq<Elem>, ds: seq<Dcl>, s: nat)
    requires |ds| == 2 && ParamsSpelled(tokens, s, ds) && HaveTypes(ds) && HaveNoValues(ds) && ds[1].dclType == Int
    requires ShowsIn(chart, i, xs + DclItems(ds[0], s) + DclItems(ds[1], LastParamAt(ds, s)))
    ensures ShowsIn(chart, |xs| - 1, xs) && IsAt(chart, i) &&
            ReadWainParams(chart, tokens, i) == Ok((ds[0], ds[1], |xs| - 1))
  {
    hide RuleAt, ReadDcl, LastParamAt, Find;
    var front := ds[..1];
    assert front[0] == ds[0] && |front| == 1;
    assert ParamsSpelled(tokens, s, front) && LastParamAt(front, s) == s by { OneParamAt(front, s); }
    DclReadBack(chart, tokens, i, xs + DclItems(ds[0], s), ds[1], LastParamAt(ds, s), false);
    DclReadBack(chart, tokens, |xs + DclItems(ds[0], s)| - 1, xs, ds[0], s, false);
  }

  lemma OneParamAt(ds: seq<Dcl>, s: nat)
    requires |ds| == 1
    ensures LastParamAt(ds, s) == s
  {
  }

  // ----- the tables -----

  function Extend(env: TypeEnv, ds: seq<Dcl>): TypeEnv
    decreases |ds|
  {
    if ds == [] then env else Extend(env[ds[0].id := ds[0].dclType], ds[1..])
  }

  /** What adding declarations of one procedure changes. */
  lemma {:induction false} AddAllAdds(t: Tables, name: string, ds: seq<Dcl>, counted: bool)
    ensures var r := AddAll(t, name, ds, counted);
            && r.names == t.names
            && (forall x :: x != name ==> EnvAt(r, x) == EnvAt(t, x))
            && r.types.Keys <= t.types.Keys + {name}
            && EnvAt(r, name) == Extend(EnvAt(t, name), ds)
            && r.arity == if counted &&
               ds != [] then t.arity[name := |ds| + if name in t.arity then t.arity[name] else 0] else t.arity
    decreases |ds|
  {
    if ds != [] {
      AddAllAdds(AddOne(t, name, ds[0], counted), name, ds[1..], counted);
    }
  }

  lemma {:induction false} ExtendJoin(env: TypeEnv, xs: seq<Dcl>, ys: seq<Dcl>)
    ensures Extend(Extend(env, xs), ys) == Extend(env, xs + ys)
    decreases |xs|
  {
    if xs == [] {
      assert xs + ys == ys;
    } else {
      ExtendJoin(env[xs[0].id := xs[0].dclType], xs[1..], ys);
      assert (xs + ys)[1..] == xs[1..] + ys;
    }
  }

  /** A name that is not declared again keeps its type wherever it comes first. */
  lemma {:induction false} ExtendLater(env: TypeEnv, d: Dcl, ds: seq<Dcl>)
    requires forall i :: 0 <= i < |ds| ==> ds[i].id != d.id
    ensures Extend(env[d.id := d.dclType], ds) == Extend(env, ds)[d.id := d.dclType]
    decreases |ds|
  {
    if ds != [] {
      var e := ds[0];
      assert e.id != d.id;
      ExtendLater(env[e.id := e.dclType], d, ds[1..]);
      assert env[d.id := d.dclType][e.id := e.dclType] == env[e.id := e.dclType][d.id := d.dclType];
    }
  }

  lemma {:induction false} ReversedAt<T>(xs: seq<T>)
    ensures forall i :: 0 <= i < |xs| ==> Reversed(xs)[i] == xs[|xs| - 1 - i]
  {
    if xs != [] {
      ReversedAt(xs[..|xs| - 1]);
    }
  }

  lemma {:induction false} ReversedJoin<T>(xs: seq<T>, ys: seq<T>)
    ensures Reversed(xs + ys) == Reversed(ys) + Reversed(xs)
    decreases |ys|
  {
    if ys == [] {
      assert xs + ys == xs && Reversed(ys) == [];
      assert [] + Reversed(xs) == Reversed(xs);
    } else {
      var front, last := ys[..|ys| - 1], [ys[|ys| - 1]];
      ReversedJoin(xs, front);
      assert (xs + ys)[..|xs + ys| - 1] == xs + front && (xs + ys)[|xs + ys| - 1] == last[0];
      assert last + (Reversed(front) + Reversed(xs)) == (last + Reversed(front)) + Reversed(xs);
    }
  }

  /** Types collected backward are the types of the declarations. */
  lemma {:induction false} CollectedTypes(ds: seq<Dcl>)
    requires DistinctIds(ds)
    ensures Extend(map[], Reversed(ds)) == EnvOf(ds)
  {
    if ds != [] {
      var front, d := ds[..|ds| - 1], ds[|ds| - 1];
      CollectedTypes(front);
      ReversedAt(front);
      ExtendLater(map[], d, Reversed(front));
      assert ([d] + Reversed(front))[1..] == Reversed(front);
    }
  }

  /** The types of a procedure's names, in the order they are collected. */
  function Collected(p: Procedure): TypeEnv {
    Extend(Extend(map[], Reversed(p.dcls)), Reversed(p.params))
  }

  /** The tables hold exactly the procedures. */
  ghost predicate TablesFit(t: Tables, ps: seq<Procedure>) {
    && t.names == Names(ps)
    && t.arity == Arities(ps)
    && (forall i :: 0 <= i < |ps| ==> EnvAt(t, ps[i].name) == Collected(ps[i]))
    && t.types.Keys <= t.arity.Keys
  }

  /** The tables after one more procedure. */
  function WithProcedure(t: Tables, p: Procedure): Tables
    requires p.name !in t.arity
  {
    AddAll(AddAll(AddName(t, p.name).value, p.name, Reversed(p.dcls), false), p.name, Reversed(p.params),
           p.name != "wain")
  }

  lemma {:induction false} ArityKeys(ps: seq<Procedure>, x: string)
    ensures x in Arities(ps) <==> exists i :: 0 <= i < |ps| && ps[i].name == x
  {
    if ps != [] {
      ArityKeys(ps[1..], x);
      if i :| 0 <= i < |ps[1..]| && ps[1..][i].name == x {
        assert ps[i + 1].name == x;
      }
      if i :| 0 <= i < |ps| && ps[i].name == x && x != ps[0].name {
        assert ps[1..][i - 1].name == x;
      }
    }
  }

  /** With names declared once, the types are those of all the declarations. */
  lemma CollectedIsEnv(p: Procedure)
    requires DistinctIds(p.params + p.dcls)
    ensures Collected(p) == EnvOf(p.params + p.dcls)
  {
    CollectedTypes(p.params + p.dcls);
    ReversedJoin(p.params, p.dcls);
    ExtendJoin(map[], Reversed(p.dcls), Reversed(p.params));
  }

  /** What a procedure adds to tables that do not have it. */
  lemma ProcedureAdds(t: Tables, p: Procedure)
    requires p.name !in t.arity && t.types.Keys <= t.arity.Keys && IsShaped(p)
    ensures var r := WithProcedure(t, p);
            && r.names == [p.name] + t.names
            && r.arity == t.arity[p.name := |p.params|]
            && EnvAt(r, p.name) == Collected(p)
            && (forall x :: x != p.name ==> EnvAt(r, x) == EnvAt(t, x))
            && r.types.Keys <= r.arity.Keys
  {
    hide AddAll, Extend, Reversed, EnvOf, DistinctIds;
    var t1 := AddName(t, p.name).value;
    var t2 := AddAll(t1, p.name, Reversed(p.dcls), false);
    var r := AddAll(t2, p.name, Reversed(p.params), p.name != "wain");
    assert EnvAt(t1, p.name) == map[];
    AddAllAdds(t1, p.name, Reversed(p.dcls), false);
    AddAllAdds(t2, p.name, Reversed(p.params), p.name != "wain");
    assert r.arity == t.arity[p.name := |p.params|] by {
      assert |Reversed(p.params)| == |p.params|;
    }
  }

  lemma TablesGrow(t: Tables, p: Procedure, rest: seq<Procedure>)
    requires TablesFit(t, rest) && p.name !in t.arity && IsShaped(p)
    ensures TablesFit(WithProcedure(t, p), [p] + rest)
  {
    hide WithProcedure, IsShaped, EnvAt, Collected;
    ProcedureAdds(t, p);
    var ps, r := [p] + rest, WithProcedure(t, p);
    assert ps[1..] == rest;
    assert r.names == Names(ps);
    forall i | 0 <= i < |ps|
      ensures EnvAt(r, ps[i].name) == Collected(ps[i])
    {
      if i > 0 {
        assert ps[i] == rest[i - 1];
        ArityKeys(rest, ps[i].name);
      }
    }
  }

  // ----- one procedure, then all -----

  lemma HeaderIsRead(chart: seq<Elem>, tokens: seq<Token>, i: int, xs: seq<Elem>, p: Procedure, s: nat, t: Tables)
    requires ShowsIn(chart, i, xs + HeaderItems(p, s)) && ParamsSpelled(tokens, s, p.params) && IsShaped(p) &&
             WainTakesInt(p)
    ensures ShowsIn(chart, |xs| - 1, xs) && IsAt(chart, i)
    ensures FirstPass(chart, tokens, i, p.name, t) ==
            FirstPass(chart, tokens, |xs| - 1, p.name, AddAll(t, p.name, Reversed(p.params), p.name != "wain"))
  {
    hide RuleAt, FirstPass, AddAll, ReadWainParams, CollectParams, DistinctIds, LastParamAt;
    assert HaveTypes(p.params) && HaveNoValues(p.params);
    var ds := p.params;
    if p.name == "wain" {
      assert xs + HeaderItems(p, s) == xs + DclItems(ds[0], s) + DclItems(ds[1], LastParamAt(ds, s));
      WainParamsReadBack(chart, tokens, i, xs, ds, s);
      assert Reversed(ds) == [ds[1], ds[0]];
      assert chart[i].rule == 14 by { LastItemIs(chart, i, xs + HeaderItems(p, s), Done(14, LastParamAt(ds, s))); }
      FirstPassWain(chart, tokens, i, t, ds[0], ds[1], |xs| - 1);
    } else {
      ParamsAreCollected(chart, tokens, i, xs, ds, s, t, p.name, None);
      assert 5 <= chart[i].rule <= 6 by { LastItemIs(chart, i, xs + HeaderItems(p, s),
                                                     Done(if ds == [] then 5 else 6, s)); }
      FirstPassParams(chart, tokens, i, p.name, t, AddAll(t, p.name, Reversed(ds), true), |xs| - 1);
    }
  }

  lemma LastItemIs(chart: seq<Elem>, i: int, xs: seq<Elem>, x: Elem)
    requires ShowsIn(chart, i, xs) && xs != [] && xs[|xs| - 1] == x
    ensures 0 <= i < |chart| && chart[i] == x
  {
    assert chart[i] == chart[..i + 1][i];
  }

  /** A second parameter of wain that is not an int is refused. */
  lemma HeaderIsRefused(chart: seq<Elem>, tokens: seq<Token>, i: int, xs: seq<Elem>, p: Procedure, s: nat, t: Tables)
    requires ShowsIn(chart, i, xs + HeaderItems(p, s)) && ParamsSpelled(tokens, s, p.params) && IsShaped(p) &&
             !WainTakesInt(p)
    ensures IsAt(chart, i) && FirstPass(chart, tokens, i, p.name, t) == Err(IntExpected)
  {
    hide RuleAt, AddAll, ReadDcl, CollectDcls, CollectParams, LastParamAt, AddName;
    var ds, at := p.params, LastParamAt(p.params, s);
    assert xs + HeaderItems(p, s) == (xs + DclItems(ds[0], s)) + DclItems(ds[1], at);
    DclReadBack(chart, tokens, i, xs + DclItems(ds[0], s), ds[1], at, false);
    LastItemIs(chart, i, xs + HeaderItems(p, s), Done(14, at));
    HeaderRules();
    assert FirstPass(chart, tokens, i, p.name, t) == Err(IntExpected);
  }

  /** A procedure down to its header. */
  lemma InsideIsRead(chart: seq<Elem>, tokens: seq<Token>, i: int, xs: seq<Elem>, p: Procedure, s: nat, name: string,
                     t: Tables)
    requires ShowsIn(chart, i, xs + ProcedureItems(p, s)) && ProcedureSpelled(tokens, s, p) && IsShaped(p) &&
             p.name !in t.arity
    ensures ShowsIn(chart, |xs + HeaderItems(p, s + 3)| - 1, xs + HeaderItems(p, s + 3)) && IsAt(chart, i)
    ensures FirstPass(chart, tokens, i, name, t) ==
            FirstPass(chart, tokens, |xs + HeaderItems(p, s + 3)| - 1, p.name,
                      AddAll(AddName(t, p.name).value, p.name, Reversed(p.dcls), false))
  {
    hide RuleAt, FirstPass, AddAll, CollectDcls, HeaderItems, DclsItems, BodyItems, ExprItems, ShowsIn, AllFrom,
         BodySpelled, ExprSpelled, DclsSpelled, ParamsSpelled, Reversed;
    var h, d := HeaderItems(p, s + 3), DclsItems(p.dcls, DclsAt(p, s));
    var b, e := BodyItems(p.stmts, BodyStart(p, s)), ExprItems(p.ret, ReturnAt(p, s), []);
    var r, t1 := ProcedureRule(p.name), AddName(t, p.name).value;
    assert xs + ProcedureItems(p, s) == (((xs + h) + d) + (b + e)) + [Done(r, s)];
    TopShowsIn(chart, i, ((xs + h) + d) + (b + e), r, s);
    FirstPassNames(chart, tokens, i, name, t, p.name);
    BodyHasNoNames(p, s);
    FirstPassSkips(chart, tokens, i - 1, (xs + h) + d, b + e, p.name, t1);
    DclsAreRead(chart, tokens, |xs + h + d| - 1, xs + h, p.dcls, DclsAt(p, s), t1, p.name);
  }

  lemma ProcedureIsRead(chart: seq<Elem>, tokens: seq<Token>, i: int, xs: seq<Elem>, p: Procedure, s: nat, name: string,
                        t: Tables)
    requires ShowsIn(chart, i, xs + ProcedureItems(p, s)) && ProcedureSpelled(tokens, s, p) && IsShaped(p) &&
             p.name !in t.arity
    ensures IsAt(chart, i)
    ensures !WainTakesInt(p) ==> FirstPass(chart, tokens, i, name, t) == Err(IntExpected)
    ensures WainTakesInt(p) ==>
              ShowsIn(chart, |xs| - 1, xs) &&
              FirstPass(chart, tokens, i, name, t) == FirstPass(chart, tokens, |xs| - 1, p.name, WithProcedure(t, p))
  {
    hide RuleAt, FirstPass, AddAll, HeaderItems, ShowsIn, ProcedureItems, BodySpelled, ExprSpelled, DclsSpelled,
         ParamsSpelled, Reversed, IsShaped, WainTakesInt;
    var at, t1 := |xs + HeaderItems(p, s + 3)| - 1, AddAll(AddName(t, p.name).value, p.name, Reversed(p.dcls), false);
    InsideIsRead(chart, tokens, i, xs, p, s, name, t);
    if WainTakesInt(p) {
      HeaderIsRead(chart, tokens, at, xs, p, s + 3, t1);
    } else {
      HeaderIsRefused(chart, tokens, at, xs, p, s + 3, t1);
    }
  }

  /** A procedure whose name is taken is refused. */
  lemma NameIsRefused(chart: seq<Elem>, tokens: seq<Token>, i: int, xs: seq<Elem>, p: Procedure, s: nat, name: string,
                      t: Tables)
    requires ShowsIn(chart, i, xs + ProcedureItems(p, s)) && Spells(tokens, s + 1, p.name) && p.name in t.arity
    ensures IsAt(chart, i) && FirstPass(chart, tokens, i, name, t) == Err(Redeclared(p.name))
  {
    hide RuleAt, HeaderItems, DclsItems, BodyItems, ExprItems, CollectDcls, CollectParams, ReadWainParams;
    HeaderRules();
    LastItemIs(chart, i, xs + ProcedureItems(p, s), Done(ProcedureRule(p.name), s));
  }

  lemma BodyHasNoNames(p: Procedure, s: nat)
    ensures AllFrom(BodyItems(p.stmts, BodyStart(p, s)) + ExprItems(p.ret, ReturnAt(p, s), []), 15)
  {
    hide BodyItems, ExprItems, BodyStart, ReturnAt;
    BodyItemsFrom(p.stmts, BodyStart(p, s));
    ExprItemsFrom(p.ret, ReturnAt(p, s), []);
  }

  lemma DclsAreRead(chart: seq<Elem>, tokens: seq<Token>, i: int, xs: seq<Elem>, ds: seq<Dcl>, s: nat, t: Tables,
                    name: string)
    requires ShowsIn(chart, i, xs + DclsItems(ds, s)) && DclsSpelled(tokens, s, ds) && HaveTypes(ds)
    ensures ShowsIn(chart, |xs| - 1, xs) && IsAt(chart, i)
    ensures FirstPass(chart, tokens, i, name, t) ==
            FirstPass(chart, tokens, |xs| - 1, name, AddAll(t, name, Reversed(ds), false))
  {
    hide RuleAt, FirstPass, AddAll, CollectDcls;
    DclsAreCollected(chart, tokens, i, xs, ds, s, t, name, None);
    var r := if ds == [] then 11 else DclsRule(ds[|ds| - 1]);
    LastItemIs(chart, i, xs + DclsItems(ds, s), Done(r, s));
    FirstPassDcls(chart, tokens, i, name, t, AddAll(t, name, Reversed(ds), false), |xs| - 1);
  }

  /** The names are distinct and wain takes an int. */
  predicate NamesAreRight(ps: seq<Procedure>) {
    DistinctNames(ps) && forall j :: 0 <= j < |ps| ==> WainTakesInt(ps[j])
  }

  /** The items and tokens of the first k procedures, the last one apart. */
  lemma LastProcedure(tokens: seq<Token>, ps: seq<Procedure>, k: nat)
    requires 0 < k <= |ps| && ProgramSpelled(tokens, ps[..k])
    ensures var s := |ProgramYield(ps[..k - 1])|;
            && ProgramItems(ps[..k]) == ProgramItems(ps[..k - 1]) + ProcedureItems(ps[k - 1], s)
            && ProgramSpelled(tokens, ps[..k - 1]) && ProcedureSpelled(tokens, s, ps[k - 1]) &&
               Spells(tokens, s + 1, ps[k - 1].name)
  {
    hide ProcedureItems, ProcedureYield, DclsSpelled, BodySpelled, ExprSpelled, ParamsSpelled;
    assert ps[..k][..k - 1] == ps[..k - 1] && ps[..k][k - 1] == ps[k - 1];
  }

  /** From the items of the first k procedures, with the tables of the others. */
  lemma {:induction false} FirstPassFrom(chart: seq<Elem>, tokens: seq<Token>, ps: seq<Procedure>, k: nat, i: int,
                                         name: string, t: Tables)
    requires k <= |ps| && ShowsIn(chart, i, ProgramItems(ps[..k])) && ProgramSpelled(tokens, ps[..k])
    requires TablesFit(t, ps[k..]) && NamesAreRight(ps[k..]) && forall j :: 0 <= j < |ps| ==> IsShaped(ps[j])
    ensures IsAt(chart, i)
    ensures var r := FirstPass(chart, tokens, i, name, t);
            (r.Ok? <==> NamesAreRight(ps)) && (r.Ok? ==> TablesFit(r.value, ps))
    decreases k
  {
    hide RuleAt, FirstPass, TablesFit, IsShaped, ProcedureItems, ProgramItems, ProcedureSpelled, ProgramSpelled,
         WithProcedure, ShowsIn, NamesAreRight, WainTakesInt, ProgramYield, Spells;
    if k == 0 {
      assert ps[..0] == [] && ps[0..] == ps;
      NoItemsAtAll();
      FirstPassEnds(chart, tokens, i, name, t);
    } else {
      var p, xs, s := ps[k - 1], ProgramItems(ps[..k - 1]), |ProgramYield(ps[..k - 1])|;
      LastProcedure(tokens, ps, k);
      MoreNames(ps, k, t);
      if p.name in t.arity {
        NameIsRefused(chart, tokens, i, xs, p, s, name, t);
      } else {
        ProcedureIsRead(chart, tokens, i, xs, p, s, name, t);
        if WainTakesInt(p) {
          TablesGrow(t, p, ps[k..]);
          assert [p] + ps[k..] == ps[k - 1..];
          FirstPassFrom(chart, tokens, ps, k - 1, |xs| - 1, p.name, WithProcedure(t, p));
        }
      }
    }
  }

  lemma NoItemsAtAll()
    ensures ProgramItems([]) == []
  {
  }

  /** One more procedure before those whose names are right. */
  lemma MoreNames(ps: seq<Procedure>, k: nat, t: Tables)
    requires 0 < k <= |ps| && TablesFit(t, ps[k..]) && NamesAreRight(ps[k..])
    ensures ps[k - 1].name in t.arity ==> !NamesAreRight(ps)
    ensures !WainTakesInt(ps[k - 1]) ==> !NamesAreRight(ps)
    ensures ps[k - 1].name !in t.arity && WainTakesInt(ps[k - 1]) ==> NamesAreRight(ps[k - 1..])
  {
    hide WainTakesInt, Names, Collected;
    var p, rest, more := ps[k - 1], ps[k..], ps[k - 1..];
    ArityKeys(rest, p.name);
    if j :| 0 <= j < |rest| && rest[j].name == p.name {
      assert ps[k + j].name == p.name;
    }
    if p.name !in t.arity && WainTakesInt(p) {
      forall i, j | 0 <= i < j < |more|
        ensures more[i].name != more[j].name
      {
        assert more[j] == rest[j - 1] && (i > 0 ==> more[i] == rest[i - 1]);
      }
      forall j | 0 <= j < |more|
        ensures WainTakesInt(more[j])
      {
        assert j > 0 ==> more[j] == rest[j - 1];
      }
    }
  }

  lemma FirstPassEnds(chart: seq<Elem>, tokens: seq<Token>, i: int, name: string, t: Tables)
    requires ShowsIn(chart, i, [])
    ensures IsAt(chart, i) && FirstPass(chart, tokens, i, name, t) == Ok(t)
  {
  }

  /** The first pass over the items of a program succeeds if and only if the names of its procedures are distinct and
      the second parameter of wain is an int, whatever the bodies are. It then finds exactly the procedures, in source
      order, with their numbers of parameters and the types of their names. */
  lemma FirstPassReadsNames(chart: seq<Elem>, tokens: seq<Token>, ps: seq<Procedure>)
    requires chart == ProgramItems(ps) && ProgramSpelled(tokens, ps) && forall j :: 0 <= j < |ps| ==> IsShaped(ps[j])
    ensures IsAt(chart, |chart| - 1)
    ensures var r := FirstPass(chart, tokens, |chart| - 1, "", NO_TABLES);
            (r.Ok? <==> NamesAreRight(ps)) && (r.Ok? ==> TablesFit(r.value, ps))
  {
    hide FirstPass, IsShaped, ProgramSpelled, RuleAt, ProgramItems;
    ProgramIsChart(ps);
    assert ps[..|ps|] == ps && ps[|ps|..] == [] && chart[..|chart|] == chart;
    FirstPassFrom(chart, tokens, ps, |ps|, |chart| - 1, "", NO_TABLES);
  }

  lemma AllFromJoin(xs: seq<Elem>, ys: seq<Elem>)
    requires AllFrom(xs, 0) && AllFrom(ys, 0)
    ensures AllFrom(xs + ys, 0)
  {
  }

  lemma OneIsChart(r: nat, s: nat)
    requires r < 49
    ensures AllFrom([Done(r, s)], 0)
  {
  }

  lemma DclIsChart(d: Dcl, s: nat)
    ensures AllFrom(DclItems(d, s), 0)
  {
  }

  lemma {:induction false} ListEndsAreChart(ds: seq<Dcl>, s: nat)
    ensures AllFrom(ListEnds(ds, s), 0)
  {
    hide RuleAt, LastParamAt;
    if ds != [] {
      ListEndsAreChart(ds[..|ds| - 1], s);
    }
  }

  lemma {:induction false} ParamsAreChart(ds: seq<Dcl>, s: nat)
    ensures AllFrom(ParamsItems(ds, s), 0)
  {
    hide RuleAt, DclItems, LastParamAt, ListEnds, AllFrom, Done;
    if ds == [] {
      OneIsChart(5, s);
    } else {
      var front, at := ds[..|ds| - 1], LastParamAt(ds, s);
      var x, y, z := ParamsItems(front, s), DclItems(ds[|ds| - 1], at), ListEnds(front, s);
      ParamsAreChart(front, s);
      DclIsChart(ds[|ds| - 1], at);
      ListEndsAreChart(front, s);
      OneIsChart(7, at);
      OneIsChart(6, s);
      AllFromJoin(x, y);
      AllFromJoin(x + y, [Done(7, at)]);
      AllFromJoin(x + y + [Done(7, at)], z);
      AllFromJoin(x + y + [Done(7, at)] + z, [Done(6, s)]);
    }
  }

  lemma {:induction false} DclsAreChart(ds: seq<Dcl>, s: nat)
    ensures AllFrom(DclsItems(ds, s), 0)
  {
    hide RuleAt, DclItems, DclsYield, AllFrom, Done;
    if ds == [] {
      OneIsChart(11, s);
    } else {
      var front, d := ds[..|ds| - 1], ds[|ds| - 1];
      var at, r := s + |DclsYield(front)|, DclsRule(d);
      var x, y := DclsItems(front, s), DclItems(d, at);
      DclsAreChart(front, s);
      DclIsChart(d, at);
      OneIsChart(15, at);
      OneIsChart(r, s);
      AllFromJoin(x, [Done(15, at)]);
      AllFromJoin(x + [Done(15, at)], y);
      AllFromJoin(x + [Done(15, at)] + y, [Done(r, s)]);
    }
  }

  lemma ProcedureIsChart(p: Procedure, s: nat)
    ensures AllFrom(ProcedureItems(p, s), 0)
  {
    hide ParamsItems, DclsItems, BodyItems, ExprItems, DclItems, RuleAt, AllFrom, LastParamAt, DclsAt, BodyStart,
         ReturnAt, Done;
    var h, d := HeaderItems(p, s + 3), DclsItems(p.dcls, DclsAt(p, s));
    var b, e := BodyItems(p.stmts, BodyStart(p, s)), ExprItems(p.ret, ReturnAt(p, s), []);
    assert AllFrom(h, 0) by {
      ParamsAreChart(p.params, s + 3);
      if p.name == "wain" && |p.params| == 2 {
        DclIsChart(p.params[0], s + 3);
        DclIsChart(p.params[1], LastParamAt(p.params, s + 3));
        AllFromJoin(DclItems(p.params[0], s + 3), DclItems(p.params[1], LastParamAt(p.params, s + 3)));
      }
    }
    DclsAreChart(p.dcls, DclsAt(p, s));
    AllFromJoin(h, d);
    BodyHasNoNames(p, s);
    FromFifteen(b + e);
    AllFromJoin(h + d, b + e);
    OneIsChart(ProcedureRule(p.name), s);
    AllFromJoin(h + d + (b + e), [Done(ProcedureRule(p.name), s)]);
    assert ProcedureItems(p, s) == h + d + (b + e) + [Done(ProcedureRule(p.name), s)];
  }

  lemma FromFifteen(xs: seq<Elem>)
    requires AllFrom(xs, 15)
    ensures AllFrom(xs, 0)
  {
  }

  lemma {:induction false} ProgramIsChart(ps: seq<Procedure>)
    ensures IsChart(ProgramItems(ps)) && AllFrom(ProgramItems(ps), 0)
  {
    hide ProcedureItems, ProgramYield;
    if ps != [] {
      var front := ps[..|ps| - 1];
      ProgramIsChart(front);
      ProcedureIsChart(ps[|ps| - 1], |ProgramYield(front)|);
    }
  }
}
