/** What the parser answers to every program in which calls come first: its procedures, or the first of its faults. */
module ProgramAnswers {
  import opened Options
  import opened Symbols
  import opened Tokens
  import opened Earley
  import opened Wlp4Grammar
  import opened Ast
  import opened Types
  import opened Yields
  import opened Items
  import opened Procedures
  import opened Reading
  import opened Checking
  import opened ReadBack
  import opened ReadStatements
  import opened Passes
  import opened Programs
  import opened ReadDeclarations
  import opened ReadNames
  import opened ProgramReadBack
  import opened Faults
  import opened Refusals
  import opened Versions
  import opened StatementAnswers

  // ----- what is wrong in a program -----

  /** The names that are taken again, from the last declaration to the first, after those already met. */
  ghost function NameFaults(met: set<string>, ds: seq<Dcl>): seq<ParseError>
    decreases |ds|
  {
    if ds == [] then []
    else
      var d := ds[|ds| - 1];
      When(d.id in met, Redeclared(d.id)) + NameFaults(met + {d.id}, ds[..|ds| - 1])
  }

  ghost function Ids(ds: seq<Dcl>): set<string> {
    set i | 0 <= i < |ds| :: ds[i].id
  }

  /** The parameters come after the declarations; those of wain are met in source order. */
  ghost function HeaderFaults(p: Procedure): seq<ParseError> {
    NameFaults(Ids(p.dcls), if p.name == "wain" then Reversed(p.params) else p.params)
  }

  ghost function ResultFaults(c: Context, e: Expr): seq<ParseError> {
    ExprFaults(c, e) + When(!ExprHasType(c.env, e, Int), IntExpected)
  }

  /** The result, then the statements, then the names. */
  ghost function ProcedureFaults(c: Context, p: Procedure): seq<ParseError> {
    ResultFaults(c, p.ret) + BodyFaults(c, p.stmts) + NameFaults({}, p.dcls) + HeaderFaults(p)
  }

  /** What a procedure is read against: of a name declared twice the first declaration counts. */
  function SourceContext(chart: seq<Elem>, tokens: seq<Token>, ps: seq<Procedure>, p: Procedure): Context {
    Context(chart, tokens, EnvOf(Reversed(p.params + p.dcls)), Names(ps), Arities(ps), p.name)
  }

  /** From the last procedure to the first. */
  ghost function CodeFaults(chart: seq<Elem>, tokens: seq<Token>, ps: seq<Procedure>, k: nat): seq<ParseError>
    requires k <= |ps|
  {
    if k == 0 then []
    else
      ProcedureFaults(SourceContext(chart, tokens, ps, ps[k - 1]), ps[k - 1]) + CodeFaults(chart, tokens, ps, k - 1)
  }

  /** The faults of the first k procedures' headings, from the last to the first. */
  ghost function HeadingFaults(ps: seq<Procedure>, k: nat): seq<ParseError>
    requires k <= |ps|
  {
    if k == 0 then []
    else
      var p := ps[k - 1];
      When(exists j :: k <= j < |ps| && ps[j].name == p.name, Redeclared(p.name))
      + When(!WainTakesInt(p), IntExpected)
      + HeadingFaults(ps, k - 1)
  }

  /** First all headings, then all that is in the procedures. */
  ghost function ProgramFaults(chart: seq<Elem>, tokens: seq<Token>, ps: seq<Procedure>): seq<ParseError> {
    HeadingFaults(ps, |ps|) + CodeFaults(chart, tokens, ps, |ps|)
  }

  // ----- the first pass -----

  lemma {:induction false} FirstPassFinds(chart: seq<Elem>, tokens: seq<Token>, ps: seq<Procedure>, k: nat, i: int,
                                          name: string, t: Tables)
    requires k <= |ps| && ShowsIn(chart, i, ProgramItems(ps[..k])) && ProgramSpelled(tokens, ps[..k])
    requires TablesFit(t, ps[k..]) && NamesAreRight(ps[k..]) && forall j :: 0 <= j < |ps| ==> IsShaped(ps[j])
    ensures IsAt(chart, i)
    ensures var r, faults := FirstPass(chart, tokens, i, name, t), HeadingFaults(ps, k);
            if faults == [] then r.Ok? else r == Err(faults[0])
    decreases k
  {
    hide RuleAt, FirstPass, TablesFit, IsShaped, ProcedureItems, ProgramItems, ProcedureSpelled, ProgramSpelled,
         WithProcedure, ShowsIn, NamesAreRight, WainTakesInt, ProgramYield, Spells;
    if k == 0 {
      assert ps[..0] == [] && ps[0..] == ps;
      NoItemsAtAll();
      FirstPassEnds(chart, tokens, i, name, t);
    } else {
      var p, xs, s := ps[k - 1], ProgramItems(ps[..k - 1]), |ProgramYield(ps[..k - 1])|;
      LastProcedure(tokens, ps, k);
      MoreNames(ps, k, t);
      NameIsTaken(ps, k, t);
      if p.name in t.arity {
        NameIsRefused(chart, tokens, i, xs, p, s, name, t);
      } else {
        ProcedureIsRead(chart, tokens, i, xs, p, s, name, t);
        if WainTakesInt(p) {
          TablesGrow(t, p, ps[k..]);
          assert [p] + ps[k..] == ps[k - 1..];
          FirstPassFinds(chart, tokens, ps, k - 1, |xs| - 1, p.name, WithProcedure(t, p));
        }
      }
    }
  }

  lemma NameIsTaken(ps: seq<Procedure>, k: nat, t: Tables)
    requires 0 < k <= |ps| && TablesFit(t, ps[k..])
    ensures ps[k - 1].name in t.arity <==> exists j :: k <= j < |ps| && ps[j].name == ps[k - 1].name
  {
    hide Names, Collected, EnvAt;
    var x, rest := ps[k - 1].name, ps[k..];
    ArityKeys(rest, x);
    if j :| 0 <= j < |rest| && rest[j].name == x {
      assert ps[k + j].name == x;
    }
    if j :| k <= j < |ps| && ps[j].name == x {
      assert rest[j - k].name == x;
    }
  }

  // ----- the second pass, part by part -----

  /** The second pass answers with a fault, if there is one. */
  ghost predicate Finds(chart: seq<Elem>, tokens: seq<Token>, i: int, t: Tables, q: Draft, done: seq<Draft>,
                        faults: seq<ParseError>)
    requires IsAt(chart, i)
  {
    faults != [] ==> SecondPass(chart, tokens, i, t, q, done) == Err(faults[0])
  }

  lemma PartFinds(chart: seq<Elem>, tokens: seq<Token>, i: int, t: Tables, q: Draft, done: seq<Draft>,
                  error: ParseError)
    requires 0 <= i && IsAt(chart, i) && 5 <= chart[i].rule && ReadPart(chart, tokens, i, t, q) == Err(error)
    ensures SecondPass(chart, tokens, i, t, q, done) == Err(error)
  {
    PartRules(chart[i].rule);
    hide RuleAt, ReadPart;
  }

  lemma ReturnPartIs(chart: seq<Elem>, tokens: seq<Token>, i: int, t: Tables, q: Draft)
    requires 0 <= i && IsAt(chart, i) && 28 <= chart[i].rule <= 30 && q.ret.None?
    ensures var c := ContextOf(chart, tokens, t, q.name);
            ReadPart(chart, tokens, i, t, q) ==
            var (e, j) :- ReadExpr(c, i);
            Unless(ExprType(c.env, e) != Int, IntExpected, (t, q.(ret := Some(e)), j))
  {
    PartRules(chart[i].rule);
    hide RuleAt, ReadExpr, ReadBody, CollectDcls, CollectParams, ReadWainParams, ExprType;
  }

  lemma ResultIsAnswered(chart: seq<Elem>, tokens: seq<Token>, i: int, xs: seq<Elem>, e: Expr, at: nat, t: Tables,
                         q: Draft, done: seq<Draft>)
    requires ShowsIn(chart, i, xs + ExprItems(e, at, [])) && IsAt(chart, i) && ExprSpelled(tokens, at, e)
    requires ExprCallsFirst(e) && q.ret.None?
    ensures var faults := ResultFaults(ContextOf(chart, tokens, t, q.name), e);
            && Finds(chart, tokens, i, t, q, done, faults)
            && (faults == [] ==>
                  && ShowsIn(chart, |xs| - 1, xs) && IsAt(chart, |xs| - 1)
                  && SecondPass(chart, tokens, i, t, q, done) ==
                     SecondPass(chart, tokens, |xs| - 1, t, q.(ret := Some(e)), done))
  {
    hide RuleAt, SecondPass, ReadPart, ReadExpr, ExprItems, ExprHasType, ExprType, ExprResolves, ExprCallsFirst,
         ExprSpelled, ExprFaults, ExprIsSound;
    var c := ContextOf(chart, tokens, t, q.name);
    ExprItemsEnd(e, at);
    LastItemIs(chart, i, xs + ExprItems(e, at, []), Done(ExprRule(e), at));
    LacksNone();
    ExprIsAnswered(c, i, xs, e, at, []);
    ReturnPartIs(chart, tokens, i, t, q);
    if ExprFaults(c, e) != [] {
      PartFinds(chart, tokens, i, t, q, done, ExprFaults(c, e)[0]);
    } else {
      ReadExprIsSound(c, i);
      ExprHasItsType(c, e, Int);
      if !ExprHasType(c.env, e, Int) {
        PartFinds(chart, tokens, i, t, q, done, IntExpected);
      } else {
        ExprIsFaultless(c, e);
        ResultIsBuilt(chart, tokens, i, xs, e, at, t, q, done);
        AtEnd(chart, |xs| - 1, xs);
      }
    }
  }

  lemma BodyPartFinds(chart: seq<Elem>, tokens: seq<Token>, i: int, t: Tables, q: Draft, error: ParseError)
    requires 0 <= i && IsAt(chart, i) && 15 <= chart[i].rule <= 16
    requires ReadBody(ContextOf(chart, tokens, t, q.name), i) == Err(error)
    ensures ReadPart(chart, tokens, i, t, q) == Err(error)
  {
    PartRules(chart[i].rule);
    hide RuleAt, ReadExpr, ReadBody, CollectDcls, CollectParams, ReadWainParams;
  }

  lemma StatementsAreAnswered(chart: seq<Elem>, tokens: seq<Token>, i: int, xs: seq<Elem>, stmts: seq<Statement>,
                              at: nat, t: Tables, q: Draft, done: seq<Draft>)
    requires ShowsIn(chart, i, xs + BodyItems(stmts, at)) && IsAt(chart, i) && BodySpelled(tokens, at, stmts)
    requires HaveCallsFirst(stmts) && q.stmts == []
    ensures var faults := BodyFaults(ContextOf(chart, tokens, t, q.name), stmts);
            && Finds(chart, tokens, i, t, q, done, faults)
            && (faults == [] ==>
                  && ShowsIn(chart, |xs| - 1, xs) && IsAt(chart, |xs| - 1)
                  && SecondPass(chart, tokens, i, t, q, done) ==
                     SecondPass(chart, tokens, |xs| - 1, t, q.(stmts := stmts), done))
  {
    hide RuleAt, SecondPass, ReadPart, ReadBody, BodyItems, BodySpelled, BodyIsSound, StatementCallsFirst, BodyFaults;
    var c := ContextOf(chart, tokens, t, q.name);
    BodyItemsEnd(stmts, at);
    LastItemIs(chart, i, xs + BodyItems(stmts, at), Done(if stmts == [] then 15 else 16, at));
    BodyIsAnswered(c, i, xs, stmts, at);
    BodyIsFaultless(c, stmts);
    if BodyFaults(c, stmts) != [] {
      BodyPartFinds(chart, tokens, i, t, q, BodyFaults(c, stmts)[0]);
      PartFinds(chart, tokens, i, t, q, done, BodyFaults(c, stmts)[0]);
    } else {
      StatementsAreBuilt(chart, tokens, i, xs, stmts, at, t, q, done);
      AtEnd(chart, |xs| - 1, xs);
    }
  }

  // ----- declarations and parameters -----

  /** The names the draft declares. */
  ghost function Declared(q: Draft): set<string> {
    Ids(q.params) + Ids(q.dcls)
  }

  lemma IdsGrow(ds: seq<Dcl>, d: Dcl)
    ensures Ids(ds + [d]) == Ids(ds) + {d.id}
  {
    assert (ds + [d])[|ds|] == d;
    assert forall i :: 0 <= i < |ds| ==> (ds + [d])[i] == ds[i];
  }

  lemma DeclaredAre(q: Draft, id: string)
    ensures id in Declared(q) <==> Declares(q, id)
  {
  }

  /** Names without fault are fresh ones. */
  lemma {:induction false} FaultlessNames(q: Draft, ds: seq<Dcl>)
    ensures NameFaults(Declared(q), ds) == [] <==> IsFresh(q, ds)
    decreases |ds|
  {
    if ds != [] {
      var front, d := ds[..|ds| - 1], ds[|ds| - 1];
      var q' := q.(params := q.params + [d]);
      IdsGrow(q.params, d);
      assert Declared(q') == Declared(q) + {d.id};
      DeclaredAre(q, d.id);
      FaultlessNames(q', front);
      hide Declares, IsFresh, Declared;
      if IsFresh(q, ds) {
        FreshFront(q, ds);
      }
      if !Declares(q, d.id) && IsFresh(q', front) {
        FreshBack(q, ds);
      }
    }
  }

  lemma {:induction false} DclsAreAnswered(chart: seq<Elem>, tokens: seq<Token>, i: int, xs: seq<Elem>, ds: seq<Dcl>,
                                           s: nat, t: Tables, name: string, q: Draft)
    requires ShowsIn(chart, i, xs + DclsItems(ds, s)) && DclsSpelled(tokens, s, ds) && HaveTypes(ds) && IsAt(chart, i)
    ensures var faults := NameFaults(Declared(q), ds);
            faults != [] ==> CollectDcls(chart, tokens, i, t, name, Some(q)) == Err(faults[0])
    decreases |ds|
  {
    hide RuleAt, ShowsIn, CollectDcls, Declares, AddOne, DclSpelled, Spells, DclItems, DclsYield, Declared;
    if ds != [] {
      var front, d := ds[..|ds| - 1], ds[|ds| - 1];
      var at, x := s + |DclsYield(front)|, DclsItems(front, s);
      var q' := q.(dcls := q.dcls + [AsTaken(d)]);
      DclsParts(xs, ds, s);
      hide DclsItems;
      DeclaredAre(q, d.id);
      if Declares(q, d.id) {
        DclRefused(chart, tokens, i, xs + x, d, at, s, t, name, q);
      } else {
        LastDclIsCollected(chart, tokens, i, xs + x, d, at, s, t, name, Some(q));
        AtEnd(chart, |xs + x| - 1, xs + x);
        DeclaredGrow(q, d);
        DclsAreAnswered(chart, tokens, |xs + x| - 1, xs, front, s, AddOne(t, name, d, false), name, q');
      }
    }
  }

  lemma DeclaredGrow(q: Draft, d: Dcl)
    ensures Declared(q.(dcls := q.dcls + [AsTaken(d)])) == Declared(q) + {d.id}
    ensures Declared(q.(params := q.params + [d])) == Declared(q) + {d.id}
  {
    IdsGrow(q.dcls, AsTaken(d));
    IdsGrow(q.params, d);
  }

  lemma {:induction false} ParamsAreAnswered(chart: seq<Elem>, tokens: seq<Token>, i: int, xs: seq<Elem>, ds: seq<Dcl>,
                                             s: nat, t: Tables, name: string, q: Draft)
    requires ShowsIn(chart, i, xs + ParamsItems(ds, s)) && ParamsSpelled(tokens, s, ds) && HaveTypes(ds) &&
             HaveNoValues(ds) && IsAt(chart, i)
    ensures var faults := NameFaults(Declared(q), ds);
            faults != [] ==> CollectParams(chart, tokens, i, t, name, Some(q)) == Err(faults[0])
    decreases |ds|
  {
    hide RuleAt, ShowsIn, CollectParams, Declares, AddOne, Lacks, ListEnds, LastParamAt, DclItems, DclSpelled, Declared;
    if ds != [] {
      var front, d, at := ds[..|ds| - 1], ds[|ds| - 1], LastParamAt(ds, s);
      var x, noise := ParamsItems(front, s), [Done(7, at)] + ListEnds(front, s);
      ParamsParts(xs, ds, s);
      ListEndsLackDcl(front, s, at);
      DeclaredAre(q, d.id);
      if Declares(q, d.id) {
        ParamRefused(chart, tokens, i, xs + x, d, at, noise, s, t, name, q);
      } else {
        LastParamIsCollected(chart, tokens, i, xs + x, d, at, noise, s, t, name, Some(q));
        AtEnd(chart, |xs + x| - 1, xs + x);
        DeclaredGrow(q, d);
        ParamsAreAnswered(chart, tokens, |xs + x| - 1, xs, front, s, AddOne(t, name, d, false), name,
                          q.(params := q.params + [d]));
      }
    }
  }

  lemma WainIsAnswered(q: Draft, d1: Dcl, d2: Dcl)
    requires q.params == []
    ensures var faults := NameFaults(Declared(q), [d2, d1]);
            faults != [] ==> AddWainParams(q, d1, d2) == Err(faults[0])
  {
    var met := Declared(q);
    assert [d2, d1][..1] == [d2] && [d2][..0] == [];
    assert NameFaults(met + {d1.id}, [d2]) == When(d2.id in met + {d1.id}, Redeclared(d2.id)) + [];
    assert NameFaults(met, [d2, d1]) == When(d1.id in met, Redeclared(d1.id)) + NameFaults(met + {d1.id}, [d2]);
    DeclaredGrow(q, d1);
    DeclaredAre(q, d1.id);
    DeclaredAre(q.(params := q.params + [d1]), d2.id);
    hide Declared, Declares;
  }

  lemma DclsPartFinds(chart: seq<Elem>, tokens: seq<Token>, i: int, t: Tables, q: Draft, error: ParseError)
    requires 0 <= i && IsAt(chart, i) && 11 <= chart[i].rule <= 13
    requires CollectDcls(chart, tokens, i, t, q.name, Some(q)) == Err(error)
    ensures ReadPart(chart, tokens, i, t, q) == Err(error)
  {
    PartRules(chart[i].rule);
    hide RuleAt, ReadExpr, ReadBody, CollectDcls, CollectParams, ReadWainParams;
  }

  lemma ParamsPartFinds(chart: seq<Elem>, tokens: seq<Token>, i: int, t: Tables, q: Draft, error: ParseError)
    requires 0 <= i && IsAt(chart, i) && 5 <= chart[i].rule <= 6
    requires CollectParams(chart, tokens, i, t, q.name, Some(q)) == Err(error)
    ensures ReadPart(chart, tokens, i, t, q) == Err(error)
  {
    PartRules(chart[i].rule);
    hide RuleAt, ReadExpr, ReadBody, CollectDcls, CollectParams, ReadWainParams;
  }

  lemma WainPartFinds(chart: seq<Elem>, tokens: seq<Token>, i: int, t: Tables, q: Draft, d1: Dcl, d2: Dcl, j: int,
                      error: ParseError)
    requires 0 <= i && IsAt(chart, i) && chart[i].rule == 14 && q.name == "wain"
    requires ReadWainParams(chart, tokens, i) == Ok((d1, d2, j)) && AddWainParams(q, d1, d2) == Err(error)
    ensures ReadPart(chart, tokens, i, t, q) == Err(error)
  {
    PartRules(chart[i].rule);
    hide RuleAt, ReadExpr, ReadBody, CollectDcls, CollectParams, ReadWainParams, AddWainParams;
  }

  lemma DeclarationsAreAnswered(chart: seq<Elem>, tokens: seq<Token>, i: int, xs: seq<Elem>, ds: seq<Dcl>, at: nat,
                                t: Tables, q: Draft, done: seq<Draft>)
    requires ShowsIn(chart, i, xs + DclsItems(ds, at)) && DclsSpelled(tokens, at, ds) && HaveTypes(ds) && IsAt(chart, i)
    ensures Finds(chart, tokens, i, t, q, done, NameFaults(Declared(q), ds))
  {
    hide RuleAt, SecondPass, ReadPart, CollectDcls, DclsSpelled, DclsItems, NameFaults, Declared;
    var faults := NameFaults(Declared(q), ds);
    if faults != [] {
      DclsItemsEnd(ds, at);
      LastItemIs(chart, i, xs + DclsItems(ds, at), DclsItems(ds, at)[|DclsItems(ds, at)| - 1]);
      DclsAreAnswered(chart, tokens, i, xs, ds, at, t, q.name, q);
      DclsPartFinds(chart, tokens, i, t, q, faults[0]);
      PartFinds(chart, tokens, i, t, q, done, faults[0]);
    }
  }

  lemma HeaderIsAnswered(chart: seq<Elem>, tokens: seq<Token>, i: int, xs: seq<Elem>, p: Procedure, s: nat, t: Tables,
                         q: Draft, done: seq<Draft>)
    requires ShowsIn(chart, i, xs + HeaderItems(p, s)) && ParamsSpelled(tokens, s, p.params) && IsShaped(p) &&
             WainTakesInt(p)
    requires q.name == p.name && q.params == [] && Declared(q) == Ids(p.dcls) && IsAt(chart, i)
    ensures Finds(chart, tokens, i, t, q, done, HeaderFaults(p))
  {
    hide RuleAt, SecondPass, ReadPart, CollectParams, ReadWainParams, ParamsSpelled, NameFaults, Declared, LastParamAt,
         ParamsItems, DclItems, AddWainParams;
    var ds, faults := p.params, HeaderFaults(p);
    assert HaveTypes(ds) && HaveNoValues(ds);
    if faults != [] {
      HeaderItemsEnd(p, s);
      LastItemIs(chart, i, xs + HeaderItems(p, s), HeaderItems(p, s)[|HeaderItems(p, s)| - 1]);
      if p.name == "wain" {
        assert xs + HeaderItems(p, s) == xs + DclItems(ds[0], s) + DclItems(ds[1], LastParamAt(ds, s));
        WainParamsReadBack(chart, tokens, i, xs, ds, s);
        assert Reversed(ds) == [ds[1], ds[0]];
        WainIsAnswered(q, ds[0], ds[1]);
        WainPartFinds(chart, tokens, i, t, q, ds[0], ds[1], |xs| - 1, faults[0]);
      } else {
        ParamsAreAnswered(chart, tokens, i, xs, ds, s, t, q.name, q);
        ParamsPartFinds(chart, tokens, i, t, q, faults[0]);
      }
      PartFinds(chart, tokens, i, t, q, done, faults[0]);
    }
  }

  // ----- a whole procedure -----

  lemma ReversedIsFresh(q: Draft, d1: Dcl, d2: Dcl)
    ensures IsFresh(q, [d1, d2]) <==> IsFresh(q, [d2, d1])
  {
    hide Declares;
    assert [d1, d2][0] == d1 && [d1, d2][1] == d2 && [d2, d1][0] == d2 && [d2, d1][1] == d1;
  }

  /** A draft with the declarations of the procedure. */
  lemma DeclaredTaken(p: Procedure, q: Draft)
    requires q.params == [] && q.dcls == Reversed(Taken(p.dcls))
    ensures Declared(q) == Ids(p.dcls)
  {
    var ds, n := q.dcls, |p.dcls|;
    ReversedAt(Taken(p.dcls));
    hide Reversed, Taken;
    forall i | 0 <= i < n
      ensures ds[i].id == p.dcls[n - 1 - i].id && p.dcls[i].id == ds[n - 1 - i].id
    {
      assert ds[i] == AsTaken(p.dcls[n - 1 - i]) && ds[n - 1 - i] == AsTaken(p.dcls[i]);
    }
    IdsWithin(ds, p.dcls);
    IdsWithin(p.dcls, ds);
    assert Ids(q.params) == {};
  }

  lemma IdsWithin(xs: seq<Dcl>, ys: seq<Dcl>)
    requires |xs| == |ys| && forall i :: 0 <= i < |xs| ==> xs[i].id == ys[|xs| - 1 - i].id
    ensures Ids(xs) <= Ids(ys)
  {
    forall x | x in Ids(xs)
      ensures x in Ids(ys)
    {
      var i :| 0 <= i < |xs| && xs[i].id == x;
      assert ys[|xs| - 1 - i].id == x;
    }
  }

  /** Names without fault are distinct ones. */
  lemma FaultlessNamesAre(p: Procedure)
    requires p.name == "wain" ==> |p.params| == 2
    ensures NameFaults({}, p.dcls) + HeaderFaults(p) == [] <==> DistinctIds(p.params + p.dcls)
  {
    hide IsFresh, DistinctIds, NameFaults, Declared, Taken, Ids;
    var q, q' := Empty(p), Empty(p).(dcls := Reversed(Taken(p.dcls)));
    assert Declared(q) == {} by { NothingDeclared(p); }
    FreshParts(p, q);
    FaultlessNames(q, p.dcls);
    DeclaredTaken(p, q');
    FaultlessNames(q', p.params);
    if p.name == "wain" {
      var ds := p.params;
      assert ds == [ds[0], ds[1]] && Reversed(ds) == [ds[1], ds[0]];
      FaultlessNames(q', Reversed(ds));
      ReversedIsFresh(q', ds[0], ds[1]);
    }
  }

  lemma NothingDeclared(p: Procedure)
    ensures Declared(Empty(p)) == {}
  {
  }

  /** The names of a procedure, from its declarations on. */
  lemma NamesAreAnswered(chart: seq<Elem>, tokens: seq<Token>, i: int, xs: seq<Elem>, p: Procedure, s: nat, t: Tables,
                         q: Draft, done: seq<Draft>)
    requires ShowsIn(chart, i, (xs + HeaderItems(p, s + 3)) + DclsItems(p.dcls, DclsAt(p, s))) && IsAt(chart, i)
    requires ProcedureSpelled(tokens, s, p) && IsShaped(p) && WainTakesInt(p)
    requires q.name == p.name && q.params == [] && q.dcls == []
    ensures Finds(chart, tokens, i, t, q, done, NameFaults({}, p.dcls) + HeaderFaults(p))
  {
    hide SecondPass, HeaderItems, DclsItems, ShowsIn, DclsSpelled, BodySpelled, ExprSpelled, ParamsSpelled, DclsAt,
         BodyStart, ReturnAt, IsFresh, AddAll, Reversed, WainTakesInt, Taken, NameFaults, Declared, HeaderFaults, Ids;
    var h, q' := HeaderItems(p, s + 3), q.(dcls := Reversed(Taken(p.dcls)));
    var t' := AddAll(t, p.name, Reversed(p.dcls), false);
    assert Declared(q) == {} by { NoneDeclared(q); }
    DeclarationsAreAnswered(chart, tokens, i, xs + h, p.dcls, DclsAt(p, s), t, q, done);
    if NameFaults({}, p.dcls) == [] {
      FaultlessNames(q, p.dcls);
      DclsAreBuilt(chart, tokens, i, xs + h, p.dcls, DclsAt(p, s), t, q, done);
      AtEnd(chart, |xs + h| - 1, xs + h);
      DeclaredTaken(p, q');
      HeaderIsAnswered(chart, tokens, |xs + h| - 1, xs, p, s + 3, t', q', done);
    }
  }

  lemma NoneDeclared(q: Draft)
    requires q.params == [] && q.dcls == []
    ensures Declared(q) == {}
  {
  }

  /** A procedure: its first fault is found. */
  lemma ProcedureIsAnswered(chart: seq<Elem>, tokens: seq<Token>, i: int, xs: seq<Elem>, p: Procedure, s: nat,
                            t: Tables, done: seq<Draft>)
    requires ShowsInside(chart, i, xs, p, s) && IsAt(chart, i) && ProcedureSpelled(tokens, s, p)
    requires IsShaped(p) && WainTakesInt(p) && HasCallsFirst(p)
    ensures Finds(chart, tokens, i, t, Empty(p), done, ProcedureFaults(ContextOf(chart, tokens, t, p.name), p))
  {
    hide SecondPass, HeaderItems, DclsItems, BodyItems, ExprItems, ShowsIn, DclsSpelled, BodySpelled, ExprSpelled,
         ParamsSpelled, DclsAt, BodyStart, ReturnAt, StatementCallsFirst, ExprCallsFirst, ResultFaults, BodyFaults,
         NameFaults, HeaderFaults, WainTakesInt, ContextOf;
    var c := ContextOf(chart, tokens, t, p.name);
    var below := (xs + HeaderItems(p, s + 3)) + DclsItems(p.dcls, DclsAt(p, s));
    var b := BodyItems(p.stmts, BodyStart(p, s));
    SpelledIn(chart, tokens, t, s, p);
    ResultIsAnswered(chart, tokens, i, below + b, p.ret, ReturnAt(p, s), t, Empty(p), done);
    if ResultFaults(c, p.ret) == [] {
      StatementsAreAnswered(chart, tokens, |below + b| - 1, below, p.stmts, BodyStart(p, s), t, WithResult(p), done);
      if BodyFaults(c, p.stmts) == [] {
        NamesAreAnswered(chart, tokens, |below| - 1, xs, p, s, t, WithBody(p), done);
      }
    }
  }

  // ----- the whole program -----

  lemma {:induction false} ExtendIsEnv(ds: seq<Dcl>)
    ensures Extend(map[], ds) == EnvOf(ds)
  {
    if ds != [] {
      var front, last := ds[..|ds| - 1], ds[|ds| - 1..];
      ExtendIsEnv(front);
      ExtendJoin(map[], front, last);
      assert front + last == ds;
      assert last[1..] == [];
    }
  }

  /** The types that are collected: of a name declared twice the first declaration counts. */
  lemma CollectedIsFirst(p: Procedure)
    ensures Collected(p) == EnvOf(Reversed(p.params + p.dcls))
  {
    ReversedJoin(p.params, p.dcls);
    ExtendJoin(map[], Reversed(p.dcls), Reversed(p.params));
    ExtendIsEnv(Reversed(p.params + p.dcls));
  }

  lemma ContextIsSource(chart: seq<Elem>, tokens: seq<Token>, ps: seq<Procedure>, k: nat, t: Tables)
    requires k < |ps| && TablesHold(t, ps, k + 1)
    ensures ContextOf(chart, tokens, t, ps[k].name) == SourceContext(chart, tokens, ps, ps[k])
  {
    CollectedIsFirst(ps[k]);
    hide Collected, EnvOf, Reversed;
  }

  lemma FaultlessIsRight(c: Context, p: Procedure)
    requires p.name == "wain" ==> |p.params| == 2
    ensures ProcedureFaults(c, p) == [] <==> IsRight(c, p)
  {
    hide ExprFaults, BodyFaults, NameFaults, HeaderFaults, ExprHasType, ExprResolves, BodyIsSound, DistinctIds;
    ExprIsFaultless(c, p.ret);
    BodyIsFaultless(c, p.stmts);
    FaultlessNamesAre(p);
  }

  /** Inside procedure k, with those after it done. */
  lemma {:induction false} ProceduresAreAnswered(chart: seq<Elem>, tokens: seq<Token>, ps: seq<Procedure>, k: nat,
                                                 i: int, t: Tables, done: seq<Draft>)
    requires k < |ps| && ProgramSpelled(tokens, ps[..k + 1]) && NamesAreRight(ps) && IsReadable(ps)
    requires ShowsInside(chart, i, ProgramItems(ps[..k]), ps[k], |ProgramYield(ps[..k])|) && IsAt(chart, i)
    requires TablesHold(t, ps, k + 1)
    ensures Finds(chart, tokens, i, t, Empty(ps[k]), done, CodeFaults(chart, tokens, ps, k + 1))
    decreases k
  {
    hide RuleAt, SecondPass, TablesHold, IsShaped, HasCallsFirst, WainTakesInt, DistinctNames, IsRight, ShowsInside,
         ProgramItems, ProgramYield, ProgramSpelled, ProcedureSpelled, ProcedureItems, ContextOf, SourceContext,
         MetAgain, Empty, Spells, ShowsIn, ProcedureFaults, Built;
    var p, xs, s := ps[k], ProgramItems(ps[..k]), |ProgramYield(ps[..k])|;
    assert IsShaped(p) && HasCallsFirst(p) && WainTakesInt(p);
    LastProcedure(tokens, ps, k + 1);
    ContextIsSource(chart, tokens, ps, k, t);
    ProcedureIsAnswered(chart, tokens, i, xs, p, s, t, done);
    var c := SourceContext(chart, tokens, ps, p);
    if ProcedureFaults(c, p) == [] {
      WainHasTwo(p);
      FaultlessIsRight(c, p);
      ProcedureIsBuilt(chart, tokens, i, xs, p, s, t, done);
      MetAgainHolds(t, ps, k);
      AtEnd(chart, |xs| - 1, xs);
      AnsweredBelow(chart, tokens, ps, k, |xs| - 1, MetAgain(t, p), Built(p), done);
    }
  }

  lemma WainHasTwo(p: Procedure)
    requires IsShaped(p)
    ensures p.name == "wain" ==> |p.params| == 2
  {
  }

  /** Below procedure k, which is finished. */
  lemma {:induction false} AnsweredBelow(chart: seq<Elem>, tokens: seq<Token>, ps: seq<Procedure>, k: nat, i: int,
                                         t: Tables, q: Draft, done: seq<Draft>)
    requires k < |ps| && ProgramSpelled(tokens, ps[..k]) && NamesAreRight(ps) && IsReadable(ps)
    requires ShowsIn(chart, i, ProgramItems(ps[..k])) && IsAt(chart, i) && TablesHold(t, ps, k)
    ensures Finds(chart, tokens, i, t, q, done, CodeFaults(chart, tokens, ps, k))
    decreases k, 0
  {
    hide RuleAt, SecondPass, TablesHold, IsShaped, HasCallsFirst, WainTakesInt, DistinctNames, ShowsInside,
         ProgramItems, ProgramYield, ProgramSpelled, ProcedureSpelled, ProcedureItems, SourceContext, Empty, Spells,
         ShowsIn, ProcedureFaults;
    if k > 0 {
      var xs, s := ProgramItems(ps[..k - 1]), |ProgramYield(ps[..k - 1])|;
      LastProcedure(tokens, ps, k);
      EnterProcedure(chart, i, xs, ps[k - 1], s);
      SecondPassNames(chart, tokens, i, t, q, done, ps[k - 1].name, s);
      EmptyIs(ps[k - 1]);
      InsideIsAt(chart, i - 1, xs, ps[k - 1], s);
      ProceduresAreAnswered(chart, tokens, ps, k - 1, i - 1, t, [q] + done);
    }
  }

  lemma {:induction false} FaultlessCode(chart: seq<Elem>, tokens: seq<Token>, ps: seq<Procedure>, k: nat)
    requires k <= |ps| && IsReadable(ps)
    ensures CodeFaults(chart, tokens, ps, k) == [] <==> RightBelow(chart, tokens, ps, k)
  {
    hide IsShaped, HasCallsFirst, IsRight, ProcedureFaults, SourceContext, ProgramContext;
    if k > 0 {
      var p := ps[k - 1];
      FaultlessCode(chart, tokens, ps, k - 1);
      WainHasTwo(p);
      FaultlessIsRight(SourceContext(chart, tokens, ps, p), p);
      SourceIsProgram(chart, tokens, ps, p);
    }
  }

  lemma SourceIsProgram(chart: seq<Elem>, tokens: seq<Token>, ps: seq<Procedure>, p: Procedure)
    ensures IsRight(SourceContext(chart, tokens, ps, p), p) <==> IsRight(ProgramContext(chart, tokens, ps, p), p)
  {
    hide IsTyped, Reversed, EnvOf;
    if DistinctIds(p.params + p.dcls) {
      CollectedIsEnv(p);
      CollectedIsFirst(p);
    }
  }


  /** The parser, given the items of any program in which calls come first, gives back its procedures if the program is
      without fault, and its first fault if not. Without fault are exactly the well-formed programs. */
  lemma ProgramIsAnswered(chart: seq<Elem>, tokens: seq<Token>, ps: seq<Procedure>)
    requires chart == ProgramItems(ps) && ps != [] && ProgramSpelled(tokens, ps) && IsReadable(ps)
    ensures IsChart(chart)
    ensures Parse(chart, tokens) == Answer(ProgramFaults(chart, tokens, ps), AllBuilt(ps))
    ensures ProgramFaults(chart, tokens, ps) == [] <==> IsProgram(chart, tokens, ps)
  {
    hide FirstPass, IsProgram, IsReadable, ProgramSpelled, TablesFit, NamesAreRight, RightBelow, CodeFaults,
         HeadingFaults, AllBuilt, Parse, RuleAt, ProgramItems, IsShaped;
    ShapedAnyway(ps);
    FirstPassReadsNames(chart, tokens, ps);
    HeadingsAreAnswered(chart, tokens, ps);
    FaultlessCode(chart, tokens, ps, |ps|);
    ProgramMeans(chart, tokens, ps);
    if HeadingFaults(ps, |ps|) != [] {
      FirstFails(chart, tokens, HeadingFaults(ps, |ps|)[0]);
    } else if CodeFaults(chart, tokens, ps, |ps|) != [] {
      CodeIsAnswered(chart, tokens, ps);
    } else {
      ProgramReadsBack(chart, tokens, ps);
    }
  }

  lemma FirstFails(chart: seq<Elem>, tokens: seq<Token>, error: ParseError)
    requires IsChart(chart) && FirstPass(chart, tokens, |chart| - 1, "", NO_TABLES) == Err(error)
    ensures Parse(chart, tokens) == Err(error)
  {
    hide FirstPass;
  }

  lemma HeadingsAreAnswered(chart: seq<Elem>, tokens: seq<Token>, ps: seq<Procedure>)
    requires chart == ProgramItems(ps) && ProgramSpelled(tokens, ps) && forall j :: 0 <= j < |ps| ==> IsShaped(ps[j])
    ensures IsAt(chart, |chart| - 1)
    ensures var r, faults := FirstPass(chart, tokens, |chart| - 1, "", NO_TABLES), HeadingFaults(ps, |ps|);
            if faults == [] then r.Ok? else r == Err(faults[0])
  {
    hide FirstPass, IsShaped, ProgramSpelled, RuleAt, ProgramItems, HeadingFaults;
    ProgramIsChart(ps);
    assert ps[..|ps|] == ps && ps[|ps|..] == [] && chart[..|chart|] == chart;
    FirstPassFinds(chart, tokens, ps, |ps|, |chart| - 1, "", NO_TABLES);
  }

  /** With the headings right, the first fault inside the procedures is found. */
  lemma CodeIsAnswered(chart: seq<Elem>, tokens: seq<Token>, ps: seq<Procedure>)
    requires chart == ProgramItems(ps) && ps != [] && ProgramSpelled(tokens, ps) && IsReadable(ps) && NamesAreRight(ps)
    requires IsAt(chart, |chart| - 1) && FirstPass(chart, tokens, |chart| - 1, "", NO_TABLES).Ok?
    requires TablesFit(FirstPass(chart, tokens, |chart| - 1, "", NO_TABLES).value, ps)
    requires CodeFaults(chart, tokens, ps, |ps|) != []
    ensures Parse(chart, tokens) == Err(CodeFaults(chart, tokens, ps, |ps|)[0])
  {
    hide RuleAt, SecondPass, FirstPass, FromLast, TablesFit, TablesHold, ShowsInside, ProcedureItems, ProgramItems,
         ProgramSpelled, ProgramYield, NamesAreRight, IsReadable, Spells, Empty, Parse, CodeFaults;
    var n, k := |chart| - 1, |ps| - 1;
    var t := FirstPass(chart, tokens, n, "", NO_TABLES).value;
    assert chart[..|chart|] == chart && ps[..|ps|] == ps;
    var xs, s := ProgramItems(ps[..k]), |ProgramYield(ps[..k])|;
    LastProcedure(tokens, ps, |ps|);
    EnterProcedure(chart, n, xs, ps[k], s);
    FitHolds(t, ps);
    InsideIsAt(chart, n - 1, xs, ps[k], s);
    ParseStarts(chart, tokens, t, ps[k], s);
    ProceduresAreAnswered(chart, tokens, ps, k, n - 1, t, []);
  }
}
