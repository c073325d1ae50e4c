/** Parsing the items of a whole program gives its procedures back. */
module ProgramReadBack {
  import opened Options
  import opened Symbols
  import opened Tokens
  import opened Earley
  import opened Wlp4Grammar
  import opened Ast
  import opened Types
  import opened Yields
  import opened Items
  import opened Procedures
  import opened Reading
  import opened Checking
  import opened ReadBack
  import opened ReadStatements
  import opened Passes
  import opened Programs
  import opened ReadDeclarations
  import opened ReadNames

  // ----- one step of the second pass -----

  lemma PartStep(chart: seq<Elem>, tokens: seq<Token>, i: int, t: Tables, p: Draft, done: seq<Draft>, t': Tables,
                 p': Draft, j: int)
    requires 0 <= i && IsAt(chart, i) && 5 <= chart[i].rule && ReadPart(chart, tokens, i, t, p) == Ok((t', p', j))
    ensures SecondPass(chart, tokens, i, t, p, done) == SecondPass(chart, tokens, j, t', p', done)
  {
    PartRules(chart[i].rule);
    hide RuleAt, ReadPart;
  }

  lemma PartRules(r: nat)
    requires 5 <= r < 49
    ensures RuleAt(r).lhs != PROCEDURE && RuleAt(r).lhs != MAIN
    ensures RuleAt(r).lhs == STATEMENTS <==> r == 15 || r == 16
    ensures RuleAt(r).lhs == DCLS <==> 11 <= r <= 13
    ensures RuleAt(r).lhs == PARAMS <==> 5 <= r <= 6
    ensures RuleAt(r).lhs == DCL <==> r == 14
    ensures RuleAt(r).lhs == EXPR <==> 28 <= r <= 30
  {
  }

  lemma ReturnPart(chart: seq<Elem>, tokens: seq<Token>, i: int, t: Tables, p: Draft, e: Expr, j: int)
    requires 0 <= i && IsAt(chart, i) && 28 <= chart[i].rule <= 30 && p.ret.None?
    requires var c := ContextOf(chart, tokens, t, p.name); ReadExpr(c, i) == Ok((e, j)) && ExprType(c.env, e) == Int
    ensures ReadPart(chart, tokens, i, t, p) == Ok((t, p.(ret := Some(e)), j))
  {
    PartRules(chart[i].rule);
    hide RuleAt, ReadExpr, ReadBody, CollectDcls, CollectParams, ReadWainParams, ExprType;
  }

  lemma BodyPart(chart: seq<Elem>, tokens: seq<Token>, i: int, t: Tables, p: Draft, stmts: seq<Statement>, j: int)
    requires 0 <= i && IsAt(chart, i) && 15 <= chart[i].rule <= 16
    requires ReadBody(ContextOf(chart, tokens, t, p.name), i) == Ok((stmts, j))
    ensures ReadPart(chart, tokens, i, t, p) == Ok((t, p.(stmts := stmts + p.stmts), j))
  {
    PartRules(chart[i].rule);
    hide RuleAt, ReadExpr, ReadBody, CollectDcls, CollectParams, ReadWainParams;
  }

  lemma DclsPart(chart: seq<Elem>, tokens: seq<Token>, i: int, t: Tables, p: Draft, t': Tables, p': Draft, j: int)
    requires 0 <= i && IsAt(chart, i) && 11 <= chart[i].rule <= 13
    requires CollectDcls(chart, tokens, i, t, p.name, Some(p)) == Ok((t', Some(p'), j))
    ensures ReadPart(chart, tokens, i, t, p) == Ok((t', p', j))
  {
    PartRules(chart[i].rule);
    hide RuleAt, ReadExpr, ReadBody, CollectDcls, CollectParams, ReadWainParams;
  }

  lemma ParamsPart(chart: seq<Elem>, tokens: seq<Token>, i: int, t: Tables, p: Draft, t': Tables, p': Draft, j: int)
    requires 0 <= i && IsAt(chart, i) && 5 <= chart[i].rule <= 6
    requires CollectParams(chart, tokens, i, t, p.name, Some(p)) == Ok((t', Some(p'), j))
    ensures ReadPart(chart, tokens, i, t, p) == Ok((t', p', j))
  {
    PartRules(chart[i].rule);
    hide RuleAt, ReadExpr, ReadBody, CollectDcls, CollectParams, ReadWainParams;
  }

  lemma WainParamsAdded(p: Draft, d1: Dcl, d2: Dcl)
    requires p.params == [] && IsFresh(p, [d1, d2])
    ensures AddWainParams(p, d1, d2) == Ok(p.(params := [d1, d2]))
  {
    var ds := [d1, d2];
    assert ds[0].id != ds[1].id && !Declares(p, ds[0].id) && !Declares(p, ds[1].id);
    assert [] + [d1] == [d1] && [d1] + [d2] == ds;
  }

  lemma WainPart(chart: seq<Elem>, tokens: seq<Token>, i: int, t: Tables, p: Draft, d1: Dcl, d2: Dcl, j: int)
    requires 0 <= i && IsAt(chart, i) && chart[i].rule == 14 && p.name == "wain" && p.params == []
    requires ReadWainParams(chart, tokens, i) == Ok((d1, d2, j)) && IsFresh(p, [d1, d2])
    ensures ReadPart(chart, tokens, i, t, p) == Ok((AddAll(t, p.name, [d2, d1], false), p.(params := [d1, d2]), j))
  {
    PartRules(chart[i].rule);
    hide RuleAt, ReadExpr, ReadBody, CollectDcls, CollectParams, ReadWainParams;
    AddFirst(t, p.name, d2, [d1], false);
    AddFirst(AddDcl(t, p.name, d2), p.name, d1, [], false);
    AddNone(AddDcl(AddDcl(t, p.name, d2), p.name, d1), p.name, false);
    assert [d2] + [d1] == [d2, d1] && [d1] + [] == [d1];
    WainParamsAdded(p, d1, d2);
  }

  lemma OtherPart(chart: seq<Elem>, tokens: seq<Token>, i: int, t: Tables, p: Draft)
    requires 0 <= i && IsAt(chart, i) && p.ret.Some?
    requires Lhs(chart, i) !in {STATEMENTS, DCLS, DCL, PARAMS}
    ensures ReadPart(chart, tokens, i, t, p) == Ok((t, p, i - 1))
  {
    hide RuleAt, ReadExpr, ReadBody, CollectDcls, CollectParams, ReadWainParams;
  }

  /** Items the second pass has no use for once it has the result expression. */
  ghost predicate IsIdle(noise: seq<Elem>) {
    forall sym :: sym in {PROCEDURE, MAIN, STATEMENTS, DCLS, DCL, PARAMS} ==> Lacks(noise, sym)
  }

  lemma {:induction false} SecondPassSkips(chart: seq<Elem>, tokens: seq<Token>, i: int, xs: seq<Elem>,
                                           noise: seq<Elem>,
                                           t: Tables, p: Draft, done: seq<Draft>)
    requires ShowsIn(chart, i, xs + noise) && IsIdle(noise) && p.ret.Some?
    ensures ShowsIn(chart, |xs| - 1, xs)
    ensures SecondPass(chart, tokens, i, t, p, done) == SecondPass(chart, tokens, |xs| - 1, t, p, done)
    decreases |noise|
  {
    hide RuleAt, ReadPart;
    if noise == [] {
      assert xs + noise == xs;
    } else {
      var n := |noise| - 1;
      assert chart[..i + 1][..i] == chart[..i] == xs + noise[..n];
      assert chart[i] == chart[..i + 1][i] == noise[n];
      IdleItem(chart, i, noise);
      OtherPart(chart, tokens, i, t, p);
      SecondPassSkips(chart, tokens, i - 1, xs, noise[..n], t, p, done);
    }
  }

  lemma IdleItem(chart: seq<Elem>, i: int, noise: seq<Elem>)
    requires noise != [] && 0 <= i && IsAt(chart, i) && chart[i] == noise[|noise| - 1] && IsIdle(noise)
    ensures Lhs(chart, i) !in {PROCEDURE, MAIN, STATEMENTS, DCLS, DCL, PARAMS} && IsIdle(noise[..|noise| - 1])
  {
    hide RuleAt;
    assert Lacks(noise, PROCEDURE) && Lacks(noise, MAIN) && Lacks(noise, STATEMENTS);
    assert Lacks(noise, DCLS) && Lacks(noise, DCL) && Lacks(noise, PARAMS);
  }

  // ----- the tables during the second pass -----

  /** The tables hold the types of the first k procedures, which are still to come. */
  ghost predicate TablesHold(t: Tables, ps: seq<Procedure>, k: nat)
    requires k <= |ps|
  {
    && t.names == Names(ps)
    && t.arity == Arities(ps)
    && forall i :: 0 <= i < k ==> EnvAt(t, ps[i].name) == Collected(ps[i])
  }

  /** Adding declarations of procedure k again changes nothing for those before it. */
  lemma AddedAgain(t: Tables, ps: seq<Procedure>, k: nat, ds: seq<Dcl>)
    requires k < |ps| && TablesHold(t, ps, k) && forall i :: 0 <= i < k ==> ps[i].name != ps[k].name
    ensures TablesHold(AddAll(t, ps[k].name, ds, false), ps, k)
  {
    hide AddAll, Extend, Collected;
    AddAllAdds(t, ps[k].name, ds, false);
  }

  // ----- the parts of a procedure, when they are right -----

  lemma ResultIsBuilt(chart: seq<Elem>, tokens: seq<Token>, i: int, xs: seq<Elem>, e: Expr, at: nat, t: Tables,
                      q: Draft, done: seq<Draft>)
    requires ShowsIn(chart, i, xs + ExprItems(e, at, [])) && ExprSpelled(tokens, at, e) && ExprCallsFirst(e) &&
             q.ret.None?
    requires var c := ContextOf(chart, tokens, t, q.name); ExprHasType(c.env, e, Int) && ExprResolves(c, e)
    ensures ShowsIn(chart, |xs| - 1, xs) && IsAt(chart, i)
    ensures SecondPass(chart, tokens, i, t, q, done) == SecondPass(chart, tokens, |xs| - 1, t, q.(ret := Some(e)), done)
  {
    hide RuleAt, SecondPass, ReadPart, ReadExpr, ExprItems, ExprResidue, ExprHasType, ExprType, ExprResolves,
         ExprCallsFirst, ExprSpelled, Lacks;
    var c, items, residue := ContextOf(chart, tokens, t, q.name), ExprItems(e, at, []), ExprResidue(e, at, []);
    LacksNone();
    ExprReadBack(c, i, xs, e, Int, at, []);
    ExprTypeIsUnique(c.env, e, Int);
    ExprItemsEnd(e, at);
    LastItemIs(chart, i, xs + items, Done(ExprRule(e), at));
    var j := |xs + residue| - 1;
    ReturnPart(chart, tokens, i, t, q, e, j);
    PartStep(chart, tokens, i, t, q, done, t, q.(ret := Some(e)), j);
    forall sym | sym in {PROCEDURE, MAIN, STATEMENTS, DCLS, DCL, PARAMS}
      ensures Lacks(residue, sym)
    {
      NoneLacks(sym);
      ExprResidueLacks(c.env, e, Int, at, [], sym);
    }
    SecondPassSkips(chart, tokens, j, xs, residue, t, q.(ret := Some(e)), done);
  }

  lemma ExprItemsEnd(e: Expr, s: nat)
    ensures var items := ExprItems(e, s, []); items != [] && items[|items| - 1] == Done(ExprRule(e), s)
  {
    hide TermItems, ExprYield;
  }

  lemma StatementsAreBuilt(chart: seq<Elem>, tokens: seq<Token>, i: int, xs: seq<Elem>, stmts: seq<Statement>, at: nat,
                           t: Tables, q: Draft, done: seq<Draft>)
    requires ShowsIn(chart, i, xs + BodyItems(stmts, at)) &&
             BodyIsReadable(ContextOf(chart, tokens, t, q.name), at, stmts) && q.stmts == []
    ensures ShowsIn(chart, |xs| - 1, xs) && IsAt(chart, i)
    ensures SecondPass(chart, tokens, i, t, q, done) == SecondPass(chart, tokens, |xs| - 1, t, q.(stmts := stmts), done)
  {
    hide RuleAt, SecondPass, ReadPart, ReadBody, BodyItems, BodySpelled, StatementCallsFirst, BodyIsReadable;
    BodyReadBack(ContextOf(chart, tokens, t, q.name), i, xs, stmts, at);
    BodyItemsEnd(stmts, at);
    LastItemIs(chart, i, xs + BodyItems(stmts, at), Done(if stmts == [] then 15 else 16, at));
    assert stmts + q.stmts == stmts;
    BodyPart(chart, tokens, i, t, q, stmts, |xs| - 1);
    PartStep(chart, tokens, i, t, q, done, t, q.(stmts := stmts), |xs| - 1);
  }

  lemma BodyItemsEnd(stmts: seq<Statement>, s: nat)
    ensures var items := BodyItems(stmts, s);
            items != [] && items[|items| - 1] == Done(if stmts == [] then 15 else 16, s)
  {
    hide StatementItems, BodyYield;
  }

  lemma DclsAreBuilt(chart: seq<Elem>, tokens: seq<Token>, i: int, xs: seq<Elem>, ds: seq<Dcl>, at: nat, t: Tables,
                     q: Draft, done: seq<Draft>)
    requires ShowsIn(chart, i, xs + DclsItems(ds, at)) && DclsSpelled(tokens, at, ds) && HaveTypes(ds) &&
             q.dcls == [] && IsFresh(q, ds)
    ensures ShowsIn(chart, |xs| - 1, xs) && IsAt(chart, i)
    ensures SecondPass(chart, tokens, i, t, q, done) ==
            SecondPass(chart, tokens, |xs| - 1, AddAll(t, q.name, Reversed(ds), false), q.(dcls := Reversed(Taken(ds))),
                       done)
  {
    hide RuleAt, SecondPass, ReadPart, CollectDcls, DclsSpelled, Reversed, AddAll, DclsItems, IsFresh;
    var t' := AddAll(t, q.name, Reversed(ds), false);
    DclsAreCollected(chart, tokens, i, xs, ds, at, t, q.name, Some(q));
    WithKeeps(Some(q), Reversed(Taken(ds)));
    assert [] + Reversed(Taken(ds)) == Reversed(Taken(ds));
    DclsItemsEnd(ds, at);
    LastItemIs(chart, i, xs + DclsItems(ds, at), DclsItems(ds, at)[|DclsItems(ds, at)| - 1]);
    DclsPart(chart, tokens, i, t, q, t', q.(dcls := Reversed(Taken(ds))), |xs| - 1);
    PartStep(chart, tokens, i, t, q, done, t', q.(dcls := Reversed(Taken(ds))), |xs| - 1);
  }

  lemma DclsItemsEnd(ds: seq<Dcl>, s: nat)
    ensures var items := DclsItems(ds, s); items != [] && 11 <= items[|items| - 1].rule <= 13
  {
    hide DclsYield, DclItems;
  }

  /** The parameters are taken in reverse, except those of wain. */
  lemma HeaderIsBuilt(chart: seq<Elem>, tokens: seq<Token>, i: int, xs: seq<Elem>, p: Procedure, s: nat, t: Tables,
                      q: Draft, done: seq<Draft>)
    requires ShowsIn(chart, i, xs + HeaderItems(p, s)) && ParamsSpelled(tokens, s, p.params) && IsShaped(p) &&
             WainTakesInt(p)
    requires q.name == p.name && q.params == [] && IsFresh(q, p.params)
    ensures ShowsIn(chart, |xs| - 1, xs) && IsAt(chart, i)
    ensures SecondPass(chart, tokens, i, t, q, done) ==
            SecondPass(chart, tokens, |xs| - 1, AddAll(t, p.name, Reversed(p.params), false),
                       q.(params := Built(p).params), done)
  {
    hide RuleAt, SecondPass, ReadPart, CollectParams, ReadWainParams, ParamsSpelled, AddAll, IsFresh, LastParamAt,
         ParamsItems, DclItems;
    var ds, t' := p.params, AddAll(t, p.name, Reversed(p.params), false);
    assert HaveTypes(ds) && HaveNoValues(ds);
    HeaderItemsEnd(p, s);
    LastItemIs(chart, i, xs + HeaderItems(p, s), HeaderItems(p, s)[|HeaderItems(p, s)| - 1]);
    if p.name == "wain" {
      assert xs + HeaderItems(p, s) == xs + DclItems(ds[0], s) + DclItems(ds[1], LastParamAt(ds, s));
      WainParamsReadBack(chart, tokens, i, xs, ds, s);
      assert Reversed(ds) == [ds[1], ds[0]] && [ds[0], ds[1]] == ds;
      WainPart(chart, tokens, i, t, q, ds[0], ds[1], |xs| - 1);
    } else {
      ParamsAreCollected(chart, tokens, i, xs, ds, s, t, p.name, Some(q));
      WithKeeps(Some(q), Reversed(ds));
      assert [] + Reversed(ds) == Reversed(ds);
      ParamsPart(chart, tokens, i, t, q, t', q.(params := Reversed(ds)), |xs| - 1);
    }
    PartStep(chart, tokens, i, t, q, done, t', q.(params := Built(p).params), |xs| - 1);
  }

  lemma HeaderItemsEnd(p: Procedure, s: nat)
    requires p.name == "wain" ==> |p.params| == 2
    ensures var items := HeaderItems(p, s);
            && items != []
            && var r := items[|items| - 1].rule; if p.name == "wain" then r == 14 else 5 <= r <= 6
  {
    hide LastParamAt, ListEnds;
  }

  lemma DistinctParts(xs: seq<Dcl>, ys: seq<Dcl>)
    requires DistinctIds(xs + ys)
    ensures DistinctIds(xs) && DistinctIds(ys)
    ensures forall i, j :: 0 <= i < |xs| && 0 <= j < |ys| ==> xs[i].id != ys[j].id
  {
    forall i, j | 0 <= i < |xs| && 0 <= j < |ys|
      ensures xs[i].id != ys[j].id
    {
      assert (xs + ys)[i] == xs[i] && (xs + ys)[|xs| + j] == ys[j];
    }
    assert forall i :: 0 <= i < |xs| ==> (xs + ys)[i] == xs[i];
    forall i, j | 0 <= i < j < |ys|
      ensures ys[i].id != ys[j].id
    {
      assert (xs + ys)[|xs| + i] == ys[i] && (xs + ys)[|xs| + j] == ys[j];
    }
  }

  /** The names of a procedure are fresh for its draft, part by part, if and only if they are distinct. */
  lemma FreshParts(p: Procedure, q: Draft)
    requires q.params == [] && q.dcls == []
    ensures DistinctIds(p.params + p.dcls) <==>
            IsFresh(q, p.dcls) && IsFresh(q.(dcls := Reversed(Taken(p.dcls))), p.params)
  {
    var q', all := q.(dcls := Reversed(Taken(p.dcls))), p.params + p.dcls;
    ReversedAt(Taken(p.dcls));
    hide Reversed;
    assert |q'.dcls| == |p.dcls| && forall i :: 0 <= i < |q'.dcls| ==> q'.dcls[i] == AsTaken(p.dcls[|q'.dcls| - 1 - i]);
    if DistinctIds(all) {
      DistinctParts(p.params, p.dcls);
    }
    if IsFresh(q, p.dcls) && IsFresh(q', p.params) {
      forall i, j | 0 <= i < j < |all|
        ensures all[i].id != all[j].id
      {
        if i < |p.params| <= j {
          assert !Declares(q', p.params[i].id);
          assert q'.dcls[|p.dcls| - 1 - (j - |p.params|)] == AsTaken(all[j]);
        }
      }
    }
  }

  /** A procedure whose names are distinct and whose body is typed by the types collected for it. */
  ghost predicate IsRight(c: Context, p: Procedure) {
    DistinctIds(p.params + p.dcls) && IsTyped(c, p)
  }

  lemma ContextFits(chart: seq<Elem>, tokens: seq<Token>, ps: seq<Procedure>, k: nat, t: Tables)
    requires k < |ps| && TablesHold(t, ps, k + 1) && DistinctIds(ps[k].params + ps[k].dcls)
    ensures ContextOf(chart, tokens, t, ps[k].name) == ProgramContext(chart, tokens, ps, ps[k])
  {
    CollectedIsEnv(ps[k]);
    hide Collected, EnvOf;
  }

  // ----- declarations are only taken if their names are fresh -----

  lemma DclsOnlyIf(chart: seq<Elem>, tokens: seq<Token>, i: int, xs: seq<Elem>, ds: seq<Dcl>, at: nat, t: Tables,
                   q: Draft, done: seq<Draft>)
    requires ShowsIn(chart, i, xs + DclsItems(ds, at)) && DclsSpelled(tokens, at, ds) && HaveTypes(ds) && IsAt(chart, i)
    requires SecondPass(chart, tokens, i, t, q, done).Ok?
    ensures IsFresh(q, ds)
  {
    hide DclsItems, DclsSpelled, ReadExpr, ReadBody, ExprType, IsFresh;
    DclsItemsEnd(ds, at);
    LastItemIs(chart, i, xs + DclsItems(ds, at), DclsItems(ds, at)[|DclsItems(ds, at)| - 1]);
    PartRules(chart[i].rule);
    hide RuleAt, CollectDcls, CollectParams, ReadWainParams;
    DclsAreFresh(chart, tokens, i, xs, ds, at, t, q.name, q);
  }

  lemma HeaderOnlyIf(chart: seq<Elem>, tokens: seq<Token>, i: int, xs: seq<Elem>, p: Procedure, s: nat, t: Tables,
                     q: Draft, done: seq<Draft>)
    requires ShowsIn(chart, i, xs + HeaderItems(p, s)) && ParamsSpelled(tokens, s, p.params) && IsShaped(p) &&
             WainTakesInt(p)
    requires q.name == p.name && q.params == [] && IsAt(chart, i) && SecondPass(chart, tokens, i, t, q, done).Ok?
    ensures IsFresh(q, p.params)
  {
    hide ParamsItems, DclItems, ParamsSpelled, ReadExpr, ReadBody, ExprType, LastParamAt;
    var ds := p.params;
    assert HaveTypes(ds) && HaveNoValues(ds);
    HeaderItemsEnd(p, s);
    LastItemIs(chart, i, xs + HeaderItems(p, s), HeaderItems(p, s)[|HeaderItems(p, s)| - 1]);
    PartRules(chart[i].rule);
    hide RuleAt, CollectDcls, CollectParams, ReadWainParams;
    if p.name == "wain" {
      assert xs + HeaderItems(p, s) == xs + DclItems(ds[0], s) + DclItems(ds[1], LastParamAt(ds, s));
      WainParamsReadBack(chart, tokens, i, xs, ds, s);
      WainNamesAreFresh(q, ds);
    } else {
      ParamsAreFresh(chart, tokens, i, xs, ds, s, t, q.name, q);
    }
  }

  lemma WainNamesAreFresh(q: Draft, ds: seq<Dcl>)
    requires |ds| == 2 && q.params == [] && AddWainParams(q, ds[0], ds[1]).Ok?
    ensures IsFresh(q, ds)
  {
    var q' := AddParam(q, ds[0]).value;
    assert !Declares(q, ds[0].id) && !Declares(q', ds[1].id) && q'.params[0] == ds[0];
  }

  // ----- a whole procedure -----

  /** The draft of a procedure whose result, then statements, then declarations have been read. */
  function Empty(p: Procedure): Draft {
    Draft(p.name, [], [], [], None)
  }

  function WithResult(p: Procedure): Draft {
    Empty(p).(ret := Some(p.ret))
  }

  function WithBody(p: Procedure): Draft {
    WithResult(p).(stmts := p.stmts)
  }

  /** The chart just below the item of the procedure. */
  ghost predicate ShowsInside(chart: seq<Elem>, i: int, xs: seq<Elem>, p: Procedure, s: nat) {
    ShowsIn(chart, i,
            (((xs + HeaderItems(p, s + 3)) + DclsItems(p.dcls, DclsAt(p, s))) + BodyItems(p.stmts, BodyStart(p, s))) +
                      ExprItems(p.ret, ReturnAt(p, s), []))
  }

  /** Result and statements are built when they are typed. */
  lemma BodyIsBuilt(chart: seq<Elem>, tokens: seq<Token>, i: int, xs: seq<Elem>, p: Procedure, s: nat, t: Tables,
                    done: seq<Draft>)
    requires ShowsInside(chart, i, xs, p, s) && ProcedureSpelled(tokens, s, p) && HasCallsFirst(p)
    requires IsTyped(ContextOf(chart, tokens, t, p.name), p)
    ensures var below := (xs + HeaderItems(p, s + 3)) + DclsItems(p.dcls, DclsAt(p, s));
            && ShowsIn(chart, |below| - 1, below) && IsAt(chart, i)
            && SecondPass(chart, tokens, i, t, Empty(p), done) ==
               SecondPass(chart, tokens, |below| - 1, t, WithBody(p), done)
  {
    hide SecondPass, HeaderItems, DclsItems, BodyItems, ExprItems, ShowsIn, DclsSpelled, BodySpelled, ExprSpelled,
         ParamsSpelled, DclsAt, BodyStart, ReturnAt, StatementCallsFirst, ExprCallsFirst, ExprHasType, ExprResolves,
         BodyIsSound, ContextOf;
    var below := (xs + HeaderItems(p, s + 3)) + DclsItems(p.dcls, DclsAt(p, s));
    var b := BodyItems(p.stmts, BodyStart(p, s));
    SpelledIn(chart, tokens, t, s, p);
    ResultIsBuilt(chart, tokens, i, below + b, p.ret, ReturnAt(p, s), t, Empty(p), done);
    StatementsAreBuilt(chart, tokens, |below + b| - 1, below, p.stmts, BodyStart(p, s), t, WithResult(p), done);
  }

  lemma SpelledIn(chart: seq<Elem>, tokens: seq<Token>, t: Tables, s: nat, p: Procedure)
    requires ProcedureSpelled(tokens, s, p)
    ensures var c := ContextOf(chart, tokens, t, p.name);
            ExprSpelled(c.tokens, ReturnAt(p, s), p.ret) && BodySpelled(c.tokens, BodyStart(p, s), p.stmts)
  {
    hide ExprSpelled, BodySpelled, DclsSpelled, ParamsSpelled;
  }

  /** The tables after the second pass has met a procedure. */
  function MetAgain(t: Tables, p: Procedure): Tables {
    AddAll(AddAll(t, p.name, Reversed(p.dcls), false), p.name, Reversed(p.params), false)
  }

  /** Declarations and parameters, for any draft: they are taken if and only if their names are distinct. */
  lemma NamesAreTaken(chart: seq<Elem>, tokens: seq<Token>, i: int, xs: seq<Elem>, p: Procedure, s: nat, t: Tables,
                      q: Draft, done: seq<Draft>)
    requires ShowsIn(chart, i, (xs + HeaderItems(p, s + 3)) + DclsItems(p.dcls, DclsAt(p, s))) && IsAt(chart, i)
    requires ProcedureSpelled(tokens, s, p) && IsShaped(p) && WainTakesInt(p)
    requires q.name == p.name && q.params == [] && q.dcls == []
    ensures SecondPass(chart, tokens, i, t, q, done).Ok? ==> DistinctIds(p.params + p.dcls)
    ensures DistinctIds(p.params + p.dcls) ==>
              && ShowsIn(chart, |xs| - 1, xs) && IsAt(chart, |xs| - 1)
              && SecondPass(chart, tokens, i, t, q, done) ==
                 SecondPass(chart, tokens, |xs| - 1, MetAgain(t, p),
                            q.(dcls := Built(p).dcls, params := Built(p).params), done)
  {
    hide SecondPass, HeaderItems, DclsItems, ShowsIn, DclsSpelled, BodySpelled, ExprSpelled, ParamsSpelled, DclsAt,
         BodyStart, ReturnAt, DistinctIds, IsFresh, AddAll, Reversed, WainTakesInt, Taken;
    var h, q' := HeaderItems(p, s + 3), q.(dcls := Reversed(Taken(p.dcls)));
    var t' := AddAll(t, p.name, Reversed(p.dcls), false);
    FreshParts(p, q);
    if SecondPass(chart, tokens, i, t, q, done).Ok? {
      DclsOnlyIf(chart, tokens, i, xs + h, p.dcls, DclsAt(p, s), t, q, done);
    }
    if IsFresh(q, p.dcls) {
      DclsAreBuilt(chart, tokens, i, xs + h, p.dcls, DclsAt(p, s), t, q, done);
      AtEnd(chart, |xs + h| - 1, xs + h);
      if SecondPass(chart, tokens, |xs + h| - 1, t', q', done).Ok? {
        HeaderOnlyIf(chart, tokens, |xs + h| - 1, xs, p, s + 3, t', q', done);
      }
      if IsFresh(q', p.params) {
        HeaderIsBuilt(chart, tokens, |xs + h| - 1, xs, p, s + 3, t', q', done);
        AtEnd(chart, |xs| - 1, xs);
      }
    }
  }

  lemma ProcedureIsBuilt(chart: seq<Elem>, tokens: seq<Token>, i: int, xs: seq<Elem>, p: Procedure, s: nat, t: Tables,
                         done: seq<Draft>)
    requires ShowsInside(chart, i, xs, p, s) && ProcedureSpelled(tokens, s, p) && HasCallsFirst(p) && IsShaped(p) &&
             WainTakesInt(p)
    requires IsRight(ContextOf(chart, tokens, t, p.name), p)
    ensures ShowsIn(chart, |xs| - 1, xs) && IsAt(chart, i)
    ensures SecondPass(chart, tokens, i, t, Empty(p), done) ==
            SecondPass(chart, tokens, |xs| - 1, MetAgain(t, p), Built(p), done)
  {
    hide SecondPass, HeaderItems, DclsItems, ShowsIn, ShowsInside, ProcedureSpelled, HasCallsFirst, IsTyped, IsShaped,
         WainTakesInt, DistinctIds, DclsAt, MetAgain;
    var below := (xs + HeaderItems(p, s + 3)) + DclsItems(p.dcls, DclsAt(p, s));
    BodyIsBuilt(chart, tokens, i, xs, p, s, t, done);
    AtEnd(chart, |below| - 1, below);
    NamesAreTaken(chart, tokens, |below| - 1, xs, p, s, t, WithBody(p), done);
  }

  lemma AtEnd(chart: seq<Elem>, i: int, xs: seq<Elem>)
    requires ShowsIn(chart, i, xs)
    ensures IsAt(chart, i)
  {
  }

  // ----- the whole program -----

  lemma BuiltFrom(ps: seq<Procedure>, k: nat)
    requires k < |ps|
    ensures |AllBuilt(ps)| == |ps| && [Built(ps[k])] + AllBuilt(ps)[k + 1..] == AllBuilt(ps)[k..]
  {
    hide Built;
  }

  lemma SecondPassEnds(chart: seq<Elem>, tokens: seq<Token>, i: int, t: Tables, p: Draft, done: seq<Draft>)
    requires ShowsIn(chart, i, [])
    ensures IsAt(chart, i) && SecondPass(chart, tokens, i, t, p, done) == Ok([p] + done)
  {
  }

  lemma SecondPassNames(chart: seq<Elem>, tokens: seq<Token>, i: int, t: Tables, p: Draft, done: seq<Draft>,
                        name: string, s: nat)
    requires 0 <= i && IsAt(chart, i) && chart[i] == Done(ProcedureRule(name), s) && Spells(tokens, s + 1, name)
    ensures SecondPass(chart, tokens, i, t, p, done) ==
            SecondPass(chart, tokens, i - 1, t, Draft(name, [], [], [], None), [p] + done)
  {
    HeaderRules();
    hide RuleAt, ReadPart;
  }

  /** The item of a procedure, and the chart below it. */
  lemma EnterProcedure(chart: seq<Elem>, i: int, xs: seq<Elem>, p: Procedure, s: nat)
    requires ShowsIn(chart, i, xs + ProcedureItems(p, s))
    ensures 0 <= i && IsAt(chart, i) && chart[i] == Done(ProcedureRule(p.name), s) &&
            ShowsInside(chart, i - 1, xs, p, s)
  {
    hide HeaderItems, DclsItems, BodyItems, ExprItems, DclsAt, BodyStart, ReturnAt, ShowsIn;
    var h, d := HeaderItems(p, s + 3), DclsItems(p.dcls, DclsAt(p, s));
    var b, e := BodyItems(p.stmts, BodyStart(p, s)), ExprItems(p.ret, ReturnAt(p, s), []);
    assert xs + ProcedureItems(p, s) == ((((xs + h) + d) + b) + e) + [Done(ProcedureRule(p.name), s)];
    TopShowsIn(chart, i, (((xs + h) + d) + b) + e, ProcedureRule(p.name), s);
  }

  /** The first k procedures have distinct names inside and typed bodies. */
  ghost predicate RightBelow(chart: seq<Elem>, tokens: seq<Token>, ps: seq<Procedure>, k: nat)
    requires k <= |ps|
  {
    forall j :: 0 <= j < k ==> IsRight(ProgramContext(chart, tokens, ps, ps[j]), ps[j])
  }

  /** What the grammar and the order of calls give. */
  predicate IsReadable(ps: seq<Procedure>) {
    forall j :: 0 <= j < |ps| ==> IsShaped(ps[j]) && HasCallsFirst(ps[j])
  }

  lemma SameContext(chart: seq<Elem>, tokens: seq<Token>, ps: seq<Procedure>, k: nat, t: Tables)
    requires k < |ps| && TablesHold(t, ps, k + 1)
    ensures IsRight(ContextOf(chart, tokens, t, ps[k].name), ps[k]) <==>
            IsRight(ProgramContext(chart, tokens, ps, ps[k]), ps[k])
  {
    hide IsTyped, ContextOf, ProgramContext, TablesHold, DistinctIds;
    if DistinctIds(ps[k].params + ps[k].dcls) {
      ContextFits(chart, tokens, ps, k, t);
    }
  }

  lemma MetAgainHolds(t: Tables, ps: seq<Procedure>, k: nat)
    requires k < |ps| && DistinctNames(ps) && TablesHold(t, ps, k + 1)
    ensures TablesHold(MetAgain(t, ps[k]), ps, k)
  {
    hide AddAll, Reversed, Collected;
    AddedAgain(t, ps, k, Reversed(ps[k].dcls));
    AddedAgain(AddAll(t, ps[k].name, Reversed(ps[k].dcls), false), ps, k, Reversed(ps[k].params));
  }

  lemma ReadableUpTo(ps: seq<Procedure>, k: nat)
    requires k < |ps| && IsReadable(ps[..k + 1])
    ensures IsShaped(ps[k]) && HasCallsFirst(ps[k]) && IsReadable(ps[..k])
  {
    hide IsShaped, HasCallsFirst;
    assert ps[..k + 1][k] == ps[k] && forall j :: 0 <= j < k ==> ps[..k + 1][j] == ps[..k][j];
  }

  /** Inside procedure k, with those after it done: all are given back when the first k + 1 are right. */
  lemma {:induction false} ProceduresAreBuilt(chart: seq<Elem>, tokens: seq<Token>, ps: seq<Procedure>, k: nat, i: int,
                                             t: Tables, done: seq<Draft>)
    requires k < |ps| == |AllBuilt(ps)| && done == AllBuilt(ps)[k + 1..] && ProgramSpelled(tokens, ps[..k + 1])
    requires ShowsInside(chart, i, ProgramItems(ps[..k]), ps[k], |ProgramYield(ps[..k])|) && IsAt(chart, i)
    requires TablesHold(t, ps, k + 1) && NamesAreRight(ps) && IsReadable(ps[..k + 1])
    requires RightBelow(chart, tokens, ps, k + 1)
    ensures SecondPass(chart, tokens, i, t, Empty(ps[k]), done) == Ok(AllBuilt(ps))
    decreases k
  {
    hide RuleAt, SecondPass, TablesHold, IsShaped, HasCallsFirst, WainTakesInt, DistinctNames, IsRight, ShowsInside,
         ProgramItems, ProgramYield, ProgramSpelled, ProcedureSpelled, ProcedureItems, ProgramContext, ContextOf,
         MetAgain, Built, AllBuilt, Empty, Spells, ShowsIn;
    var p, xs, s := ps[k], ProgramItems(ps[..k]), |ProgramYield(ps[..k])|;
    assert IsShaped(p) && HasCallsFirst(p) && IsReadable(ps[..k]) by { ReadableUpTo(ps, k); }
    LastProcedure(tokens, ps, k + 1);
    SameContext(chart, tokens, ps, k, t);
    BuiltFrom(ps, k);
    ProcedureIsBuilt(chart, tokens, i, xs, p, s, t, done);
    MetAgainHolds(t, ps, k);
    AtEnd(chart, |xs| - 1, xs);
    BuiltBelow(chart, tokens, ps, k, |xs| - 1, MetAgain(t, p), done);
  }

  /** Below procedure k, which is finished. */
  lemma {:induction false} BuiltBelow(chart: seq<Elem>, tokens: seq<Token>, ps: seq<Procedure>, k: nat, i: int,
                                           t: Tables, done: seq<Draft>)
    requires k < |ps| == |AllBuilt(ps)| && done == AllBuilt(ps)[k + 1..] && ProgramSpelled(tokens, ps[..k])
    requires ShowsIn(chart, i, ProgramItems(ps[..k])) && IsAt(chart, i)
    requires TablesHold(t, ps, k) && NamesAreRight(ps) && IsReadable(ps[..k]) && RightBelow(chart, tokens, ps, k)
    ensures SecondPass(chart, tokens, i, t, Built(ps[k]), done) == Ok(AllBuilt(ps))
    decreases k, 0
  {
    hide RuleAt, SecondPass, TablesHold, IsShaped, HasCallsFirst, WainTakesInt, DistinctNames, IsRight, ShowsInside,
         ProgramItems, ProgramYield, ProgramSpelled, ProcedureSpelled, ProcedureItems, ProgramContext, Built, AllBuilt,
         Empty, Spells, ShowsIn;
    BuiltFrom(ps, k);
    if k == 0 {
      assert ps[..0] == [];
      NoItemsAtAll();
      SecondPassEnds(chart, tokens, i, t, Built(ps[0]), done);
      assert AllBuilt(ps)[0..] == AllBuilt(ps);
    } else {
      var xs, s := ProgramItems(ps[..k - 1]), |ProgramYield(ps[..k - 1])|;
      LastProcedure(tokens, ps, k);
      EnterProcedure(chart, i, xs, ps[k - 1], s);
      SecondPassNames(chart, tokens, i, t, Built(ps[k]), done, ps[k - 1].name, s);
      EmptyIs(ps[k - 1]);
      InsideIsAt(chart, i - 1, xs, ps[k - 1], s);
      ProceduresAreBuilt(chart, tokens, ps, k - 1, i - 1, t, AllBuilt(ps)[k..]);
    }
  }

  lemma EmptyIs(p: Procedure)
    ensures Empty(p) == Draft(p.name, [], [], [], None)
  {
  }

  lemma InsideIsAt(chart: seq<Elem>, i: int, xs: seq<Elem>, p: Procedure, s: nat)
    requires ShowsInside(chart, i, xs, p, s)
    ensures IsAt(chart, i)
  {
    hide HeaderItems, DclsItems, BodyItems, ExprItems, DclsAt, BodyStart, ReturnAt;
  }

  /** The parser gives back every well-formed program. */
  lemma ProgramReadsBack(chart: seq<Elem>, tokens: seq<Token>, ps: seq<Procedure>)
    requires chart == ProgramItems(ps) && ProgramSpelled(tokens, ps) && IsProgram(chart, tokens, ps)
    ensures IsChart(chart) && Parse(chart, tokens) == Ok(AllBuilt(ps))
  {
    hide *;
    ProgramMeans(chart, tokens, ps);
    ShapedAnyway(ps);
    FirstPassReadsNames(chart, tokens, ps);
    RightIsBuilt(chart, tokens, ps);
  }

  lemma ShapedAnyway(ps: seq<Procedure>)
    requires IsReadable(ps)
    ensures forall j :: 0 <= j < |ps| ==> IsShaped(ps[j])
  {
    hide IsShaped, HasCallsFirst;
  }

  lemma RightIsBuilt(chart: seq<Elem>, tokens: seq<Token>, ps: seq<Procedure>)
    requires chart == ProgramItems(ps) && ps != [] && ProgramSpelled(tokens, ps) && IsReadable(ps)
    requires NamesAreRight(ps) && RightBelow(chart, tokens, ps, |ps|)
    requires IsAt(chart, |chart| - 1) && FirstPass(chart, tokens, |chart| - 1, "", NO_TABLES).Ok?
    requires TablesFit(FirstPass(chart, tokens, |chart| - 1, "", NO_TABLES).value, ps)
    ensures IsChart(chart) && Parse(chart, tokens) == Ok(AllBuilt(ps))
  {
    hide RuleAt, SecondPass, FirstPass, FromLast, TablesFit, TablesHold, IsShaped, HasCallsFirst, IsRight, ShowsInside,
         ProcedureItems, ProgramItems, ProgramSpelled, ProgramYield, ProgramContext, Built, AllBuilt, NamesAreRight,
         RightBelow, Spells, Empty, Parse;
    var n, k := |chart| - 1, |ps| - 1;
    var t := FirstPass(chart, tokens, n, "", NO_TABLES).value;
    assert chart[..|chart|] == chart && ps[..|ps|] == ps;
    var xs, s := ProgramItems(ps[..k]), |ProgramYield(ps[..k])|;
    LastProcedure(tokens, ps, |ps|);
    EnterProcedure(chart, n, xs, ps[k], s);
    BuiltFrom(ps, k);
    assert AllBuilt(ps)[k + 1..] == [];
    FitHolds(t, ps);
    InsideIsAt(chart, n - 1, xs, ps[k], s);
    ParseStarts(chart, tokens, t, ps[k], s);
    ProceduresAreBuilt(chart, tokens, ps, k, n - 1, t, []);
  }

  lemma FitHolds(t: Tables, ps: seq<Procedure>)
    requires TablesFit(t, ps)
    ensures TablesHold(t, ps, |ps|)
  {
    hide Collected, Names, Arities;
  }

  lemma ProgramMeans(chart: seq<Elem>, tokens: seq<Token>, ps: seq<Procedure>)
    ensures IsProgram(chart, tokens, ps) <==>
            ps != [] && IsReadable(ps) && NamesAreRight(ps) && RightBelow(chart, tokens, ps, |ps|)
  {
    hide IsShaped, HasCallsFirst, IsTyped, ProgramContext, WainTakesInt, DistinctIds, DistinctNames;
  }

  lemma ParseStarts(chart: seq<Elem>, tokens: seq<Token>, t: Tables, p: Procedure, s: nat)
    requires IsChart(chart) && chart != [] && FirstPass(chart, tokens, |chart| - 1, "", NO_TABLES) == Ok(t)
    requires chart[|chart| - 1] == Done(ProcedureRule(p.name), s) && Spells(tokens, s + 1, p.name)
    ensures Parse(chart, tokens) == SecondPass(chart, tokens, |chart| - 2, t, Empty(p), [])
  {
    HeaderRules();
    hide RuleAt, SecondPass, FirstPass;
  }
}
