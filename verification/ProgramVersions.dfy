/** What the parser makes of any program: it refuses it, or builds of each procedure a version that has its declarations
    and statements of the same kinds, typed and resolved in the types of its own declarations. */
module ProgramVersions {
  import opened Options
  import opened Symbols
  import opened Tokens
  import opened Earley
  import opened Wlp4Grammar
  import opened Ast
  import opened Types
  import opened Yields
  import opened Items
  import opened Procedures
  import opened Reading
  import opened Checking
  import opened ReadBack
  import opened ReadStatements
  import opened Passes
  import opened Programs
  import opened ReadDeclarations
  import opened ReadNames
  import opened ProgramReadBack
  import opened Staying
  import opened Refusals
  import opened Versions

  // ----- the parts of a procedure -----

  lemma PartBack(chart: seq<Elem>, tokens: seq<Token>, i: int, t: Tables, p: Draft, done: seq<Draft>)
    requires 0 <= i && IsAt(chart, i) && 5 <= chart[i].rule && SecondPass(chart, tokens, i, t, p, done).Ok?
    ensures ReadPart(chart, tokens, i, t, p).Ok?
    ensures var (t', p', j) := ReadPart(chart, tokens, i, t, p).value;
            SecondPass(chart, tokens, i, t, p, done) == SecondPass(chart, tokens, j, t', p', done)
  {
    PartRules(chart[i].rule);
    hide RuleAt, ReadPart;
  }

  lemma ReturnBack(chart: seq<Elem>, tokens: seq<Token>, i: int, t: Tables, p: Draft)
    requires 0 <= i && IsAt(chart, i) && 28 <= chart[i].rule <= 30 && p.ret.None?
    requires ReadPart(chart, tokens, i, t, p).Ok?
    ensures var c := ContextOf(chart, tokens, t, p.name);
            && ReadExpr(c, i).Ok? && ExprType(c.env, ReadExpr(c, i).value.0) == Int
            && ReadPart(chart, tokens, i, t, p).value ==
               (t, p.(ret := Some(ReadExpr(c, i).value.0)), ReadExpr(c, i).value.1)
  {
    PartRules(chart[i].rule);
    hide RuleAt, ReadExpr, ReadBody, CollectDcls, CollectParams, ReadWainParams, ExprType;
  }

  lemma BodyBack(chart: seq<Elem>, tokens: seq<Token>, i: int, t: Tables, p: Draft)
    requires 0 <= i && IsAt(chart, i) && 15 <= chart[i].rule <= 16 && ReadPart(chart, tokens, i, t, p).Ok?
    ensures var c := ContextOf(chart, tokens, t, p.name);
            && ReadBody(c, i).Ok?
            && ReadPart(chart, tokens, i, t, p).value ==
               (t, p.(stmts := ReadBody(c, i).value.0 + p.stmts), ReadBody(c, i).value.1)
  {
    PartRules(chart[i].rule);
    hide RuleAt, ReadExpr, ReadBody, CollectDcls, CollectParams, ReadWainParams;
  }

  /** What is left of a result is passed over. */
  lemma RestIsSkipped(chart: seq<Elem>, tokens: seq<Token>, j: int, xs: seq<Elem>, t: Tables, p: Draft,
                      done: seq<Draft>)
    requires p.ret.Some? && StopsAbove(ContextOf(chart, tokens, t, p.name), j, xs)
    ensures ShowsIn(chart, |xs| - 1, xs) && IsAt(chart, j)
    ensures SecondPass(chart, tokens, j, t, p, done) == SecondPass(chart, tokens, |xs| - 1, t, p, done)
  {
    var noise := chart[|xs|..j + 1];
    assert chart[..j + 1] == xs + noise;
    forall m | 0 <= m < |noise|
      ensures noise[m].rule < 49 && RuleAt(noise[m].rule).lhs !in {PROCEDURE, MAIN, STATEMENTS, DCLS, DCL, PARAMS}
    {
      SideIsLhs(noise[m].rule);
    }
    hide RuleAt, SecondPass;
    SecondPassSkips(chart, tokens, j, xs, noise, t, p, done);
  }

  /** A result that is read is typed and resolved, and the one it comes from if calls come first. */
  lemma ResultIsRead(chart: seq<Elem>, tokens: seq<Token>, i: int, xs: seq<Elem>, e: Expr, at: nat, t: Tables,
                     q: Draft, done: seq<Draft>) returns (e': Expr)
    requires ShowsIn(chart, i, xs + ExprItems(e, at, [])) && IsAt(chart, i) && ExprSpelled(tokens, at, e)
    requires q.ret.None? && SecondPass(chart, tokens, i, t, q, done).Ok?
    ensures ShowsIn(chart, |xs| - 1, xs) && IsAt(chart, |xs| - 1)
    ensures SecondPass(chart, tokens, i, t, q, done) ==
            SecondPass(chart, tokens, |xs| - 1, t, q.(ret := Some(e')), done)
    ensures var c := ContextOf(chart, tokens, t, q.name); ExprHasType(c.env, e', Int) && ExprResolves(c, e')
    ensures ExprCallsFirst(e) ==> e' == e
  {
    hide RuleAt, SecondPass, ReadPart, ReadExpr, ExprItems, ExprResidue, ExprHasType, ExprType, ExprResolves,
         ExprCallsFirst, ExprSpelled, StopsAbove;
    var c := ContextOf(chart, tokens, t, q.name);
    ExprItemsEnd(e, at);
    LastItemIs(chart, i, xs + ExprItems(e, at, []), Done(ExprRule(e), at));
    PartBack(chart, tokens, i, t, q, done);
    ReturnBack(chart, tokens, i, t, q);
    e' := ReadExpr(c, i).value.0;
    var j := ReadExpr(c, i).value.1;
    ReadExprIsSound(c, i);
    ExprStopsAbove(c, i, xs, e, at);
    RestIsSkipped(chart, tokens, j, xs, t, q.(ret := Some(e')), done);
    if ExprCallsFirst(e) {
      LacksNone();
      ExprIsAnswered(c, i, xs, e, at, []);
    }
  }

  lemma StatementsAreRead(chart: seq<Elem>, tokens: seq<Token>, i: int, xs: seq<Elem>, stmts: seq<Statement>, at: nat,
                          t: Tables, q: Draft, done: seq<Draft>) returns (stmts': seq<Statement>)
    requires ShowsIn(chart, i, xs + BodyItems(stmts, at)) && IsAt(chart, i) && BodySpelled(tokens, at, stmts)
    requires q.stmts == [] && SecondPass(chart, tokens, i, t, q, done).Ok?
    ensures ShowsIn(chart, |xs| - 1, xs) && IsAt(chart, |xs| - 1)
    ensures SecondPass(chart, tokens, i, t, q, done) ==
            SecondPass(chart, tokens, |xs| - 1, t, q.(stmts := stmts'), done)
    ensures BodyIsSound(ContextOf(chart, tokens, t, q.name), stmts') && AreAlike(stmts, stmts')
  {
    hide RuleAt, SecondPass, ReadPart, ReadBody, BodyItems, BodySpelled, BodyIsSound, AreAlike;
    var c := ContextOf(chart, tokens, t, q.name);
    BodyItemsEnd(stmts, at);
    LastItemIs(chart, i, xs + BodyItems(stmts, at), Done(if stmts == [] then 15 else 16, at));
    PartBack(chart, tokens, i, t, q, done);
    BodyBack(chart, tokens, i, t, q);
    stmts' := ReadBody(c, i).value.0;
    assert stmts' + [] == stmts';
    ReadBodyIsSound(c, i);
    BodyIsRead(c, i, xs, stmts, at);
  }

  // ----- a whole procedure -----

  /** What the parser makes of a procedure: its declarations as always, statements of the same kinds and some result,
      typed and resolved in c; statements and a result in which calls come first are its own. */
  ghost predicate IsMadeOf(c: Context, p: Procedure, q: Draft) {
    && q.name == p.name && q.params == Built(p).params && q.dcls == Built(p).dcls
    && AreAlike(p.stmts, q.stmts) && BodyIsSound(c, q.stmts)
    && q.ret.Some? && ExprHasType(c.env, q.ret.value, Int) && ExprResolves(c, q.ret.value)
    && (ExprCallsFirst(p.ret) ==> q.ret.value == p.ret)
  }

  lemma ProcedureIsMade(chart: seq<Elem>, tokens: seq<Token>, i: int, xs: seq<Elem>, p: Procedure, s: nat, t: Tables,
                        done: seq<Draft>) returns (q: Draft)
    requires ShowsInside(chart, i, xs, p, s) && IsAt(chart, i) && ProcedureSpelled(tokens, s, p)
    requires IsShaped(p) && WainTakesInt(p) && SecondPass(chart, tokens, i, t, Empty(p), done).Ok?
    ensures ShowsIn(chart, |xs| - 1, xs) && IsAt(chart, |xs| - 1) && DistinctIds(p.params + p.dcls)
    ensures SecondPass(chart, tokens, i, t, Empty(p), done) ==
            SecondPass(chart, tokens, |xs| - 1, MetAgain(t, p), q, done)
    ensures IsMadeOf(ContextOf(chart, tokens, t, p.name), p, q)
  {
    hide SecondPass, HeaderItems, DclsItems, BodyItems, ExprItems, ShowsIn, DclsSpelled, BodySpelled, ExprSpelled,
         ParamsSpelled, DclsAt, BodyStart, ReturnAt, ExprCallsFirst, ExprHasType, ExprResolves, BodyIsSound, ContextOf,
         AreAlike, DistinctIds, WainTakesInt, MetAgain, Reversed, Taken;
    var below := (xs + HeaderItems(p, s + 3)) + DclsItems(p.dcls, DclsAt(p, s));
    var b := BodyItems(p.stmts, BodyStart(p, s));
    SpelledIn(chart, tokens, t, s, p);
    var e := ResultIsRead(chart, tokens, i, below + b, p.ret, ReturnAt(p, s), t, Empty(p), done);
    var q1 := Empty(p).(ret := Some(e));
    var stmts := StatementsAreRead(chart, tokens, |below + b| - 1, below, p.stmts, BodyStart(p, s), t, q1, done);
    var q2 := q1.(stmts := stmts);
    NamesAreTaken(chart, tokens, |below| - 1, xs, p, s, t, q2, done);
    q := q2.(dcls := Built(p).dcls, params := Built(p).params);
  }

  // ----- the whole program -----

  /** The drafts are made of the first k procedures, whose names are distinct inside. */
  ghost predicate AreMadeOf(chart: seq<Elem>, tokens: seq<Token>, ps: seq<Procedure>, k: nat, qs: seq<Draft>)
    requires k <= |ps|
  {
    && |qs| == k
    && forall j :: 0 <= j < k ==>
                     && DistinctIds(ps[j].params + ps[j].dcls)
                     && IsMadeOf(ProgramContext(chart, tokens, ps, ps[j]), ps[j], qs[j])
  }

  predicate AreShaped(ps: seq<Procedure>) {
    forall j :: 0 <= j < |ps| ==> IsShaped(ps[j])
  }

  lemma OneMoreMade(chart: seq<Elem>, tokens: seq<Token>, ps: seq<Procedure>, k: nat, t: Tables, qs: seq<Draft>,
                    q: Draft)
    requires k < |ps| && AreMadeOf(chart, tokens, ps, k, qs) && TablesHold(t, ps, k + 1)
    requires DistinctIds(ps[k].params + ps[k].dcls) && IsMadeOf(ContextOf(chart, tokens, t, ps[k].name), ps[k], q)
    ensures AreMadeOf(chart, tokens, ps, k + 1, qs + [q])
  {
    hide IsMadeOf, ContextOf, ProgramContext, TablesHold, DistinctIds;
    ContextFits(chart, tokens, ps, k, t);
  }

  /** Inside procedure k, with those after it done. */
  lemma {:induction false} ProceduresAreMade(chart: seq<Elem>, tokens: seq<Token>, ps: seq<Procedure>, k: nat, i: int,
                                             t: Tables, done: seq<Draft>) returns (qs: seq<Draft>)
    requires k < |ps| && ProgramSpelled(tokens, ps[..k + 1]) && AreShaped(ps) && NamesAreRight(ps)
    requires ShowsInside(chart, i, ProgramItems(ps[..k]), ps[k], |ProgramYield(ps[..k])|) && IsAt(chart, i)
    requires TablesHold(t, ps, k + 1) && SecondPass(chart, tokens, i, t, Empty(ps[k]), done).Ok?
    ensures AreMadeOf(chart, tokens, ps, k + 1, qs)
    ensures SecondPass(chart, tokens, i, t, Empty(ps[k]), done) == Ok(qs + done)
    decreases k
  {
    hide RuleAt, SecondPass, TablesHold, IsShaped, WainTakesInt, DistinctNames, ShowsInside, ProgramItems, ProgramYield,
         ProgramSpelled, ProcedureSpelled, ProcedureItems, ContextOf, MetAgain, Empty, Spells, ShowsIn, AreMadeOf,
         IsMadeOf, DistinctIds;
    var p, xs, s := ps[k], ProgramItems(ps[..k]), |ProgramYield(ps[..k])|;
    LastProcedure(tokens, ps, k + 1);
    var q := ProcedureIsMade(chart, tokens, i, xs, p, s, t, done);
    MetAgainHolds(t, ps, k);
    var front := ProceduresMadeBelow(chart, tokens, ps, k, |xs| - 1, MetAgain(t, p), q, done);
    OneMoreMade(chart, tokens, ps, k, t, front, q);
    qs := front + [q];
    assert front + ([q] + done) == qs + done;
  }

  /** Below procedure k, of which q is made. */
  lemma {:induction false} ProceduresMadeBelow(chart: seq<Elem>, tokens: seq<Token>, ps: seq<Procedure>, k: nat, i: int,
                                               t: Tables, q: Draft, done: seq<Draft>) returns (qs: seq<Draft>)
    requires k < |ps| && ProgramSpelled(tokens, ps[..k]) && AreShaped(ps) && NamesAreRight(ps)
    requires ShowsIn(chart, i, ProgramItems(ps[..k])) && IsAt(chart, i)
    requires TablesHold(t, ps, k) && SecondPass(chart, tokens, i, t, q, done).Ok?
    ensures AreMadeOf(chart, tokens, ps, k, qs)
    ensures SecondPass(chart, tokens, i, t, q, done) == Ok(qs + ([q] + done))
    decreases k, 0
  {
    hide RuleAt, SecondPass, TablesHold, IsShaped, WainTakesInt, DistinctNames, ShowsInside, ProgramItems, ProgramYield,
         ProgramSpelled, ProcedureSpelled, ProcedureItems, ContextOf, Empty, Spells, ShowsIn, IsMadeOf, DistinctIds;
    if k == 0 {
      assert ps[..0] == [];
      NoItemsAtAll();
      SecondPassEnds(chart, tokens, i, t, q, done);
      qs := [];
      assert [] + ([q] + done) == [q] + done;
    } else {
      var xs, s := ProgramItems(ps[..k - 1]), |ProgramYield(ps[..k - 1])|;
      LastProcedure(tokens, ps, k);
      EnterProcedure(chart, i, xs, ps[k - 1], s);
      SecondPassNames(chart, tokens, i, t, q, done, ps[k - 1].name, s);
      EmptyIs(ps[k - 1]);
      InsideIsAt(chart, i - 1, xs, ps[k - 1], s);
      qs := ProceduresAreMade(chart, tokens, ps, k - 1, i - 1, t, [q] + done);
    }
  }

  /** The drafts are those of a whole program, each made of its procedure and right in the types of that procedure's own
      declarations. */
  ghost predicate IsMadeOfAll(chart: seq<Elem>, tokens: seq<Token>, ps: seq<Procedure>, qs: seq<Draft>) {
    NamesAreRight(ps) && AreMadeOf(chart, tokens, ps, |ps|, qs)
  }

  /** Whatever program the parser accepts, calls first or not: names are declared once, wain takes an int, and what is
      built of each procedure is typed by the rules in the types of its own declarations, with all calls resolved. */
  lemma AcceptedIsRight(chart: seq<Elem>, tokens: seq<Token>, ps: seq<Procedure>)
    requires chart == ProgramItems(ps) && ps != [] && ProgramSpelled(tokens, ps) && AreShaped(ps)
    ensures IsChart(chart)
    ensures Parse(chart, tokens).Ok? ==> IsMadeOfAll(chart, tokens, ps, Parse(chart, tokens).value)
  {
    hide RuleAt, SecondPass, FirstPass, FromLast, TablesFit, TablesHold, IsShaped, ShowsInside, ProcedureItems,
         ProgramItems, ProgramSpelled, ProgramYield, NamesAreRight, AreMadeOf, Spells, Empty;
    FirstPassReadsNames(chart, tokens, ps);
    var n, k := |chart| - 1, |ps| - 1;
    if Parse(chart, tokens).Ok? {
      var t := FirstPass(chart, tokens, n, "", NO_TABLES).value;
      assert chart[..|chart|] == chart && ps[..|ps|] == ps;
      var xs, s := ProgramItems(ps[..k]), |ProgramYield(ps[..k])|;
      LastProcedure(tokens, ps, |ps|);
      EnterProcedure(chart, n, xs, ps[k], s);
      FitHolds(t, ps);
      InsideIsAt(chart, n - 1, xs, ps[k], s);
      ParseStarts(chart, tokens, t, ps[k], s);
      var qs := ProceduresAreMade(chart, tokens, ps, k, n - 1, t, []);
      assert qs + [] == qs;
    }
  }

  // ----- programs in which calls come first -----

  lemma MadeIsBuilt(c: Context, p: Procedure, q: Draft)
    requires HasCallsFirst(p) && IsMadeOf(c, p, q)
    ensures q == Built(p) && IsTyped(c, p)
  {
    hide Reversed, Taken, BodyIsSound, ExprHasType, ExprResolves, ExprCallsFirst, StatementCallsFirst, AreAlike;
    AllTheSame(p.stmts, q.stmts);
  }

  lemma AllAreBuilt(chart: seq<Elem>, tokens: seq<Token>, ps: seq<Procedure>, qs: seq<Draft>)
    requires ps != [] && IsReadable(ps) && IsMadeOfAll(chart, tokens, ps, qs)
    ensures qs == AllBuilt(ps) && IsProgram(chart, tokens, ps)
  {
    hide IsMadeOf, Built, IsTyped, HasCallsFirst, IsShaped, DistinctIds, WainTakesInt, ProgramContext;
    forall j | 0 <= j < |ps|
      ensures qs[j] == Built(ps[j]) && IsTyped(ProgramContext(chart, tokens, ps, ps[j]), ps[j])
    {
      MadeIsBuilt(ProgramContext(chart, tokens, ps, ps[j]), ps[j], qs[j]);
    }
  }

  /** The parser, given the items of a program in which calls come first, accepts it if and only if it is well-formed:
      names are declared once, wain takes an int, everything is typed by the rules and all calls resolve. It then gives
      back its procedures in source order, each with its statements, its result and its declarations. */
  lemma ProgramReadsExactly(chart: seq<Elem>, tokens: seq<Token>, ps: seq<Procedure>)
    requires chart == ProgramItems(ps) && ps != [] && ProgramSpelled(tokens, ps) && IsReadable(ps)
    ensures IsChart(chart)
    ensures Parse(chart, tokens).Ok? <==> IsProgram(chart, tokens, ps)
    ensures Parse(chart, tokens).Ok? ==> Parse(chart, tokens) == Ok(AllBuilt(ps))
  {
    assert AreShaped(ps) by { hide IsShaped, HasCallsFirst; }
    hide IsMadeOfAll, Parse, AllBuilt, IsProgram, IsReadable, ProgramItems, ProgramSpelled, AreShaped;
    AcceptedIsRight(chart, tokens, ps);
    if Parse(chart, tokens).Ok? {
      AllAreBuilt(chart, tokens, ps, Parse(chart, tokens).value);
    }
    if IsProgram(chart, tokens, ps) {
      ProgramReadsBack(chart, tokens, ps);
    }
  }
}
