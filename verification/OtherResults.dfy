/** Whole programs whose last result does not have its calls first: what the parser makes of them. */
module OtherResults {
  import opened Options
  import opened Symbols
  import opened Tokens
  import opened Earley
  import opened Wlp4Grammar
  import opened Ast
  import opened Types
  import opened Yields
  import opened Items
  import opened Procedures
  import opened Reading
  import opened Checking
  import opened ReadBack
  import ReadStatements
  import opened Passes
  import opened Programs
  import opened ReadDeclarations
  import opened ReadNames
  import opened ProgramReadBack
  import opened Miscalls
  import opened GivenBack

  // ----- the second pass, whatever is done -----

  /** The procedures that are done stay last. */
  lemma {:induction false} DoneStays(chart: seq<Elem>, tokens: seq<Token>, i: int, t: Tables, p: Draft,
                                     done: seq<Draft>)
    requires IsAt(chart, i)
    ensures SecondPass(chart, tokens, i, t, p, done) ==
            match SecondPass(chart, tokens, i, t, p, [])
            case Err(error) => Err(error)
            case Ok(ds) => Ok(ds + done)
    decreases i + 1
  {
    hide RuleAt, ReadPart;
    if i < 0 {
      assert [p] + [] == [p];
    } else if Lhs(chart, i) == PROCEDURE || Lhs(chart, i) == MAIN {
      var name := ValueAt(tokens, chart[i].start + 1);
      if name.Ok? {
        var q := Draft(name.value, [], [], [], None);
        DoneStays(chart, tokens, i - 1, t, q, [p] + done);
        DoneStays(chart, tokens, i - 1, t, q, [p] + []);
        assert forall ds: seq<Draft> :: ds + ([p] + done) == ds + ([p] + []) + done;
      }
    } else {
      var part := ReadPart(chart, tokens, i, t, p);
      if part.Ok? {
        DoneStays(chart, tokens, part.value.2, part.value.0, part.value.1, done);
      }
    }
  }

  /** A result that is read from the items of the expression, and leaves nothing the second pass looks at. */
  lemma ResultIsTaken(chart: seq<Elem>, tokens: seq<Token>, i: int, xs: seq<Elem>, e: Expr, at: nat, t: Tables,
                      q: Draft, done: seq<Draft>,
                      e': Expr, noise: seq<Elem>)
    requires ShowsIn(chart, i, xs + ExprItems(e, at, [])) && IsAt(chart, i) && q.ret.None?
    requires var c := ContextOf(chart, tokens, t, q.name);
             ReadExpr(c, i) == Ok((e', |xs + noise| - 1)) && ExprType(c.env, e') == Int
    requires ShowsIn(chart, |xs + noise| - 1, xs + noise) && IsIdle(noise)
    ensures ShowsIn(chart, |xs| - 1, xs)
    ensures SecondPass(chart, tokens, i, t, q, done) ==
            SecondPass(chart, tokens, |xs| - 1, t, q.(ret := Some(e')), done)
  {
    hide RuleAt, SecondPass, ReadPart, ReadExpr, ExprItems, ExprType, Lacks;
    ExprItemsEnd(e, at);
    LastItemIs(chart, i, xs + ExprItems(e, at, []), Done(ExprRule(e), at));
    var j := |xs + noise| - 1;
    ReturnPart(chart, tokens, i, t, q, e', j);
    PartStep(chart, tokens, i, t, q, done, t, q.(ret := Some(e')), j);
    SecondPassSkips(chart, tokens, j, xs, noise, t, q.(ret := Some(e')), done);
  }

  // ----- a program but for its last result -----

  /** All is right but for the result of procedure k, which is last. */
  ghost predicate IsRightButLast(chart: seq<Elem>, tokens: seq<Token>, ps: seq<Procedure>, k: nat)
    requires k < |ps|
  {
    && NamesAreRight(ps)
    && (forall j :: 0 <= j <= k ==> IsShaped(ps[j]))
    && IsReadable(ps[..k])
    && RightBelow(chart, tokens, ps, k)
    && (forall j :: 0 <= j < |ps[k].stmts| ==> StatementCallsFirst(ps[k].stmts[j]))
    && DistinctIds(ps[k].params + ps[k].dcls)
    && BodyIsSound(ProgramContext(chart, tokens, ps, ps[k]), ps[k].stmts)
  }

  /** The items below the statements of the last procedure. */
  function BelowStatements(ps: seq<Procedure>): seq<Elem>
    requires ps != []
  {
    var p, s := ps[|ps| - 1], |ProgramYield(ps[..|ps| - 1])|;
    (ProgramItems(ps[..|ps| - 1]) + HeaderItems(p, s + 3)) + DclsItems(p.dcls, DclsAt(p, s))
  }

  /** The items below the result of the last procedure. */
  function BelowResult(ps: seq<Procedure>): seq<Elem>
    requires ps != []
  {
    var p, s := ps[|ps| - 1], |ProgramYield(ps[..|ps| - 1])|;
    BelowStatements(ps) + BodyItems(p.stmts, BodyStart(p, s))
  }

  function ResultAt(ps: seq<Procedure>): nat
    requires ps != []
  {
    ReturnAt(ps[|ps| - 1], |ProgramYield(ps[..|ps| - 1])|)
  }

  /** The result of the last procedure is under the item of the procedure, which is last. */
  lemma ResultShows(chart: seq<Elem>, tokens: seq<Token>, ps: seq<Procedure>)
    requires chart == ProgramItems(ps) && ps != [] && ProgramSpelled(tokens, ps) && IsChart(chart)
    ensures var p, s := ps[|ps| - 1], |ProgramYield(ps[..|ps| - 1])|;
            && ShowsIn(chart, |chart| - 2, BelowResult(ps) + ExprItems(p.ret, ResultAt(ps), []))
            && |chart| > 0 && chart[|chart| - 1] == Done(ProcedureRule(p.name), s) && Spells(tokens, s + 1, p.name)
            && ProcedureSpelled(tokens, s, p) && ExprSpelled(tokens, ResultAt(ps), p.ret) && IsAt(chart, |chart| - 2)
  {
    var k := |ps| - 1;
    var p, s := ps[k], |ProgramYield(ps[..k])|;
    assert chart[..|chart|] == chart && ps[..|ps|] == ps;
    LastProcedure(tokens, ps, |ps|);
    EnterProcedure(chart, |chart| - 1, ProgramItems(ps[..k]), p, s);
    InsideIsAt(chart, |chart| - 2, ProgramItems(ps[..k]), p, s);
    hide HeaderItems, DclsItems, BodyItems, ExprItems, DclsAt, BodyStart, ParamsSpelled, DclsSpelled, BodySpelled,
         ExprSpelled, ProgramItems;
  }

  /** The procedures before the last one, which is finished as d. */
  lemma FrontIsBuilt(chart: seq<Elem>, tokens: seq<Token>, ps: seq<Procedure>, k: nat, i: int, t: Tables, d: Draft)
    requires k + 1 == |ps| && ShowsIn(chart, i, ProgramItems(ps[..k])) && ProgramSpelled(tokens, ps[..k])
    requires TablesHold(t, ps, k) && NamesAreRight(ps) && IsReadable(ps[..k]) && RightBelow(chart, tokens, ps, k)
    ensures IsAt(chart, i) && SecondPass(chart, tokens, i, t, d, []) == Ok(AllBuilt(ps)[..k] + [d])
  {
    hide RuleAt, SecondPass, TablesHold, NamesAreRight, ProgramItems, ProgramYield, ProgramSpelled, ProcedureSpelled,
         ProcedureItems, Built, Empty, Spells, ShowsIn, RightBelow, IsReadable, ShowsInside, AllBuilt;
    assert |AllBuilt(ps)| == |ps| by { BuiltFrom(ps, k); }
    AtEnd(chart, i, ProgramItems(ps[..k]));
    if k == 0 {
      assert ps[..0] == [];
      NoItemsAtAll();
      SecondPassEnds(chart, tokens, i, t, d, []);
      assert AllBuilt(ps)[..0] + [d] == [d] + [];
    } else {
      var xs, s := ProgramItems(ps[..k - 1]), |ProgramYield(ps[..k - 1])|;
      LastProcedure(tokens, ps, k);
      EnterProcedure(chart, i, xs, ps[k - 1], s);
      InsideIsAt(chart, i - 1, xs, ps[k - 1], s);
      EmptyIs(ps[k - 1]);
      var p, b := Empty(ps[k - 1]), Built(ps[k]);
      assert SecondPass(chart, tokens, i - 1, t, p, [b] + []) == Ok(AllBuilt(ps)) by {
        BuiltFrom(ps, k);
        assert AllBuilt(ps)[k..] == [b] + [] && ps[..k - 1 + 1] == ps[..k];
        ProceduresAreBuilt(chart, tokens, ps, k - 1, i - 1, t, AllBuilt(ps)[k..]);
      }
      SecondPassNames(chart, tokens, i, t, d, [], ps[k - 1].name, s);
      DoneStays(chart, tokens, i - 1, t, p, [b] + []);
      DoneStays(chart, tokens, i - 1, t, p, [d] + []);
      var ds := SecondPass(chart, tokens, i - 1, t, p, []).value;
      assert ds + ([b] + []) == AllBuilt(ps);
      assert AllBuilt(ps)[..k] == ds && ds + ([d] + []) == ds + [d];
    }
  }

  /** The second pass goes on the same way from both places. */
  ghost predicate GoesOn(chart: seq<Elem>, tokens: seq<Token>, t: Tables, i: int, q: Draft, j: int, q': Draft) {
    && IsAt(chart, i) && IsAt(chart, j)
    && SecondPass(chart, tokens, i, t, q, []) == SecondPass(chart, tokens, j, t, q', [])
  }

  /** The statements of the last procedure. */
  lemma StatementsOfLast(chart: seq<Elem>, tokens: seq<Token>, ps: seq<Procedure>, i: int, t: Tables, q: Draft)
    requires ps != [] && ShowsIn(chart, i, BelowResult(ps)) && ProgramSpelled(tokens, ps) &&
             IsRightButLast(chart, tokens, ps, |ps| - 1)
    requires TablesHold(t, ps, |ps|) && q.name == ps[|ps| - 1].name && q.stmts == []
    ensures var p, s, xs := ps[|ps| - 1], |ProgramYield(ps[..|ps| - 1])|, BelowStatements(ps);
            && ShowsIn(chart, |xs| - 1, xs) && ProcedureSpelled(tokens, s, p) && ProgramSpelled(tokens, ps[..|ps| - 1])
            && GoesOn(chart, tokens, t, i, q, |xs| - 1, q.(stmts := p.stmts))
  {
    hide *;
    var k := |ps| - 1;
    var p, s, xs := ps[k], |ProgramYield(ps[..k])|, BelowStatements(ps);
    assert ps[..|ps|] == ps && |ps| == k + 1;
    LastProcedure(tokens, ps, k + 1);
    RightParts(chart, tokens, ps, k);
    ContextFits(chart, tokens, ps, k, t);
    BodyOfLast(chart, tokens, ps, t, s);
    BelowIs(ps);
    StatementsAreBuilt(chart, tokens, i, xs, p.stmts, BodyStart(p, s), t, q, []);
    AtEnd(chart, |xs| - 1, xs);
    ThenGoesOn(chart, tokens, t, i, q, |xs| - 1, q.(stmts := p.stmts));
  }

  lemma ThenGoesOn(chart: seq<Elem>, tokens: seq<Token>, t: Tables, i: int, q: Draft, j: int, q': Draft)
    requires IsAt(chart, i) && IsAt(chart, j)
    ensures GoesOn(chart, tokens, t, i, q, j, q') <==>
            SecondPass(chart, tokens, i, t, q, []) == SecondPass(chart, tokens, j, t, q', [])
  {
    hide SecondPass;
  }

  lemma StillAt(chart: seq<Elem>, tokens: seq<Token>, t: Tables, i: int, q: Draft, j: int, q': Draft)
    requires GoesOn(chart, tokens, t, i, q, j, q')
    ensures IsAt(chart, i) && IsAt(chart, j)
    ensures SecondPass(chart, tokens, i, t, q, []) == SecondPass(chart, tokens, j, t, q', [])
  {
    hide SecondPass;
  }

  lemma BelowIs(ps: seq<Procedure>)
    requires ps != []
    ensures var p, s := ps[|ps| - 1], |ProgramYield(ps[..|ps| - 1])|;
            && BelowStatements(ps) ==
               (ProgramItems(ps[..|ps| - 1]) + HeaderItems(p, s + 3)) + DclsItems(p.dcls, DclsAt(p, s))
            && BelowResult(ps) == BelowStatements(ps) + BodyItems(p.stmts, BodyStart(p, s))
  {
  }

  lemma BodyOfLast(chart: seq<Elem>, tokens: seq<Token>, ps: seq<Procedure>, t: Tables, s: nat)
    requires ps != [] && IsRightButLast(chart, tokens, ps, |ps| - 1) && ProcedureSpelled(tokens, s, ps[|ps| - 1])
    requires var p := ps[|ps| - 1]; ContextOf(chart, tokens, t, p.name) == ProgramContext(chart, tokens, ps, p)
    ensures var p := ps[|ps| - 1];
            ReadStatements.BodyIsReadable(ContextOf(chart, tokens, t, p.name), BodyStart(p, s), p.stmts)
  {
    hide ParamsSpelled, DclsSpelled, BodySpelled, ExprSpelled, StatementCallsFirst, StatementIsSound;
  }

  /** Everything below the last result is built. */
  lemma RestIsBuilt(chart: seq<Elem>, tokens: seq<Token>, ps: seq<Procedure>, i: int, t: Tables, e': Expr)
    requires ps != [] && ShowsIn(chart, i, BelowResult(ps)) && ProgramSpelled(tokens, ps) &&
             IsRightButLast(chart, tokens, ps, |ps| - 1)
    requires TablesHold(t, ps, |ps|)
    ensures IsAt(chart, i)
    ensures var p := ps[|ps| - 1];
            SecondPass(chart, tokens, i, t, Draft(p.name, [], [], [], Some(e')), []) ==
            Ok(AllBuilt(ps)[..|ps| - 1] + [Built(p).(ret := Some(e'))])
  {
    hide *;
    var k := |ps| - 1;
    var p, s := ps[k], |ProgramYield(ps[..k])|;
    var xs, below, q := ProgramItems(ps[..k]), BelowStatements(ps), Draft(p.name, [], [], [], Some(e'));
    StatementsOfLast(chart, tokens, ps, i, t, q);
    StillAt(chart, tokens, t, i, q, |below| - 1, q.(stmts := p.stmts));
    RightParts(chart, tokens, ps, k);
    BelowIs(ps);
    NamesAreTaken(chart, tokens, |below| - 1, xs, p, s, t, q.(stmts := p.stmts), []);
    MetAgainHolds(t, ps, k);
    BuiltParts(p, e');
    FrontIsBuilt(chart, tokens, ps, k, |xs| - 1, MetAgain(t, p), Built(p).(ret := Some(e')));
  }

  lemma RightParts(chart: seq<Elem>, tokens: seq<Token>, ps: seq<Procedure>, k: nat)
    requires k < |ps| && IsRightButLast(chart, tokens, ps, k)
    ensures NamesAreRight(ps) && WainTakesInt(ps[k]) && DistinctNames(ps) && IsShaped(ps[k]) &&
            DistinctIds(ps[k].params + ps[k].dcls)
    ensures IsReadable(ps[..k]) && RightBelow(chart, tokens, ps, k)
  {
    hide WainTakesInt, DistinctNames, IsShaped, DistinctIds, IsReadable, RightBelow, BodyIsSound;
  }

  lemma BuiltParts(p: Procedure, e': Expr)
    ensures Draft(p.name, Built(p).params, Built(p).dcls, p.stmts, Some(e')) == Built(p).(ret := Some(e'))
  {
  }

  /** A program whose last result is read as e', and that is right otherwise, is parsed with that result. */
  lemma LastResultIsTaken(chart: seq<Elem>, tokens: seq<Token>, ps: seq<Procedure>, e': Expr, noise: seq<Elem>)
    requires chart == ProgramItems(ps) && ps != [] && ProgramSpelled(tokens, ps) && IsChart(chart) &&
             IsAt(chart, |chart| - 2)
    requires IsRightButLast(chart, tokens, ps, |ps| - 1) && IsIdle(noise)
    requires var c, below := ProgramContext(chart, tokens, ps, ps[|ps| - 1]), BelowResult(ps);
             && ReadExpr(c, |chart| - 2) == Ok((e', |below + noise| - 1)) && ExprType(c.env, e') == Int
             && ShowsIn(chart, |below + noise| - 1, below + noise)
    ensures Parse(chart, tokens) == Ok(AllBuilt(ps)[..|ps| - 1] + [Built(ps[|ps| - 1]).(ret := Some(e'))])
  {
    hide *;
    var k, below := |ps| - 1, BelowResult(ps);
    var p, s := ps[k], |ProgramYield(ps[..k])|;
    ResultShows(chart, tokens, ps);
    RightParts(chart, tokens, ps, k);
    TablesOfProgram(chart, tokens, ps);
    var t := FirstPass(chart, tokens, |chart| - 1, "", NO_TABLES).value;
    ContextFits(chart, tokens, ps, k, t);
    EmptyIs(p);
    ParseStarts(chart, tokens, t, p, s);
    ResultIsTaken(chart, tokens, |chart| - 2, below, p.ret, ResultAt(ps), t, Empty(p), [], e', noise);
    RestIsBuilt(chart, tokens, ps, |below| - 1, t, e');
  }

  lemma TablesOfProgram(chart: seq<Elem>, tokens: seq<Token>, ps: seq<Procedure>)
    requires chart == ProgramItems(ps) && ps != [] && ProgramSpelled(tokens, ps) &&
             IsRightButLast(chart, tokens, ps, |ps| - 1)
    ensures IsAt(chart, |chart| - 1)
    ensures var t := FirstPass(chart, tokens, |chart| - 1, "", NO_TABLES); t.Ok? && TablesHold(t.value, ps, |ps|)
  {
    hide FirstPass, ProgramItems, ProgramSpelled, NamesAreRight, IsReadable, RightBelow, BodyIsSound, DistinctIds,
         TablesFit, TablesHold, IsShaped;
    FirstPassReadsNames(chart, tokens, ps);
    FitHolds(FirstPass(chart, tokens, |chart| - 1, "", NO_TABLES).value, ps);
  }

  // ----- a sum with a call -----

  /** The last result with another expression. */
  function WithLastResult(ps: seq<Procedure>, e: Expr): seq<Draft>
    requires ps != []
  {
    AllBuilt(ps)[..|ps| - 1] + [Built(ps[|ps| - 1]).(ret := Some(e))]
  }

  lemma ExprResidueIsIdle(env: TypeEnv, e: Expr, ty: DclType, s: nat)
    requires ExprHasType(env, e, ty)
    ensures IsIdle(ExprResidue(e, s, []))
  {
    hide ExprHasType, ExprResidue, Lacks, RuleAt;
    forall sym | sym in {PROCEDURE, MAIN, STATEMENTS, DCLS, DCL, PARAMS}
      ensures Lacks(ExprResidue(e, s, []), sym)
    {
      ReadStatements.NoneLacks(sym);
      ReadStatements.ExprResidueLacks(env, e, ty, s, [], sym);
    }
  }

  /** Every program that returns `l + f()` from its last procedure, where an int variable has the name of the procedure
      f, and that is right otherwise, is accepted as the program that returns `(l + f) + f()`. */
  lemma SumResultIsMisread(chart: seq<Elem>, tokens: seq<Token>, ps: seq<Procedure>, l: Expr, f: string)
    requires chart == ProgramItems(ps) && ps != [] && ProgramSpelled(tokens, ps) &&
             IsRightButLast(chart, tokens, ps, |ps| - 1)
    requires ps[|ps| - 1].ret == Plus(l, CallTerm(f)) && ExprCallsFirst(l)
    requires var c := ProgramContext(chart, tokens, ps, ps[|ps| - 1]);
             ExprHasType(c.env, l, Int) && ExprResolves(c, Plus(l, CallTerm(f))) && f in c.env && c.env[f] == Int
    ensures IsChart(chart)
    ensures Parse(chart, tokens) == Ok(WithLastResult(ps, Plus(Plus(l, VariableTerm(f)), CallTerm(f))))
    ensures WithLastResult(ps, Plus(Plus(l, VariableTerm(f)), CallTerm(f))) != AllBuilt(ps)
  {
    ProgramIsChart(ps);
    hide *;
    ResultShows(chart, tokens, ps);
    var c, s := ProgramContext(chart, tokens, ps, ps[|ps| - 1]), ResultAt(ps);
    var e, noise, below := Plus(Plus(l, VariableTerm(f)), CallTerm(f)), ExprResidue(l, s, []), BelowResult(ps);
    ShowsAlike(tokens, ps, chart, |chart| - 2, below + ExprItems(Plus(l, CallTerm(f)), s, []));
    SumWithCallIsMisread(c, |chart| - 2, below, l, f, s);
    ResultIsGiven(chart, tokens, ps, e, noise);
    SumType(c, l, f);
    ExprResidueIsIdle(c.env, l, Int, s);
    LastResultIsTaken(chart, tokens, ps, e, noise);
    OtherResult(ps, e);
  }

  lemma ShowsAlike(tokens: seq<Token>, ps: seq<Procedure>, chart: seq<Elem>, i: int, xs: seq<Elem>)
    requires ps != []
    ensures var c := ProgramContext(chart, tokens, ps, ps[|ps| - 1]);
            c.tokens == tokens && c.chart == chart && (Shows(c, i, xs) <==> ShowsIn(chart, i, xs))
  {
  }

  lemma ResultIsGiven(chart: seq<Elem>, tokens: seq<Token>, ps: seq<Procedure>, e: Expr, noise: seq<Elem>)
    requires ps != [] && IsAt(chart, |chart| - 2)
    requires var c := ProgramContext(chart, tokens, ps, ps[|ps| - 1]);
             Gives(c, ReadExpr(c, |chart| - 2), e, BelowResult(ps) + noise)
    ensures ReadExpr(ProgramContext(chart, tokens, ps, ps[|ps| - 1]), |chart| - 2) ==
            Ok((e, |BelowResult(ps) + noise| - 1))
    ensures ShowsIn(chart, |BelowResult(ps) + noise| - 1, BelowResult(ps) + noise)
  {
    hide ReadExpr, BelowResult;
  }

  lemma OtherResult(ps: seq<Procedure>, e: Expr)
    requires ps != []
    ensures WithLastResult(ps, e) == AllBuilt(ps)[..|ps| - 1] + [Built(ps[|ps| - 1]).(ret := Some(e))]
    ensures WithLastResult(ps, e) == AllBuilt(ps) <==> e == ps[|ps| - 1].ret
  {
    var k := |ps| - 1;
    assert AllBuilt(ps)[k] == Built(ps[k]);
    assert AllBuilt(ps) == AllBuilt(ps)[..k] + [AllBuilt(ps)[k]];
    assert WithLastResult(ps, e)[k] == Built(ps[k]).(ret := Some(e));
  }

  /** Every program that returns `g(f, f())` from its last procedure, where an int variable has the name of the
      procedure f, is given back when it is right otherwise, though the result does not have its calls first. */
  lemma CallResultIsGivenBack(chart: seq<Elem>, tokens: seq<Token>, ps: seq<Procedure>, g: string, f: string)
    requires chart == ProgramItems(ps) && ps != [] && ProgramSpelled(tokens, ps) &&
             IsRightButLast(chart, tokens, ps, |ps| - 1)
    requires ps[|ps| - 1].ret == JustTerm(JustFactor(CallWithCall(g, f)))
    requires var c := ProgramContext(chart, tokens, ps, ps[|ps| - 1]);
             Resolves(c, f, NoArgs) && Resolves(c, g, FirstArgs(f)) && f in c.env && c.env[f] == Int
    ensures IsChart(chart) && Parse(chart, tokens) == Ok(AllBuilt(ps))
    ensures !ExprCallsFirst(ps[|ps| - 1].ret) && !IsProgram(chart, tokens, ps)
  {
    ProgramIsChart(ps);
    hide *;
    ResultShows(chart, tokens, ps);
    var c, s := ProgramContext(chart, tokens, ps, ps[|ps| - 1]), ResultAt(ps);
    var e, noise, below := ps[|ps| - 1].ret, LeftOfCall(f, s), BelowResult(ps);
    ShowsAlike(tokens, ps, chart, |chart| - 2, below + ExprItems(e, s, []));
    CallIsSpelled(tokens, s, g, f);
    CallIsGivenBack(c, |chart| - 2, below, g, f, s);
    ShowsAlike(tokens, ps, chart, |below + noise| - 1, below + noise);
    CallIsInt(c.env, g, f);
    LeftIsIdle(f, s);
    LastResultIsTaken(chart, tokens, ps, e, noise);
    OtherResult(ps, e);
    NoProgram(chart, tokens, ps);
  }

  lemma CallIsSpelled(tokens: seq<Token>, s: nat, g: string, f: string)
    ensures ExprSpelled(tokens, s, JustTerm(JustFactor(CallWithCall(g, f)))) <==>
            FactorSpelled(tokens, s, CallWithCall(g, f))
  {
    hide FactorSpelled;
    assert TermSpelled(tokens, s, JustFactor(CallWithCall(g, f))) <==> FactorSpelled(tokens, s, CallWithCall(g, f));
  }

  lemma CallIsInt(env: TypeEnv, g: string, f: string)
    ensures ExprType(env, JustTerm(JustFactor(CallWithCall(g, f)))) == Int
  {
    assert FactorType(env, CallWithCall(g, f)) == Int;
    assert TermType(env, JustFactor(CallWithCall(g, f))) == Int;
  }

  lemma LeftIsIdle(f: string, s: nat)
    ensures IsIdle(LeftOfCall(f, s))
  {
    var x := [Done(44, s + 2)];
    assert FactorItems(Id(f), s + 2, [Done(31, s + 2)] + ([Done(28, s + 2)] + x)) == [Done(35, s + 2)];
    assert TermItems(JustFactor(Id(f)), s + 2, [Done(28, s + 2)] + x) == [Done(35, s + 2), Done(31, s + 2)];
    assert ExprItems(Named(f), s + 2, x) == [Done(35, s + 2), Done(31, s + 2), Done(28, s + 2)];
    ExpressionsAreIdle(LeftOfCall(f, s));
  }

  lemma ExpressionsAreIdle(noise: seq<Elem>)
    requires forall j :: 0 <= j < |noise| ==> noise[j].rule in {28, 31, 35, 44}
    ensures IsIdle(noise)
  {
    assert RuleAt(28).lhs == EXPR && RuleAt(31).lhs == TERM && RuleAt(35).lhs == FACTOR && RuleAt(44).lhs == ARGLIST;
    hide RuleAt;
  }

  lemma NoProgram(chart: seq<Elem>, tokens: seq<Token>, ps: seq<Procedure>)
    requires ps != [] && !ExprCallsFirst(ps[|ps| - 1].ret)
    ensures !IsProgram(chart, tokens, ps)
  {
    hide IsTyped, IsDeclared;
  }
}
