/** Three programs: one that is compiled, one whose result is misread, and one that is given back all the same. */
module Examples {
  import opened Options
  import opened Symbols
  import opened Grammar
  import opened Earley
  import opened Charts
  import opened Wlp4Grammar
  import opened FinalChart
  import opened Tokens
  import opened Numerals
  import opened Ast
  import opened Types
  import opened Yields
  import opened Items
  import opened Procedures
  import opened Simulation
  import opened Reading
  import opened Checking
  import opened Passes
  import opened Programs
  import opened Sentences
  import opened ReadNames
  import opened ProgramReadBack
  import opened ProgramLists
  import opened Compiler
  import opened Driver
  import opened Miscalls
  import opened GivenBack
  import opened OtherResults

  // ----- procedures that only return something -----

  /** No parameters or two ints, and a result. */
  predicate IsSmall(p: Procedure) {
    && p.dcls == [] && p.stmts == []
    && (p.params == [] || (|p.params| == 2 && p.params[0].dclType == Int && p.params[1].dclType == Int))
    && (p.name == "wain" ==> p.params != [])
    && forall i :: 0 <= i < |p.params| ==> p.params[i].value == ""
  }

  function SmallParams(p: Procedure): Form {
    if p.params == [] then [] else [INT, ID, COMMA, INT, ID]
  }

  lemma NothingYields()
    ensures DclsYield([]) == [] && BodyYield([]) == [] && ParamsYield([]) == [] && ProgramYield([]) == []
  {
  }

  lemma SmallParamsYield(p: Procedure)
    requires IsSmall(p)
    ensures ParamsYield(p.params) == SmallParams(p)
    ensures p.params != [] ==> forall s: nat :: LastParamAt(p.params, s) == s + 3
  {
    if p.params != [] {
      assert p.params[..1] == [p.params[0]];
      assert ParamsYield(p.params[..1]) == [INT, ID];
    }
  }

  lemma SmallYield(p: Procedure)
    requires IsSmall(p)
    ensures ProcedureYield(p) ==
            [INT, if p.name == "wain" then WAIN else ID, LPAREN] + SmallParams(p) + [RPAREN, LBRACE] + [RETURN] +
              ExprYield(p.ret) + [SEMI, RBRACE]
    ensures forall s: nat :: ReturnAt(p, s) == s + 6 + |SmallParams(p)|
  {
    hide ExprYield, ParamsYield;
    NothingYields();
    SmallParamsYield(p);
    var x := [INT, if p.name == "wain" then WAIN else ID, LPAREN] + SmallParams(p) + [RPAREN, LBRACE];
    assert x + [] + [] == x;
  }

  lemma SmallIsSpelled(tokens: seq<Token>, s: nat, p: Procedure)
    requires IsSmall(p) && Spells(tokens, s + 1, p.name) && ExprSpelled(tokens, s + 6 + |SmallParams(p)|, p.ret)
    requires p.params != [] ==> Spells(tokens, s + 4, p.params[0].id) && Spells(tokens, s + 7, p.params[1].id)
    ensures ProcedureSpelled(tokens, s, p)
  {
    SmallYield(p);
    SmallParamsYield(p);
    hide ExprSpelled, ExprYield, ParamsYield, ReturnAt, LastParamAt;
    if p.params != [] {
      var ds := p.params;
      assert ds[..1] == [ds[0]] && ds[..1][..0] == [];
      assert ParamsSpelled(tokens, s + 3, []);
      assert LastParamAt(ds[..1], s + 3) == s + 3 by { OneAt(ds[..1], s + 3); }
      assert ParamsSpelled(tokens, s + 3, ds[..1]);
      assert ParamsSpelled(tokens, s + 3, ds);
    }
  }

  lemma OneAt(ds: seq<Dcl>, s: nat)
    requires |ds| == 1
    ensures LastParamAt(ds, s) == s
  {
  }

  lemma SmallTypes(p: Procedure)
    requires IsSmall(p) && (p.params != [] ==> p.params[0].id != p.params[1].id)
    ensures IsShaped(p) && WainTakesInt(p) && DistinctIds(p.params + p.dcls)
    ensures EnvOf(p.params + p.dcls) ==
            if p.params == [] then map[] else map[p.params[0].id := Int, p.params[1].id := Int]
  {
    var ds := p.params;
    assert ds + [] == ds;
    if ds != [] {
      assert ds[..1] == [ds[0]] && ds[..1][..0] == [];
      assert EnvOf(ds[..1]) == map[ds[0].id := Int];
    }
  }

  lemma NameIsFine(tokens: seq<Token>, s: nat, name: string)
    ensures ExprYield(Named(name)) == [ID] && ExprCallsFirst(Named(name)) && !TermOpensWithCall(JustFactor(Id(name)))
    ensures ExprSpelled(tokens, s, Named(name)) <==> Spells(tokens, s, name)
    ensures forall env: TypeEnv :: name in env && env[name] == Int ==> ExprHasType(env, Named(name), Int)
    ensures forall c: Context :: ExprResolves(c, Named(name))
  {
    var t := JustFactor(Id(name));
    assert TermYield(t) == [ID] && TermCallsFirst(t);
    assert TermSpelled(tokens, s, t) <==> Spells(tokens, s, name);
    forall env: TypeEnv | name in env && env[name] == Int
      ensures ExprHasType(env, Named(name), Int)
    {
      assert FactorHasType(env, Id(name), Int) && TermHasType(env, t, Int);
    }
    forall c: Context
      ensures ExprResolves(c, Named(name))
    {
      assert FactorResolves(c, Id(name)) && TermResolves(c, t);
    }
  }

  lemma OneMore(tokens: seq<Token>, ps: seq<Procedure>, p: Procedure)
    ensures ProgramYield(ps + [p]) == ProgramYield(ps) + ProcedureYield(p)
    ensures ProgramSpelled(tokens, ps + [p]) <==>
            ProgramSpelled(tokens, ps) && ProcedureSpelled(tokens, |ProgramYield(ps)|, p)
  {
    hide ProcedureYield, ProcedureSpelled;
    assert (ps + [p])[..|ps|] == ps;
  }

  // ----- a program that is compiled -----

  /** `int wain(int a, int b) { return a + b; }` */
  const SUM: Procedure :=
    Procedure("wain", [Dcl("a", Int, ""), Dcl("b", Int, "")], [], [], Plus(Named("a"), JustFactor(Id("b"))))

  const SUM_TOKENS: seq<Token> := [
    Token(INT, "int"), Token(WAIN, "wain"), Token(LPAREN, "("), Token(INT, "int"), Token(ID, "a"), Token(COMMA, ","),
    Token(INT, "int"), Token(ID, "b"), Token(RPAREN, ")"), Token(LBRACE, "{"), Token(RETURN, "return"), Token(ID, "a"),
    Token(PLUS, "+"), Token(ID, "b"), Token(SEMI, ";"), Token(RBRACE, "}")]

  lemma SumResult(tokens: seq<Token>)
    requires Spells(tokens, 11, "a") && Spells(tokens, 13, "b")
    ensures ExprYield(SUM.ret) == [ID, PLUS, ID] && ExprSpelled(tokens, 11, SUM.ret)
  {
    NameIsFine(tokens, 11, "a");
    assert TermYield(JustFactor(Id("b"))) == [ID] && TermSpelled(tokens, 13, JustFactor(Id("b")));
  }

  lemma SumIsSpelled()
    ensures Kinds(SUM_TOKENS) == ProgramYield([SUM]) && ProgramSpelled(SUM_TOKENS, [SUM])
  {
    hide ExprYield, ExprSpelled, ProcedureYield, ProcedureSpelled, ProgramYield, ProgramSpelled;
    SumResult(SUM_TOKENS);
    SmallYield(SUM);
    SmallIsSpelled(SUM_TOKENS, 0, SUM);
    FirstOfProgram(SUM_TOKENS, SUM);
  }

  lemma FirstOfProgram(tokens: seq<Token>, p: Procedure)
    ensures ProgramYield([p]) == ProcedureYield(p)
    ensures ProgramSpelled(tokens, [p]) <==> ProcedureSpelled(tokens, 0, p)
  {
    hide ProcedureYield, ProcedureSpelled;
    assert [p][..0] == [];
    NothingYields();
  }

  lemma SumIsTyped()
    ensures IsValid(SUM_TOKENS, [SUM]) && IsPlain(SUM) && IsReadable([SUM])
  {
    SmallTypes(SUM);
    hide EnvOf, ProgramItems, IsShaped, WainTakesInt, DistinctIds;
    var env, b := EnvOf(SUM.params + SUM.dcls), JustFactor(Id("b"));
    var c := ProgramContext(ProgramItems([SUM]), SUM_TOKENS, [SUM], SUM);
    NameIsFine(SUM_TOKENS, 11, "a");
    NameIsFine(SUM_TOKENS, 13, "b");
    assert ExprHasType(env, Named("a"), Int) && ExprHasType(env, Named("b"), Int) && TermHasType(env, b, Int);
    assert ExprHasType(env, SUM.ret, Int);
    assert PlainFactor(env, Id("a")) && PlainFactor(env, Id("b"));
    assert PlainExpr(env, Named("a")) && PlainTerm(env, b) && PlainExpr(env, SUM.ret);
    assert ExprResolves(c, Named("a")) && ExprResolves(c, Named("b")) && TermResolves(c, b) && ExprResolves(c, SUM.ret);
    assert TermCallsFirst(b) && ExprCallsFirst(SUM.ret);
  }

  /** There are well-formed programs, and ones in the fragment of the meaning theorem. */
  lemma SumIsAProgram()
    ensures IsTextOf(SUM_TOKENS, [SUM]) && IsValid(SUM_TOKENS, [SUM]) && IsPlain(SUM)
  {
    SumIsSpelled();
    SumIsTyped();
    hide ProgramYield, ProgramSpelled, IsValid, IsPlain, IsReadable;
  }

  // ----- a program that is misread -----

  /** `int f() { return 1; }` */
  const ONE: Procedure := Procedure("f", [], [], [], JustTerm(JustFactor(Num(1))))

  const ONE_TOKENS: seq<Token> := [
    Token(INT, "int"), Token(ID, "f"), Token(LPAREN, "("), Token(RPAREN, ")"), Token(LBRACE, "{"),
    Token(RETURN, "return"), Token(NUM, "1"), Token(SEMI, ";"), Token(RBRACE, "}")]

  /** `int wain(int f, int b) { return b + f(); }` */
  const ADD: Procedure :=
    Procedure("wain", [Dcl("f", Int, ""), Dcl("b", Int, "")], [], [], Plus(Named("b"), CallTerm("f")))

  const ADD_TOKENS: seq<Token> := [
    Token(INT, "int"), Token(WAIN, "wain"), Token(LPAREN, "("), Token(INT, "int"), Token(ID, "f"), Token(COMMA, ","),
    Token(INT, "int"), Token(ID, "b"), Token(RPAREN, ")"), Token(LBRACE, "{"), Token(RETURN, "return"), Token(ID, "b"),
    Token(PLUS, "+"), Token(ID, "f"), Token(LPAREN, "("), Token(RPAREN, ")"), Token(SEMI, ";"), Token(RBRACE, "}")]

  const MISREAD_TOKENS: seq<Token> := ONE_TOKENS + ADD_TOKENS

  lemma KindsOfBoth(x: seq<Token>, y: seq<Token>)
    ensures Kinds(x + y) == Kinds(x) + Kinds(y)
  {
  }

  lemma OneResult(tokens: seq<Token>)
    requires Spells(tokens, 6, "1")
    ensures ExprYield(ONE.ret) == [NUM] && ExprSpelled(tokens, 6, ONE.ret)
  {
    var t := JustFactor(Num(1));
    assert Stoi("1") == Some(1) by {
      assert Spelling(1) == "1";
      SpellingRoundTrip(1);
    }
    assert FactorSpelled(tokens, 6, Num(1)) && TermSpelled(tokens, 6, t) && TermYield(t) == [NUM];
  }

  lemma OneIsSpelled(tokens: seq<Token>)
    requires Spells(tokens, 1, "f") && Spells(tokens, 6, "1")
    ensures ProgramYield([ONE]) == Kinds(ONE_TOKENS) && ProgramSpelled(tokens, [ONE])
  {
    hide ExprYield, ExprSpelled, ProcedureYield, ProcedureSpelled, ProgramYield, ProgramSpelled;
    OneResult(tokens);
    SmallYield(ONE);
    SmallIsSpelled(tokens, 0, ONE);
    FirstOfProgram(tokens, ONE);
  }

  lemma OneIsRight(c: Context)
    ensures HasCallsFirst(ONE) && IsTyped(c, ONE)
  {
    var t := JustFactor(Num(1));
    assert TermCallsFirst(t) && FactorHasType(c.env, Num(1), Int) && TermHasType(c.env, t, Int) && TermResolves(c, t);
  }

  lemma AddResult(tokens: seq<Token>)
    requires Spells(tokens, 20, "b") && Spells(tokens, 22, "f")
    ensures ExprYield(ADD.ret) == [ID, PLUS, ID, LPAREN, RPAREN] && ExprSpelled(tokens, 20, ADD.ret)
  {
    var call := CallTerm("f");
    NameIsFine(tokens, 20, "b");
    NoYield();
    assert FactorYield(Call("f", NoArgs)) == [ID, LPAREN, RPAREN] && TermYield(call) == [ID, LPAREN, RPAREN];
    assert FactorSpelled(tokens, 22, Call("f", NoArgs)) && TermSpelled(tokens, 22, call);
  }

  lemma AddYields()
    ensures ExprYield(ADD.ret) == [ID, PLUS, ID, LPAREN, RPAREN] ==> ProcedureYield(ADD) == Kinds(ADD_TOKENS)
  {
    hide ExprYield, ProcedureYield;
    SmallYield(ADD);
  }

  lemma AddIsSpelled(tokens: seq<Token>)
    requires tokens == MISREAD_TOKENS
    ensures Kinds(tokens) == ProgramYield([ONE, ADD]) && ProgramSpelled(tokens, [ONE, ADD])
  {
    hide ExprYield, ExprSpelled, ProcedureYield, ProcedureSpelled, ProgramSpelled, ProgramYield, ReturnAt;
    OneIsSpelled(tokens);
    AddResult(tokens);
    AddYields();
    SmallIsSpelled(tokens, 9, ADD);
    KindsOfBoth(ONE_TOKENS, ADD_TOKENS);
    OneMore(tokens, [ONE], ADD);
    assert [ONE] + [ADD] == [ONE, ADD];
  }

  /** The names before wain are known to it. */
  lemma CalledFromWain(c: Context, callee: string, args: Arglist)
    requires c.names != [] && c.names[|c.names| - 1] == "wain" == c.caller && callee != "wain" && callee in c.names
    requires forall j :: 0 <= j < |c.names| - 1 ==> c.names[j] != "wain"
    requires callee in c.arity && c.arity[callee] == NumArgs(args)
    ensures Resolves(c, callee, args)
  {
    var j :| 0 <= j < |c.names| && c.names[j] == callee;
  }

  /** A call from the last procedure, wain, to one before it. */
  lemma CallFromWain(chart: seq<Elem>, tokens: seq<Token>, ps: seq<Procedure>, j: nat, args: Arglist)
    requires EndsInWain(ps) && DistinctNames(ps) && j + 1 < |ps| && |ps[j].params| == NumArgs(args)
    ensures Resolves(ProgramContext(chart, tokens, ps, ps[|ps| - 1]), ps[j].name, args)
  {
    hide EnvOf, Resolves;
    AritiesAt(ps, j);
    assert Names(ps)[j] == ps[j].name;
    CalledFromWain(ProgramContext(chart, tokens, ps, ps[|ps| - 1]), ps[j].name, args);
  }

  lemma AddCalls(chart: seq<Elem>, tokens: seq<Token>)
    ensures var c := ProgramContext(chart, tokens, [ONE, ADD], ADD);
            c.tokens == tokens && c.env == map["f" := Int, "b" := Int] && Resolves(c, "f", NoArgs)
  {
    var ps := [ONE, ADD];
    SmallTypes(ADD);
    hide EnvOf, Resolves, Arities, IsShaped, DistinctIds, WainTakesInt;
    assert EndsInWain(ps) && DistinctNames(ps);
    CallFromWain(chart, tokens, ps, 0, NoArgs);
  }

  /** The last of some small procedures with distinct names, the ones before it right. */
  lemma SmallIsRight(chart: seq<Elem>, tokens: seq<Token>, ps: seq<Procedure>, k: nat)
    requires k + 1 == |ps| && DistinctNames(ps) && forall j :: 0 <= j <= k ==> IsSmall(ps[j])
    requires forall j :: 0 <= j <= k && |ps[j].params| == 2 ==> ps[j].params[0].id != ps[j].params[1].id
    requires forall j :: 0 <= j < k ==> HasCallsFirst(ps[j]) && IsTyped(ProgramContext(chart, tokens, ps, ps[j]), ps[j])
    ensures IsRightButLast(chart, tokens, ps, k)
  {
    hide EnvOf, IsTyped, HasCallsFirst, IsShaped, DistinctIds, WainTakesInt, DistinctNames, ProgramContext;
    forall j | 0 <= j <= k
      ensures IsShaped(ps[j]) && WainTakesInt(ps[j]) && DistinctIds(ps[j].params + ps[j].dcls) && ps[j].stmts == []
    {
      SmallTypes(ps[j]);
    }
  }

  lemma AddFrontIsRight(chart: seq<Elem>, tokens: seq<Token>)
    ensures var ps := [ONE, ADD];
            && |ps| == 2 && DistinctNames(ps) && (forall j :: 0 <= j <= 1 ==> IsSmall(ps[j]))
            && (forall j :: 0 <= j <= 1 && |ps[j].params| == 2 ==> ps[j].params[0].id != ps[j].params[1].id)
            && forall j :: 0 <= j < 1 ==>
                 HasCallsFirst(ps[j]) && IsTyped(ProgramContext(chart, tokens, ps, ps[j]), ps[j])
  {
    OneIsRight(ProgramContext(chart, tokens, [ONE, ADD], ONE));
    hide EnvOf, IsTyped, HasCallsFirst, Arities, Names;
  }

  lemma AddIsText(tokens: seq<Token>)
    requires tokens == MISREAD_TOKENS
    ensures AllTerminals(Kinds(tokens)) && EndsInWain([ONE, ADD])
  {
  }

  lemma AddIsTyped(c: Context)
    requires c.env == map["f" := Int, "b" := Int] && Resolves(c, "f", NoArgs)
    ensures ExprCallsFirst(Named("b")) && ExprHasType(c.env, Named("b"), Int) &&
            ExprResolves(c, Plus(Named("b"), CallTerm("f")))
    ensures "f" in c.env && c.env["f"] == Int
  {
    NameIsFine(c.tokens, 0, "b");
    hide Resolves;
    CallOrVariable(c, 0, "f");
    assert ExprResolves(c, Named("b"));
  }

  /** The text `int f() { return 1; } int wain(int f, int b) { return b + f(); }` is accepted, and its wain returns
      `(b + f) + f()`. */
  lemma AddIsMisread(c: Chart)
    requires IsFilled(CFG(), Kinds(MISREAD_TOKENS), c)
    ensures IsChart(Final(CFG(), c, |c|))
    ensures Parse(Final(CFG(), c, |c|), MISREAD_TOKENS) ==
            Ok(WithLastResult([ONE, ADD], Plus(Plus(Named("b"), VariableTerm("f")), CallTerm("f"))))
    ensures WithLastResult([ONE, ADD], Plus(Plus(Named("b"), VariableTerm("f")), CallTerm("f"))) != AllBuilt([ONE, ADD])
  {
    var ps, tokens, l := [ONE, ADD], MISREAD_TOKENS, Named("b");
    assert ADD.ret == Plus(l, CallTerm("f"));
    hide *;
    AddIsSpelled(tokens);
    AddIsText(tokens);
    FinalChartIsItems(c, tokens, ps);
    AddFrontIsRight(ProgramItems(ps), tokens);
    SmallIsRight(ProgramItems(ps), tokens, ps, 1);
    AddCalls(ProgramItems(ps), tokens);
    AddIsTyped(ProgramContext(ProgramItems(ps), tokens, ps, ADD));
    SumResultIsMisread(ProgramItems(ps), tokens, ps, l, "f");
  }

  // ----- a program that is given back all the same -----

  /** `int g(int a, int b) { return a; }` */
  const PICK: Procedure := Procedure("g", [Dcl("a", Int, ""), Dcl("b", Int, "")], [], [], Named("a"))

  const PICK_TOKENS: seq<Token> := [
    Token(INT, "int"), Token(ID, "g"), Token(LPAREN, "("), Token(INT, "int"), Token(ID, "a"), Token(COMMA, ","),
    Token(INT, "int"), Token(ID, "b"), Token(RPAREN, ")"), Token(LBRACE, "{"), Token(RETURN, "return"), Token(ID, "a"),
    Token(SEMI, ";"), Token(RBRACE, "}")]

  /** `int wain(int f, int b) { return g(f, f()); }` */
  const PASS: Procedure :=
    Procedure("wain", [Dcl("f", Int, ""), Dcl("b", Int, "")], [], [], JustTerm(JustFactor(CallWithCall("g", "f"))))

  const PASS_TOKENS: seq<Token> := [
    Token(INT, "int"), Token(WAIN, "wain"), Token(LPAREN, "("), Token(INT, "int"), Token(ID, "f"), Token(COMMA, ","),
    Token(INT, "int"), Token(ID, "b"), Token(RPAREN, ")"), Token(LBRACE, "{"), Token(RETURN, "return"), Token(ID, "g"),
    Token(LPAREN, "("), Token(ID, "f"), Token(COMMA, ","), Token(ID, "f"), Token(LPAREN, "("), Token(RPAREN, ")"),
    Token(RPAREN, ")"), Token(SEMI, ";"), Token(RBRACE, "}")]

  const GIVEN_TOKENS: seq<Token> := ONE_TOKENS + PICK_TOKENS + PASS_TOKENS

  lemma PickYields()
    ensures ProcedureYield(PICK) == Kinds(PICK_TOKENS)
  {
    NameIsFine([], 0, "a");
    hide ExprYield, ProcedureYield;
    SmallYield(PICK);
  }

  lemma PassResult()
    ensures ExprYield(PASS.ret) == [ID, LPAREN, ID, COMMA, ID, LPAREN, RPAREN, RPAREN]
  {
    var call := JustTerm(JustFactor(Call("f", NoArgs)));
    NameIsFine([], 0, "f");
    NoYield();
    assert FactorYield(Call("f", NoArgs)) == [ID, LPAREN, RPAREN];
    assert TermYield(JustFactor(Call("f", NoArgs))) == [ID, LPAREN, RPAREN] && ExprYield(call) == [ID, LPAREN, RPAREN];
    assert ArgsYield(LastArgs("f")) == [ID, LPAREN, RPAREN];
    assert ArgsYield(FirstArgs("f")) == [ID] + [COMMA] + [ID, LPAREN, RPAREN];
    assert FactorYield(CallWithCall("g", "f")) == [ID, LPAREN] + ArgsYield(FirstArgs("f")) + [RPAREN];
    assert TermYield(JustFactor(CallWithCall("g", "f"))) == FactorYield(CallWithCall("g", "f"));
  }

  lemma PassYields()
    ensures ProcedureYield(PASS) == Kinds(PASS_TOKENS)
  {
    PassResult();
    hide ExprYield, ProcedureYield;
    SmallYield(PASS);
  }

  lemma PassIsSpelled(tokens: seq<Token>, s: nat)
    requires Spells(tokens, s, "g") && Spells(tokens, s + 2, "f") && Spells(tokens, s + 4, "f")
    ensures ExprSpelled(tokens, s, PASS.ret)
  {
    var call := Call("f", NoArgs);
    NameIsFine(tokens, s + 2, "f");
    assert FactorSpelled(tokens, s + 4, call) && TermSpelled(tokens, s + 4, JustFactor(call));
    assert ExprSpelled(tokens, s + 4, JustTerm(JustFactor(call)));
    assert ArgsSpelled(tokens, s + 4, LastArgs("f"));
    assert ArgsSpelled(tokens, s + 2, FirstArgs("f"));
    CallIsSpelled(tokens, s, "g", "f");
  }

  lemma GivenValues(tokens: seq<Token>)
    requires tokens == GIVEN_TOKENS
    ensures |tokens| == 44 && Spells(tokens, 1, "f") && Spells(tokens, 6, "1")
    ensures Spells(tokens, 10, "g") && Spells(tokens, 13, "a") && Spells(tokens, 16, "b") && Spells(tokens, 20, "a")
    ensures Spells(tokens, 24, "wain") && Spells(tokens, 27, "f") && Spells(tokens, 30, "b")
    ensures Spells(tokens, 34, "g") && Spells(tokens, 36, "f") && Spells(tokens, 38, "f")
  {
  }

  lemma GivenIsText(tokens: seq<Token>)
    requires tokens == GIVEN_TOKENS
    ensures AllTerminals(Kinds(tokens)) && EndsInWain([ONE, PICK, PASS])
  {
  }

  /** The three procedures, each at its place. */
  lemma GivenParts(tokens: seq<Token>)
    requires tokens == GIVEN_TOKENS
    ensures ProgramYield([ONE]) == Kinds(ONE_TOKENS) && ProgramSpelled(tokens, [ONE])
    ensures ProcedureSpelled(tokens, 9, PICK) && ProcedureSpelled(tokens, 23, PASS)
  {
    GivenValues(tokens);
    NameIsFine(tokens, 20, "a");
    PassIsSpelled(tokens, 34);
    hide ExprYield, ExprSpelled, ProcedureYield, ProcedureSpelled, ProgramSpelled, ProgramYield, ReturnAt, Spells;
    OneIsSpelled(tokens);
    SmallIsSpelled(tokens, 9, PICK);
    SmallIsSpelled(tokens, 23, PASS);
  }

  lemma GivenIsSpelled(tokens: seq<Token>)
    requires tokens == GIVEN_TOKENS
    ensures Kinds(tokens) == ProgramYield([ONE, PICK, PASS]) && ProgramSpelled(tokens, [ONE, PICK, PASS])
  {
    hide ExprYield, ExprSpelled, ProcedureYield, ProcedureSpelled, ProgramSpelled, ProgramYield, ReturnAt, Spells,
         EndsInWain, AllTerminals;
    GivenParts(tokens);
    PickYields();
    PassYields();
    KindsOfBoth(ONE_TOKENS, PICK_TOKENS);
    KindsOfBoth(ONE_TOKENS + PICK_TOKENS, PASS_TOKENS);
    OneMore(tokens, [ONE], PICK);
    OneMore(tokens, [ONE] + [PICK], PASS);
    assert [ONE] + [PICK] + [PASS] == [ONE, PICK, PASS];
  }

  lemma PickIsRight(c: Context)
    requires "a" in c.env && c.env["a"] == Int
    ensures HasCallsFirst(PICK) && IsTyped(c, PICK)
  {
    NameIsFine(c.tokens, 0, "a");
  }

  lemma PassCalls(chart: seq<Elem>, tokens: seq<Token>)
    ensures var c := ProgramContext(chart, tokens, [ONE, PICK, PASS], PASS);
            && "f" in c.env && c.env["f"] == Int && Resolves(c, "f", NoArgs) && Resolves(c, "g", FirstArgs("f"))
  {
    var ps := [ONE, PICK, PASS];
    SmallTypes(PASS);
    assert NumArgs(FirstArgs("f")) == 2;
    hide EnvOf, Resolves, Arities, IsShaped, DistinctIds, WainTakesInt;
    assert EndsInWain(ps) && DistinctNames(ps);
    CallFromWain(chart, tokens, ps, 0, NoArgs);
    CallFromWain(chart, tokens, ps, 1, FirstArgs("f"));
  }

  lemma FrontIsRight(chart: seq<Elem>, tokens: seq<Token>)
    ensures var ps := [ONE, PICK, PASS];
            && |ps| == 3 && DistinctNames(ps) && (forall j :: 0 <= j <= 2 ==> IsSmall(ps[j]))
            && (forall j :: 0 <= j <= 2 && |ps[j].params| == 2 ==> ps[j].params[0].id != ps[j].params[1].id)
            && forall j :: 0 <= j < 2 ==>
                 HasCallsFirst(ps[j]) && IsTyped(ProgramContext(chart, tokens, ps, ps[j]), ps[j])
  {
    var ps := [ONE, PICK, PASS];
    SmallTypes(PICK);
    OneIsRight(ProgramContext(chart, tokens, ps, ONE));
    PickIsRight(ProgramContext(chart, tokens, ps, PICK));
    hide EnvOf, IsTyped, HasCallsFirst, Arities, Names;
    FrontIsSmall();
  }

  lemma FrontIsSmall()
    ensures var ps := [ONE, PICK, PASS];
            && DistinctNames(ps) && (forall j :: 0 <= j <= 2 ==> IsSmall(ps[j]))
            && (forall j :: 0 <= j <= 2 && |ps[j].params| == 2 ==> ps[j].params[0].id != ps[j].params[1].id)
  {
  }

  lemma PassIsParsed(chart: seq<Elem>, tokens: seq<Token>)
    requires chart == ProgramItems([ONE, PICK, PASS]) && ProgramSpelled(tokens, [ONE, PICK, PASS])
    ensures IsChart(chart) && Parse(chart, tokens) == Ok(AllBuilt([ONE, PICK, PASS])) && !ExprCallsFirst(PASS.ret)
  {
    var ps := [ONE, PICK, PASS];
    assert ps[|ps| - 1] == PASS && PASS.ret == JustTerm(JustFactor(CallWithCall("g", "f")));
    hide *;
    FrontIsRight(chart, tokens);
    SmallIsRight(chart, tokens, ps, 2);
    PassCalls(chart, tokens);
    CallResultIsGivenBack(chart, tokens, ps, "g", "f");
  }

  /** The text with `int wain(int f, int b) { return g(f, f()); }`, whose result does not have its calls first, is given
      back. */
  lemma PassIsGivenBack(c: Chart)
    requires IsFilled(CFG(), Kinds(GIVEN_TOKENS), c)
    ensures IsChart(Final(CFG(), c, |c|)) &&
            Parse(Final(CFG(), c, |c|), GIVEN_TOKENS) == Ok(AllBuilt([ONE, PICK, PASS]))
    ensures !ExprCallsFirst(PASS.ret)
  {
    var ps, tokens := [ONE, PICK, PASS], GIVEN_TOKENS;
    hide *;
    GivenIsSpelled(tokens);
    GivenIsText(tokens);
    FinalChartIsItems(c, tokens, ps);
    PassIsParsed(ProgramItems(ps), tokens);
  }
}
