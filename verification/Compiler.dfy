/** From the items of a program to the outcomes of its blocks. */
module Compiler {
  import opened Options
  import opened Symbols
  import opened Tokens
  import opened Earley
  import opened Ast
  import opened Types
  import opened Machine
  import opened Semantics
  import opened Numerals
  import opened Yields
  import opened Lowering
  import opened Procedures
  import opened Codegen
  import opened Simulation
  import opened Correctness
  import opened Reading
  import opened Checking
  import opened Passes
  import opened Programs
  import opened ReadDeclarations
  import opened ReadNames
  import opened ProgramReadBack

  /** A finished draft as a procedure. */
  function ProcedureOf(d: Draft): Procedure
    requires d.ret.Some?
  {
    Procedure(d.name, d.params, d.dcls, d.stmts, d.ret.value)
  }

  /** The procedure the parser makes of p, and the arguments it takes where p takes args. */
  function BuiltProcedure(p: Procedure): Procedure {
    ProcedureOf(Built(p))
  }

  function BuiltArguments(p: Procedure, args: seq<Value>): seq<Value> {
    if p.name == "wain" then args else Reversed(args)
  }

  /** The order of the parameters is kept for wain and for no one else with more than one parameter. */
  lemma ParamsInOrder(p: Procedure)
    requires IsDeclared(p)
    ensures BuiltProcedure(p).params == p.params <==> p.name == "wain" || |p.params| <= 1
  {
    DistinctParts(p.params, p.dcls);
    ReversedAt(p.params);
    if |p.params| > 1 {
      assert Reversed(p.params)[0] == p.params[|p.params| - 1];
    }
  }

  /** ys has the elements of xs, each in the place that at, its own inverse, says. */
  predicate Rearranges<T(==)>(xs: seq<T>, ys: seq<T>, at: seq<nat>) {
    && |xs| == |ys| == |at|
    && forall i :: 0 <= i < |at| ==> at[i] < |at| && at[at[i]] == i && ys[i] == xs[at[i]]
  }

  /** The same for the names and types of declarations. */
  predicate RearrangesNames(ds: seq<Dcl>, ds': seq<Dcl>, at: seq<nat>) {
    && |ds| == |ds'| == |at|
    && forall i :: 0 <= i < |at| ==> at[i] < |at| && at[at[i]] == i && IsNamedAs(ds'[i], ds[at[i]])
  }

  predicate IsNamedAs(d: Dcl, e: Dcl) {
    d.id == e.id && d.dclType == e.dclType
  }

  lemma RearrangedIds(ds: seq<Dcl>, ds': seq<Dcl>, at: seq<nat>)
    requires RearrangesNames(ds, ds', at) && DistinctIds(ds)
    ensures DistinctIds(ds')
  {
    forall i, j | 0 <= i < j < |ds'|
      ensures ds'[i].id != ds'[j].id
    {
      assert at[at[i]] == i && at[at[j]] == j;
      assert IsNamedAs(ds'[i], ds[at[i]]) && IsNamedAs(ds'[j], ds[at[j]]);
    }
  }

  lemma EnvKeys(ds: seq<Dcl>)
    requires DistinctIds(ds)
    ensures forall x :: x in EnvOf(ds) <==> exists i :: 0 <= i < |ds| && ds[i].id == x
    ensures forall i :: 0 <= i < |ds| ==> EnvOf(ds)[ds[i].id] == ds[i].dclType
  {
    TableOfDistinct(ds);
    hide EnvOf, TableOf;
  }

  /** Rearranging distinct declarations changes no type. */
  lemma RearrangedTypes(ds: seq<Dcl>, ds': seq<Dcl>, at: seq<nat>)
    requires RearrangesNames(ds, ds', at) && DistinctIds(ds)
    ensures DistinctIds(ds') && EnvOf(ds') == EnvOf(ds)
  {
    hide EnvOf, DistinctIds;
    RearrangedIds(ds, ds', at);
    EnvKeys(ds);
    EnvKeys(ds');
    forall x
      ensures x in EnvOf(ds') <==> x in EnvOf(ds)
      ensures x in EnvOf(ds) ==> EnvOf(ds')[x] == EnvOf(ds)[x]
    {
      if i :| 0 <= i < |ds| && ds[i].id == x {
        assert IsNamedAs(ds'[at[i]], ds[at[at[i]]]);
      }
      if i :| 0 <= i < |ds'| && ds'[i].id == x {
        assert IsNamedAs(ds'[i], ds[at[i]]);
      }
    }
  }

  lemma BoundKeys(ds: seq<Dcl>, vals: seq<Value>)
    requires |ds| == |vals| && DistinctIds(ds)
    ensures forall x :: x in Bound(ds, vals) <==> exists i :: 0 <= i < |ds| && ds[i].id == x
    ensures forall i :: 0 <= i < |ds| ==> Bound(ds, vals)[ds[i].id] == vals[i]
  {
    BoundDistinct(ds, vals);
    TableOfDistinct(ds);
    hide Bound, TableOf, EnvOf;
    forall x
      ensures x in Bound(ds, vals) <==> exists i :: 0 <= i < |ds| && ds[i].id == x
    {
      assert x in Bound(ds, vals).Keys <==> x in TableOf(ds).Keys;
    }
  }

  /** Every name is bound to its value by the rearranged declarations too. */
  lemma ValuesIncluded(ds: seq<Dcl>, vals: seq<Value>, ds': seq<Dcl>, vals': seq<Value>, at: seq<nat>, x: string)
    requires RearrangesNames(ds, ds', at) && Rearranges(vals, vals', at) && DistinctIds(ds) && DistinctIds(ds')
    requires |ds| == |vals| && |ds'| == |vals'| && x in Bound(ds, vals)
    ensures x in Bound(ds', vals') && Bound(ds', vals')[x] == Bound(ds, vals)[x]
  {
    BoundKeys(ds, vals);
    BoundKeys(ds', vals');
    hide Bound, DistinctIds, IsNamedAs, Rearranges, RearrangesNames;
    var i :| 0 <= i < |ds| && ds[i].id == x;
    RearrangedAt(ds, vals, ds', vals', at, i);
  }

  lemma RearrangedBack(ds: seq<Dcl>, vals: seq<Value>, ds': seq<Dcl>, vals': seq<Value>, at: seq<nat>)
    requires RearrangesNames(ds, ds', at) && Rearranges(vals, vals', at)
    ensures RearrangesNames(ds', ds, at) && Rearranges(vals', vals, at)
  {
    forall i | 0 <= i < |at|
      ensures IsNamedAs(ds[i], ds'[at[i]]) && vals[i] == vals'[at[i]]
    {
      assert at[at[i]] == i && IsNamedAs(ds'[at[i]], ds[at[at[i]]]);
    }
  }

  /** Rearranging distinct declarations together with their values binds every name to the same value. */
  lemma RearrangedValues(ds: seq<Dcl>, vals: seq<Value>, ds': seq<Dcl>, vals': seq<Value>, at: seq<nat>)
    requires RearrangesNames(ds, ds', at) && Rearranges(vals, vals', at) && DistinctIds(ds)
    ensures Bound(ds', vals') == Bound(ds, vals)
  {
    RearrangedIds(ds, ds', at);
    RearrangedBack(ds, vals, ds', vals', at);
    assert |ds| == |vals| && |ds'| == |vals'|;
    hide Bound, DistinctIds, Rearranges, RearrangesNames;
    forall x
      ensures x in Bound(ds', vals') <==> x in Bound(ds, vals)
      ensures x in Bound(ds, vals) ==> Bound(ds', vals')[x] == Bound(ds, vals)[x]
    {
      if x in Bound(ds, vals) {
        ValuesIncluded(ds, vals, ds', vals', at, x);
      }
      if x in Bound(ds', vals') {
        ValuesIncluded(ds', vals', ds, vals, at, x);
      }
    }
  }

  lemma RearrangedAt(ds: seq<Dcl>, vals: seq<Value>, ds': seq<Dcl>, vals': seq<Value>, at: seq<nat>, i: nat)
    requires RearrangesNames(ds, ds', at) && Rearranges(vals, vals', at) && i < |at|
    ensures |ds| == |ds'| == |vals| == |vals'| == |at| && at[i] < |at|
    ensures ds'[at[i]].id == ds[i].id && vals'[at[i]] == vals[i]
    ensures ds'[i].id == ds[at[i]].id && vals'[i] == vals[at[i]]
  {
    assert at[at[i]] == i;
    assert IsNamedAs(ds'[at[i]], ds[at[at[i]]]) && IsNamedAs(ds'[i], ds[at[i]]);
    assert vals'[at[i]] == vals[at[at[i]]];
  }

  /** Where declaration i of the built procedure comes from. */
  function Origin(p: Procedure, i: nat): nat
    requires i < |p.params| + |p.dcls|
  {
    if i < |p.params| then (if p.name == "wain" then i else |p.params| - 1 - i)
    else 2 * |p.params| + |p.dcls| - 1 - i
  }

  function Origins(p: Procedure): seq<nat> {
    seq(|p.params| + |p.dcls|, i requires 0 <= i < |p.params| + |p.dcls| => Origin(p, i))
  }

  lemma BuiltDeclarations(p: Procedure)
    ensures var q := BuiltProcedure(p);
            |q.params| == |p.params| && RearrangesNames(p.params + p.dcls, q.params + q.dcls, Origins(p))
  {
    ReversedAt(p.params);
    ReversedAt(Taken(p.dcls));
    hide Reversed, Taken;
  }

  /** What is taken for a number and is none leaves the value as it was. */
  lemma TakenMeansTheSame(d: Dcl)
    ensures InitialValue(AsTaken(d)) == InitialValue(d)
    ensures HasInitialValue(AsTaken(d)) <==> HasInitialValue(d)
    ensures d.dclType == Int && StartsNull(d) ==> !HasInitialValue(d)
  {
    assert !IsDigit("NULL"[0]) && !IsDigit(";"[0]);
  }

  lemma TakenKeepValues(ds: seq<Dcl>)
    ensures InitialValues(Taken(ds)) == InitialValues(ds)
  {
    hide Taken, AsTaken, InitialValue, StartsNull;
    forall i | 0 <= i < |ds|
      ensures InitialValue(Taken(ds)[i]) == InitialValue(ds[i])
    {
      TakenMeansTheSame(ds[i]);
    }
  }

  lemma ReversedValues(ds: seq<Dcl>)
    ensures var vals := InitialValues(Reversed(ds));
            |vals| == |ds| && forall i :: 0 <= i < |ds| ==> vals[i] == InitialValues(ds)[|ds| - 1 - i]
  {
    hide Reversed, InitialValue;
    ReversedAt(ds);
  }

  /** The initial values of what is taken, in reverse. */
  lemma TakenValues(ds: seq<Dcl>)
    ensures var vals := InitialValues(Reversed(Taken(ds)));
            |vals| == |ds| && forall i :: 0 <= i < |ds| ==> vals[i] == InitialValues(ds)[|ds| - 1 - i]
  {
    hide Reversed, Taken, InitialValues;
    TakenKeepValues(ds);
    ReversedValues(Taken(ds));
  }

  /** Arguments and initial values, each rearranged in its own way, are rearranged as the declarations are. */
  lemma RearrangedBoth(p: Procedure, a: seq<Value>, b: seq<Value>, x: seq<Value>, y: seq<Value>)
    requires |a| == |b| == |p.params| && |x| == |y| == |p.dcls|
    requires p.name == "wain" ==> b == a
    requires p.name != "wain" ==> forall i :: 0 <= i < |a| ==> b[i] == a[|a| - 1 - i]
    requires forall i :: 0 <= i < |x| ==> y[i] == x[|x| - 1 - i]
    ensures Rearranges(a + x, b + y, Origins(p))
  {
    forall i | 0 <= i < |a| + |x|
      ensures (b + y)[i] == (a + x)[Origin(p, i)]
    {
      var at := Origin(p, i);
      if i < |a| {
        assert (b + y)[i] == b[i] && (a + x)[at] == a[at];
      } else {
        var k := i - |a|;
        assert (b + y)[i] == y[k] && at == |a| + (|x| - 1 - k) && (a + x)[at] == x[|x| - 1 - k];
      }
    }
  }

  lemma BuiltValues(p: Procedure, args: seq<Value>)
    requires |args| == |p.params|
    ensures |BuiltArguments(p, args)| == |args|
    ensures Rearranges(args + InitialValues(p.dcls), BuiltArguments(p, args) + InitialValues(BuiltProcedure(p).dcls),
                       Origins(p))
  {
    ReversedAt(args);
    TakenValues(p.dcls);
    hide Reversed, Taken, InitialValues, Origins, Rearranges;
    RearrangedBoth(p, args, BuiltArguments(p, args), InitialValues(p.dcls), InitialValues(BuiltProcedure(p).dcls));
  }

  /** The built procedure, with its arguments, starts from the same variables. */
  lemma BuiltVariables(p: Procedure, args: seq<Value>)
    requires DistinctIds(p.params + p.dcls) && |args| == |p.params|
    ensures var q := BuiltProcedure(p);
            && |BuiltArguments(p, args)| == |q.params|
            && Bound(q.params + q.dcls, BuiltArguments(p, args) + InitialValues(q.dcls)) ==
               Bound(p.params + p.dcls, args + InitialValues(p.dcls))
  {
    hide Bound, BuiltProcedure, Origins, InitialValues, BuiltArguments, Rearranges, RearrangesNames, DistinctIds;
    var q := BuiltProcedure(p);
    BuiltDeclarations(p);
    BuiltValues(p, args);
    RearrangedValues(p.params + p.dcls, args + InitialValues(p.dcls), q.params + q.dcls,
                     BuiltArguments(p, args) + InitialValues(q.dcls), Origins(p));
  }

  /** The built procedure means what the source procedure means, with its arguments in its own order. */
  lemma BuiltMeansTheSame(world: World, p: Procedure, args: seq<Value>, heap: Heap, fuel: nat)
    requires DistinctIds(p.params + p.dcls) && |args| == |p.params|
    ensures |BuiltArguments(p, args)| == |BuiltProcedure(p).params|
    ensures RunProcedure(world, fuel, BuiltProcedure(p), BuiltArguments(p, args), heap) ==
            RunProcedure(world, fuel, p, args, heap)
  {
    BuiltVariables(p, args);
    hide Bound, ExecAll, EvalExpr, InitialValues, BuiltArguments, Reversed;
  }

  /** Inside the fragment of the meaning theorem. */
  ghost predicate IsPlain(p: Procedure) {
    var env := EnvOf(p.params + p.dcls);
    && HasInitialValues(p)
    && (forall i :: 0 <= i < |p.stmts| ==> PlainStatement(env, p.stmts[i]))
    && PlainExpr(env, p.ret)
  }

  lemma RearrangedHaveTypes(ds: seq<Dcl>, ds': seq<Dcl>, at: seq<nat>)
    requires RearrangesNames(ds, ds', at) && HaveTypes(ds)
    ensures HaveTypes(ds')
  {
    forall i | 0 <= i < |ds'|
      ensures ds'[i].dclType != Invalid
    {
      assert IsNamedAs(ds'[i], ds[at[i]]);
    }
  }

  lemma BuiltIsSound(c: Context, p: Procedure)
    requires IsDeclared(p) && c.env == EnvOf(p.params + p.dcls) && IsChecked(c, p) && IsPlain(p)
    ensures IsSound(BuiltProcedure(p))
  {
    var q := BuiltProcedure(p);
    BuiltDeclarations(p);
    RearrangedTypes(p.params + p.dcls, q.params + q.dcls, Origins(p));
    assert HaveTypes(p.params + p.dcls);
    RearrangedHaveTypes(p.params + p.dcls, q.params + q.dcls, Origins(p));
    BuiltHasValues(p);
    hide HasInitialValues, Reversed, Taken, EnvOf, DistinctIds, StatementIsTyped, ExprHasType;
    hide PlainStatement, PlainExpr;
  }

  lemma BuiltHasValues(p: Procedure)
    ensures HasInitialValues(BuiltProcedure(p)) <==> HasInitialValues(p)
  {
    var q := BuiltProcedure(p);
    ReversedAt(Taken(p.dcls));
    forall i | 0 <= i < |p.dcls|
      ensures HasInitialValue(q.dcls[|p.dcls| - 1 - i]) <==> HasInitialValue(p.dcls[i])
    {
      TakenMeansTheSame(p.dcls[i]);
    }
    hide HasInitialValue, Reversed, Taken, AsTaken;
    assert forall i :: 0 <= i < |q.dcls| ==>
             (HasInitialValue(q.dcls[i]) <==> HasInitialValue(p.dcls[|p.dcls| - 1 - i]));
  }

  lemma BuiltArgumentsFit(p: Procedure, args: seq<Value>)
    requires ArgumentsFit(p, args)
    ensures ArgumentsFit(BuiltProcedure(p), BuiltArguments(p, args))
  {
    ReversedAt(p.params);
    ReversedAt(args);
  }

  /** From end to end: the items of a well-formed program are parsed, and the blocks generated for any of its procedures
      in the fragment halt with an outcome if and only if the source procedure does, given its arguments in source
      order for wain and in reverse for all others. */
  lemma CompilesCorrectly(world: World, chart: seq<Elem>, tokens: seq<Token>, ps: seq<Procedure>, k: nat, g: Graph,
                          r: nat, args: seq<Value>, heap: Heap, o: Semantics.Outcome)
    requires chart == ProgramItems(ps) && ProgramSpelled(tokens, ps) && IsProgram(chart, tokens, ps)
    requires k < |ps| && IsPlain(ps[k]) && ArgumentsFit(ps[k], args) && o != Unfinished
    requires var q := BuiltProcedure(ps[k]); ProcedureAt(ScopeOf(q), g, q, r)
    ensures IsChart(chart)
    ensures match Parse(chart, tokens)
            case Err(_) => false
            case Ok(drafts) =>
              |drafts| == |ps| && drafts[k].ret.Some? && ProcedureOf(drafts[k]) == BuiltProcedure(ps[k])
    ensures (exists fuel: nat :: RunProcedure(world, fuel, ps[k], args, heap) == o) <==>
            (exists n: nat :: Steps(g, At(0, Start(world, BuiltArguments(ps[k], args), heap)), n) == Halt(o))
  {
    hide Parse, RunProcedure, Steps, ProcedureAt, IsSound, ProgramItems, ProgramSpelled, ArgumentsFit, IsChecked,
         IsPlain, BuiltArguments, Built, Halt;
    var p, args' := ps[k], BuiltArguments(ps[k], args);
    ProgramReadsBack(chart, tokens, ps);
    BuiltIsSound(ProgramContext(chart, tokens, ps, p), p);
    BuiltArgumentsFit(p, args);
    ProcedureIsCorrect(world, g, BuiltProcedure(p), r, args', heap, o);
    assert |args| == |p.params| by { FitLength(p, args); }
    assert |AllBuilt(ps)| == |ps| && AllBuilt(ps)[k] == Built(p) && Built(p).ret.Some? by { BuiltIs(ps, k); }
    forall fuel: nat
      ensures RunProcedure(world, fuel, BuiltProcedure(p), args', heap) == RunProcedure(world, fuel, p, args, heap)
    {
      BuiltMeansTheSame(world, p, args, heap, fuel);
    }
  }

  lemma BuiltIs(ps: seq<Procedure>, k: nat)
    requires k < |ps|
    ensures |AllBuilt(ps)| == |ps| && AllBuilt(ps)[k] == Built(ps[k]) && Built(ps[k]).ret.Some?
  {
  }

  lemma FitLength(p: Procedure, args: seq<Value>)
    requires ArgumentsFit(p, args)
    ensures |args| == |p.params|
  {
  }

  /** The functions recorded before the code of the last of some procedures, with their numbers of parameters. */
  function FunctionsOf(drafts: seq<Draft>): map<string, nat> {
    if drafts == [] then map[]
    else
      var d := drafts[|drafts| - 1];
      FunctionsOf(drafts[..|drafts| - 1])[d.name := |d.params|]
  }

  lemma {:induction false} FunctionsAt(ps: seq<Procedure>, k: nat, j: nat)
    requires j < k <= |ps| && DistinctNames(ps)
    ensures ps[j].name in FunctionsOf(AllBuilt(ps)[..k]) && FunctionsOf(AllBuilt(ps)[..k])[ps[j].name] == |ps[j].params|
    decreases k
  {
    assert AllBuilt(ps)[..k][..k - 1] == AllBuilt(ps)[..k - 1];
    if j < k - 1 {
      FunctionsAt(ps, k - 1, j);
    }
  }

  /** The code of arguments leaves one operand for each. */
  lemma {:induction false} ArgsAreCounted(c: Scope, args: Arglist, b: nat, at: nat)
    ensures |ArgsCode(c, args, b, at).results| == NumArgs(args)
    decreases args
  {
    match args
    case NoArgs =>
    case Args(e, rest) => ArgsAreCounted(c, rest, b, at + |ExprCode(c, e, b, at).instrs|);
  }

  /** Every call in a well-formed program finds the function of its callee recorded when the caller's code is generated,
      with as many parameters as the call has operands: the callee is generated no later than the caller. */
  lemma CalleesExist(chart: seq<Elem>, tokens: seq<Token>, ps: seq<Procedure>, k: nat, callee: string, args: Arglist,
                     c: Scope, b: nat, at: nat)
    requires IsProgram(chart, tokens, ps) && k < |ps| &&
             Resolves(ProgramContext(chart, tokens, ps, ps[k]), callee, args)
    ensures var n := |ArgsCode(c, args, b, at).results|;
            var functions := FunctionsOf(AllBuilt(ps)[..k + 1]);
            && (exists j :: 0 <= j <= k && ps[j].name == callee && |ps[j].params| == n)
            && callee in functions && functions[callee] == n
  {
    hide IsDeclared, IsChecked, EnvOf, AllBuilt, FunctionsOf, ArgsCode;
    ArgsAreCounted(c, args, b, at);
    assert |AllBuilt(ps)| == |ps| by { BuiltIs(ps, k); }
    TimelyCallees(Names(ps), k, callee);
    var j :| 0 <= j < k + 1 && Names(ps)[..k + 1][j] == callee;
    AritiesAt(ps, j);
    FunctionsAt(ps, k + 1, j);
  }

  // ----- the calls in the code -----

  /** Every call has a known callee, and as many operands as the callee has parameters. */
  predicate InvokesFit(functions: map<string, nat>, x: seq<Instr>) {
    forall i :: 0 <= i < |x| && x[i].Invoke? ==>
                  x[i].callee in functions && |x[i].args| == functions[x[i].callee]
  }

  /** Calls that resolve are to known functions with as many parameters as the call has operands. */
  ghost predicate AreKnown(ctx: Context, functions: map<string, nat>) {
    forall callee, args, c, b: nat, at: nat ::
      Resolves(ctx, callee, args) ==> IsKnown(functions, callee, ArgsCode(c, args, b, at))
  }

  predicate IsKnown(functions: map<string, nat>, callee: string, code: ArgsResult) {
    callee in functions && functions[callee] == |code.results|
  }

  lemma {:induction false} ExprInvokes(ctx: Context, functions: map<string, nat>, c: Scope, e: Expr, b: nat, at: nat)
    requires AreKnown(ctx, functions) && ExprResolves(ctx, e)
    ensures InvokesFit(functions, ExprCode(c, e, b, at).instrs)
    decreases e
  {
    hide AreKnown, TermCode, TermResolves, ExprType, TermType;
    if e.JustTerm? {
      TermInvokes(ctx, functions, c, e.term, b, at);
    } else {
      var w := TermCode(c, e.term, b, at);
      TermInvokes(ctx, functions, c, e.term, b, at);
      ExprInvokes(ctx, functions, c, e.left, b, at + |w.instrs|);
    }
  }

  lemma {:induction false} TermInvokes(ctx: Context, functions: map<string, nat>, c: Scope, t: Term, b: nat, at: nat)
    requires AreKnown(ctx, functions) && TermResolves(ctx, t)
    ensures InvokesFit(functions, TermCode(c, t, b, at).instrs)
    decreases t
  {
    hide AreKnown, FactorCode, FactorResolves;
    if t.JustFactor? {
      FactorInvokes(ctx, functions, c, t.factor, b, at);
    } else {
      var w := FactorCode(c, t.factor, b, at);
      FactorInvokes(ctx, functions, c, t.factor, b, at);
      TermInvokes(ctx, functions, c, t.left, b, at + |w.instrs|);
    }
  }

  lemma {:induction false} FactorInvokes(ctx: Context, functions: map<string, nat>, c: Scope, f: Factor, b: nat,
                                         at: nat)
    requires AreKnown(ctx, functions) && FactorResolves(ctx, f)
    ensures InvokesFit(functions, FactorCode(c, f, b, at).instrs)
    decreases f
  {
    hide AreKnown, ExprCode, ExprResolves, LvalueCode, LvalueResolves, ArgsCode, ArgsResolve, Resolves;
    match f
    case Paren(e) => ExprInvokes(ctx, functions, c, e, b, at);
    case NewArray(size) => ExprInvokes(ctx, functions, c, size, b, at);
    case AddressOf(l) => LvalueInvokes(ctx, functions, c, l, b, at);
    case Deref(g) => FactorInvokes(ctx, functions, c, g, b, at);
    case Call(callee, args) =>
      ArgsInvoke(ctx, functions, c, args, b, at);
      KnownCallee(ctx, functions, callee, args, c, b, at);
    case _ =>
  }

  lemma KnownCallee(ctx: Context, functions: map<string, nat>, callee: string, args: Arglist, c: Scope, b: nat, at: nat)
    requires AreKnown(ctx, functions) && Resolves(ctx, callee, args)
    ensures callee in functions && functions[callee] == |ArgsCode(c, args, b, at).results|
  {
    hide Resolves;
  }

  lemma {:induction false} ArgsInvoke(ctx: Context, functions: map<string, nat>, c: Scope, args: Arglist, b: nat,
                                      at: nat)
    requires AreKnown(ctx, functions) && ArgsResolve(ctx, args)
    ensures InvokesFit(functions, ArgsCode(c, args, b, at).instrs)
    decreases args
  {
    hide AreKnown, ExprCode, ExprResolves;
    match args
    case NoArgs =>
    case Args(e, rest) =>
      ExprInvokes(ctx, functions, c, e, b, at);
      ArgsInvoke(ctx, functions, c, rest, b, at + |ExprCode(c, e, b, at).instrs|);
  }

  lemma {:induction false} LvalueInvokes(ctx: Context, functions: map<string, nat>, c: Scope, l: Lvalue, b: nat,
                                         at: nat)
    requires AreKnown(ctx, functions) && LvalueResolves(ctx, l)
    ensures InvokesFit(functions, LvalueCode(c, l, b, at).instrs)
    decreases l
  {
    hide AreKnown;
    match l
    case Var(_) =>
    case Target(f) => FactorInvokes(ctx, functions, c, f, b, at);
    case Enclosed(inner) => LvalueInvokes(ctx, functions, c, inner, b, at);
  }

  /** The same in all code of a statement, whatever block it is in. */
  ghost predicate StatementInvokesFit(functions: map<string, nat>, c: Scope, s: Statement) {
    match s
    case If(t, onTrue, onFalse) =>
      && (forall b: nat :: InvokesFit(functions, TestCode(c, t, b, 0).instrs))
      && (forall i :: 0 <= i < |onTrue| ==> StatementInvokesFit(functions, c, onTrue[i]))
      && (forall i :: 0 <= i < |onFalse| ==> StatementInvokesFit(functions, c, onFalse[i]))
    case While(t, body) =>
      && (forall b: nat :: InvokesFit(functions, TestCode(c, t, b, 0).instrs))
      && (forall i :: 0 <= i < |body| ==> StatementInvokesFit(functions, c, body[i]))
    case _ => forall b: nat :: InvokesFit(functions, SimpleCode(c, s, b, 0))
  }

  lemma TestInvokes(ctx: Context, functions: map<string, nat>, c: Scope, t: Test, b: nat)
    requires AreKnown(ctx, functions) && TestResolves(ctx, t)
    ensures InvokesFit(functions, TestCode(c, t, b, 0).instrs)
  {
    hide AreKnown, ExprCode, ExprResolves;
    ExprInvokes(ctx, functions, c, t.right, b, 0);
    ExprInvokes(ctx, functions, c, t.left, b, |ExprCode(c, t.right, b, 0).instrs|);
  }

  lemma SimpleInvokes(ctx: Context, functions: map<string, nat>, c: Scope, s: Statement, b: nat)
    requires AreKnown(ctx, functions) && IsSimple(s) && StatementResolves(ctx, s)
    ensures InvokesFit(functions, SimpleCode(c, s, b, 0))
  {
    hide AreKnown, ExprCode, ExprResolves, LvalueCode, LvalueResolves;
    ExprInvokes(ctx, functions, c, s.expr, b, 0);
    if s.Assign? {
      LvalueInvokes(ctx, functions, c, s.lvalue, b, |ExprCode(c, s.expr, b, 0).instrs|);
    }
  }

  lemma {:induction false} StatementInvokes(ctx: Context, functions: map<string, nat>, c: Scope, s: Statement)
    requires AreKnown(ctx, functions) && StatementResolves(ctx, s)
    ensures StatementInvokesFit(functions, c, s)
    decreases s
  {
    hide AreKnown, InvokesFit, TestCode, SimpleCode, TestResolves;
    match s
    case If(t, onTrue, onFalse) =>
      forall b: nat ensures InvokesFit(functions, TestCode(c, t, b, 0).instrs) {
        TestInvokes(ctx, functions, c, t, b);
      }
      forall i | 0 <= i < |onTrue| ensures StatementInvokesFit(functions, c, onTrue[i]) {
        StatementInvokes(ctx, functions, c, onTrue[i]);
      }
      forall i | 0 <= i < |onFalse| ensures StatementInvokesFit(functions, c, onFalse[i]) {
        StatementInvokes(ctx, functions, c, onFalse[i]);
      }
    case While(t, body) =>
      forall b: nat ensures InvokesFit(functions, TestCode(c, t, b, 0).instrs) {
        TestInvokes(ctx, functions, c, t, b);
      }
      forall i | 0 <= i < |body| ensures StatementInvokesFit(functions, c, body[i]) {
        StatementInvokes(ctx, functions, c, body[i]);
      }
    case _ =>
      forall b: nat ensures InvokesFit(functions, SimpleCode(c, s, b, 0)) {
        SimpleInvokes(ctx, functions, c, s, b);
      }
  }

  /** In the code of every procedure of a well-formed program, each call is to a function recorded by then, and has
      exactly as many operands as that function has parameters. */
  lemma CallsFit(chart: seq<Elem>, tokens: seq<Token>, ps: seq<Procedure>, k: nat, c: Scope)
    requires IsProgram(chart, tokens, ps) && k < |ps| == |AllBuilt(ps)|
    ensures var functions := FunctionsOf(AllBuilt(ps)[..k + 1]);
            && (forall i :: 0 <= i < |ps[k].stmts| ==> StatementInvokesFit(functions, c, ps[k].stmts[i]))
            && forall b: nat :: InvokesFit(functions, ExprCode(c, ps[k].ret, b, 0).instrs)
  {
    hide Resolves, StatementResolves, ExprResolves, InvokesFit, ExprCode, ArgsCode, FunctionsOf, AllBuilt, IsDeclared,
         StatementIsTyped, ExprHasType, EnvOf, Names, Arities;
    var ctx, functions := ProgramContext(chart, tokens, ps, ps[k]), FunctionsOf(AllBuilt(ps)[..k + 1]);
    assert AreKnown(ctx, functions) by {
      forall callee, args, c', b: nat, at: nat | Resolves(ctx, callee, args)
        ensures IsKnown(functions, callee, ArgsCode(c', args, b, at))
      {
        CalleesExist(chart, tokens, ps, k, callee, args, c', b, at);
      }
    }
    assert IsChecked(ctx, ps[k]);
    hide AreKnown;
    forall i | 0 <= i < |ps[k].stmts|
      ensures StatementInvokesFit(functions, c, ps[k].stmts[i])
    {
      assert StatementIsSound(ctx, ps[k].stmts[i]);
      StatementInvokes(ctx, functions, c, ps[k].stmts[i]);
    }
    forall b: nat
      ensures InvokesFit(functions, ExprCode(c, ps[k].ret, b, 0).instrs)
    {
      ExprInvokes(ctx, functions, c, ps[k].ret, b, 0);
    }
  }

  lemma {:induction false} AritiesAt(ps: seq<Procedure>, j: nat)
    requires j < |ps| && DistinctNames(ps)
    ensures ps[j].name in Arities(ps) && Arities(ps)[ps[j].name] == |ps[j].params|
  {
    if j > 0 {
      AritiesAt(ps[1..], j - 1);
    }
  }

  /** Generates the blocks of one procedure; fails on an int declaration whose value is not a number. */
  method CompileProcedure(p: Procedure) returns (ok: bool, g: Graph, r: nat)
    ensures ok <==> HasInitialValues(p)
    ensures ok ==>
              ProcedureAt(ScopeOf(p), g, p, r) && IsWellFormed(ScopeOf(p), g, r) && SlotsAreAllocated(ScopeOf(p), g)
  {
    var generator := new CodeGenerator(EnvOf(p.params + p.dcls));
    ok := generator.GenProcedure(p);
    g, r := generator.blocks, generator.insert;
  }
}
