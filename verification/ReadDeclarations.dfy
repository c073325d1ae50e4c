/** Reading the items of declarations and parameters backward gives them in reverse. */
module ReadDeclarations {
  import opened Options
  import opened Symbols
  import opened Tokens
  import opened Earley
  import opened Wlp4Grammar
  import opened Ast
  import opened Types
  import opened Yields
  import opened Items
  import opened Procedures
  import opened Reading
  import opened Checking
  import opened ReadBack
  import opened ReadStatements
  import opened Passes
  import opened Programs

  /** The chart up to item i is xs. */
  predicate ShowsIn(chart: seq<Elem>, i: int, xs: seq<Elem>) {
    IsChart(chart) && |xs| == i + 1 && |xs| <= |chart| && chart[..|xs|] == xs
  }

  lemma TopShowsIn(chart: seq<Elem>, i: int, xs: seq<Elem>, r: nat, s: nat)
    requires r < 49 && ShowsIn(chart, i, xs + [Done(r, s)])
    ensures 0 <= i == |xs| && ShowsIn(chart, i - 1, xs) && IsAt(chart, i) && chart[i] == Done(r, s)
  {
    hide RuleAt;
    assert chart[..i + 1][..i] == chart[..i];
    assert chart[i] == chart[..i + 1][i];
  }

  lemma {:induction false} SkipIn(chart: seq<Elem>, i: int, xs: seq<Elem>, noise: seq<Elem>, sym: Symbol)
    requires ShowsIn(chart, i, xs + noise) && Lacks(noise, sym)
    ensures ShowsIn(chart, |xs| - 1, xs) && Find(chart, sym, i) == Find(chart, sym, |xs| - 1)
  {
    hide Find, RuleAt;
    SkipNoise(Context(chart, [], map[], [], map[], ""), i, xs, noise, sym);
  }

  // ----- declarations -----

  /** The declaration as it is read: the initial value when it is wanted. */
  function AsRead(d: Dcl, withValue: bool): Dcl {
    if withValue then AsTaken(d) else d.(value := "")
  }

  /** A declaration is read from its two items. */
  lemma DclReadBack(chart: seq<Elem>, tokens: seq<Token>, i: int, xs: seq<Elem>, d: Dcl, s: nat, withValue: bool)
    requires ShowsIn(chart, i, xs + DclItems(d, s)) && DclSpelled(tokens, s, d) && d.dclType != Invalid
    requires withValue ==> InitialSpelled(tokens, s, d)
    ensures ShowsIn(chart, |xs| - 1, xs) && IsAt(chart, i)
    ensures ReadDcl(chart, tokens, i, if withValue then Some(InitialToken(d)) else None) ==
            Ok((AsRead(d, withValue), |xs| - 1))
  {
    var r := if d.dclType == IntStar then 10 else 9;
    assert xs + DclItems(d, s) == (xs + [Done(r, s)]) + [Done(14, s)];
    TopShowsIn(chart, i, xs + [Done(r, s)], 14, s);
    TopShowsIn(chart, i - 1, xs, r, s);
    assert |RuleAt(r).rhs| == (if d.dclType == IntStar then 2 else 1) && RuleAt(14).lhs == DCL;
    hide RuleAt;
  }

  /** Adding one declaration, counted as a parameter or not. */
  function AddOne(t: Tables, name: string, d: Dcl, counted: bool): Tables {
    if counted then CountParam(AddDcl(t, name, d), name) else AddDcl(t, name, d)
  }

  /** Adding declarations one after the other. */
  function AddAll(t: Tables, name: string, ds: seq<Dcl>, counted: bool): Tables
    decreases |ds|
  {
    if ds == [] then t else AddAll(AddOne(t, name, ds[0], counted), name, ds[1..], counted)
  }

  lemma AddNone(t: Tables, name: string, counted: bool)
    ensures AddAll(t, name, [], counted) == t
  {
  }

  lemma AddFirst(t: Tables, name: string, d: Dcl, rest: seq<Dcl>, counted: bool)
    ensures AddAll(t, name, [d] + rest, counted) == AddAll(AddOne(t, name, d, counted), name, rest, counted)
  {
    assert ([d] + rest)[1..] == rest;
  }

  lemma AddAsRead(t: Tables, name: string, d: Dcl)
    ensures AddDcl(t, name, AsRead(d, false)) == AddDcl(t, name, d)
  {
  }

  predicate HaveTypes(ds: seq<Dcl>) {
    forall i :: 0 <= i < |ds| ==> ds[i].dclType != Invalid
  }

  lemma DclsRuleOf(d: Dcl)
    ensures var r := DclsRule(d);
            RuleAt(r).lhs == DCLS && |RuleAt(r).rhs| == 5 && RuleAt(r).rhs[3] == InitialToken(d)
    ensures RuleAt(11).lhs == DCLS && RuleAt(11).rhs == []
    ensures RuleAt(15).lhs != DCLS && RuleAt(15).lhs != PARAMS
  {
  }

  lemma LacksOne(r: nat, s: nat, sym: Symbol)
    requires r < 49 && RuleAt(r).lhs != sym
    ensures Lacks([Done(r, s)], sym)
  {
  }

  /** None of the names is declared yet. */
  predicate IsFresh(p: Draft, ds: seq<Dcl>) {
    DistinctIds(ds) && forall i :: 0 <= i < |ds| ==> !Declares(p, ds[i].id)
  }

  function WithDcls(p: Option<Draft>, ds: seq<Dcl>): Option<Draft> {
    match p case None => None case Some(q) => Some(q.(dcls := q.dcls + ds))
  }

  function WithParams(p: Option<Draft>, ds: seq<Dcl>): Option<Draft> {
    match p case None => None case Some(q) => Some(q.(params := q.params + ds))
  }

  lemma WithMore(p: Option<Draft>, d: Dcl, rest: seq<Dcl>)
    ensures WithDcls(WithDcls(p, [d]), rest) == WithDcls(p, [d] + rest)
    ensures WithParams(WithParams(p, [d]), rest) == WithParams(p, [d] + rest)
  {
    if p.Some? {
      assert p.value.dcls + [d] + rest == p.value.dcls + ([d] + rest);
      assert p.value.params + [d] + rest == p.value.params + ([d] + rest);
    }
  }

  lemma WithNone(p: Option<Draft>)
    ensures WithDcls(p, []) == p && WithParams(p, []) == p
  {
    if p.Some? {
      assert p.value.dcls + [] == p.value.dcls && p.value.params + [] == p.value.params;
    }
  }

  lemma FreshFront(p: Draft, ds: seq<Dcl>)
    requires ds != [] && IsFresh(p, ds)
    ensures var front, d := ds[..|ds| - 1], ds[|ds| - 1];
            && !Declares(p, d.id)
            && IsFresh(p.(dcls := p.dcls + [AsTaken(d)]), front) && IsFresh(p.(params := p.params + [d]), front)
  {
    var front, d := ds[..|ds| - 1], ds[|ds| - 1];
    assert AsTaken(d).id == d.id;
    forall i | 0 <= i < |front|
      ensures !Declares(p.(dcls := p.dcls + [AsTaken(d)]), front[i].id)
      ensures !Declares(p.(params := p.params + [d]), front[i].id)
    {
      assert front[i] == ds[i];
    }
  }

  lemma SkipDcls(chart: seq<Elem>, tokens: seq<Token>, i: int, xs: seq<Elem>, noise: seq<Elem>, t: Tables, name: string,
                 p: Option<Draft>)
    requires ShowsIn(chart, i, xs + noise) && Lacks(noise, DCLS)
    ensures ShowsIn(chart, |xs| - 1, xs)
    ensures CollectDcls(chart, tokens, i, t, name, p) == CollectDcls(chart, tokens, |xs| - 1, t, name, p)
  {
    hide RuleAt, Lacks, ReadDcl;
    SkipIn(chart, i, xs, noise, DCLS);
  }

  lemma DclsStep(chart: seq<Elem>, tokens: seq<Token>, i: int, d: Dcl, j: int, t: Tables, name: string,
                 p: Option<Draft>)
    requires 0 <= i && IsAt(chart, i) && chart[i].rule == DclsRule(d)
    requires ReadDcl(chart, tokens, i - 1, if p.Some? then Some(InitialToken(d)) else None) ==
             Ok((AsRead(d, p.Some?), j))
    requires p.Some? ==> !Declares(p.value, d.id)
    ensures CollectDcls(chart, tokens, i, t, name, p) ==
            CollectDcls(chart, tokens, j, AddDcl(t, name, d), name, WithDcls(p, [AsTaken(d)]))
  {
    hide RuleAt, ReadDcl, Declares, Find, Lhs;
    assert Find(chart, DCLS, i) == i && RuleAt(chart[i].rule).rhs != [] &&
           RuleAt(chart[i].rule).rhs[3] == InitialToken(d) by {
      DclsRuleOf(d);
      FindHere(chart, DCLS, i);
    }
    AddAsRead(t, name, d);
  }

  lemma DclsEnd(chart: seq<Elem>, tokens: seq<Token>, i: int, t: Tables, name: string, p: Option<Draft>)
    requires 0 <= i && IsAt(chart, i) && chart[i].rule == 11
    ensures CollectDcls(chart, tokens, i, t, name, p) == Ok((t, p, i - 1))
  {
  }

  /** The last declaration, down to the items of those before it. */
  lemma LastDclIsCollected(chart: seq<Elem>, tokens: seq<Token>, i: int, xs: seq<Elem>, d: Dcl, at: nat, s: nat,
                           t: Tables, name: string, p: Option<Draft>)
    requires ShowsIn(chart, i, ((xs + [Done(15, at)]) + DclItems(d, at)) + [Done(DclsRule(d), s)])
    requires DclSpelled(tokens, at, d) && InitialSpelled(tokens, at, d) && d.dclType != Invalid
    requires p.Some? ==> !Declares(p.value, d.id)
    ensures ShowsIn(chart, |xs| - 1, xs) && IsAt(chart, i)
    ensures CollectDcls(chart, tokens, i, t, name, p) ==
            CollectDcls(chart, tokens, |xs| - 1, AddOne(t, name, d, false), name, WithDcls(p, [AsTaken(d)]))
  {
    hide RuleAt, ReadDcl, CollectDcls, Declares, WithDcls, Lacks, AsRead, AsTaken, InitialToken, DclSpelled,
         InitialSpelled;
    var r, noise := DclsRule(d), [Done(15, at)];
    TopShowsIn(chart, i, (xs + noise) + DclItems(d, at), r, s);
    DclReadBack(chart, tokens, i - 1, xs + noise, d, at, p.Some?);
    WithKeeps(p, [AsTaken(d)]);
    DclsStep(chart, tokens, i, d, |xs + noise| - 1, t, name, p);
    DclsRuleOf(d);
    LacksOne(15, at, DCLS);
    SkipDcls(chart, tokens, |xs + noise| - 1, xs, noise, AddDcl(t, name, d), name, WithDcls(p, [AsTaken(d)]));
  }

  lemma ReversedTaken(ds: seq<Dcl>)
    ensures Reversed(Taken(ds)) ==
            if ds == [] then [] else [AsTaken(ds[|ds| - 1])] + Reversed(Taken(ds[..|ds| - 1]))
  {
    if ds != [] {
      assert Taken(ds)[..|ds| - 1] == Taken(ds[..|ds| - 1]);
    }
  }

  lemma DclsParts(xs: seq<Elem>, ds: seq<Dcl>, s: nat)
    requires ds != []
    ensures var front, d := ds[..|ds| - 1], ds[|ds| - 1];
            var at := s + |DclsYield(front)|;
            xs + DclsItems(ds, s) ==
            (((xs + DclsItems(front, s)) + [Done(15, at)]) + DclItems(d, at)) + [Done(DclsRule(d), s)]
  {
    hide DclItems, DclsYield;
  }

  /** Both passes meet the declarations in reverse. */
  lemma {:induction false} DclsAreCollected(chart: seq<Elem>, tokens: seq<Token>, i: int, xs: seq<Elem>, ds: seq<Dcl>,
                                            s: nat,
                                            t: Tables, name: string, p: Option<Draft>)
    requires ShowsIn(chart, i, xs + DclsItems(ds, s)) && DclsSpelled(tokens, s, ds) && HaveTypes(ds)
    requires p.Some? ==> IsFresh(p.value, ds)
    ensures ShowsIn(chart, |xs| - 1, xs) && IsAt(chart, i)
    ensures CollectDcls(chart, tokens, i, t, name, p) ==
            Ok((AddAll(t, name, Reversed(ds), false), WithDcls(p, Reversed(Taken(ds))), |xs| - 1))
    decreases |ds|
  {
    hide RuleAt, ShowsIn, CollectDcls, IsFresh, Declares, WithDcls, AddAll, AddOne, DclSpelled, InitialSpelled,
         DclItems, DclsYield, AsTaken;
    ReversedTaken(ds);
    assert Reversed(ds) == if ds == [] then [] else [ds[|ds| - 1]] + Reversed(ds[..|ds| - 1]);
    if ds == [] {
      TopShowsIn(chart, i, xs, 11, s);
      DclsEnd(chart, tokens, i, t, name, p);
      WithNone(p);
      AddNone(t, name, false);
    } else {
      var front, d := ds[..|ds| - 1], ds[|ds| - 1];
      var at, x := s + |DclsYield(front)|, DclsItems(front, s);
      if p.Some? { FreshFront(p.value, ds); }
      WithKeeps(p, [AsTaken(d)]);
      DclsParts(xs, ds, s);
      hide DclsItems, Reversed, Taken;
      LastDclIsCollected(chart, tokens, i, xs + x, d, at, s, t, name, p);
      DclsAreCollected(chart, tokens, |xs + x| - 1, xs, front, s, AddOne(t, name, d, false), name,
                       WithDcls(p, [AsTaken(d)]));
      AddFirst(t, name, d, Reversed(front), false);
      WithMore(p, AsTaken(d), Reversed(Taken(front)));
    }
  }

  // ----- parameters -----

  lemma ParamsRules()
    ensures RuleAt(5).lhs == PARAMS && RuleAt(5).rhs == []
    ensures RuleAt(6).lhs == PARAMS && |RuleAt(6).rhs| == 1
    ensures RuleAt(7).lhs != DCL && RuleAt(8).lhs != DCL
  {
  }

  lemma ParamsStep(chart: seq<Elem>, tokens: seq<Token>, i: int, d: Dcl, j: int, t: Tables, name: string,
                   p: Option<Draft>)
    requires 0 <= i && IsAt(chart, i) && chart[i].rule == 6 && d.value == ""
    requires ReadDcl(chart, tokens, i - 1, None) == Ok((d, j))
    requires p.Some? ==> !Declares(p.value, d.id)
    ensures CollectParams(chart, tokens, i, t, name, p) ==
            CollectParams(chart, tokens, j, AddOne(t, name, d, p.None?), name, WithParams(p, [d]))
  {
    hide RuleAt, ReadDcl, Declares, Find, Lhs;
    assert Find(chart, PARAMS, i) == i && RuleAt(chart[i].rule).rhs != [] by {
      ParamsRules();
      FindHere(chart, PARAMS, i);
    }
  }

  lemma ParamsEnd(chart: seq<Elem>, tokens: seq<Token>, i: int, t: Tables, name: string, p: Option<Draft>)
    requires 0 <= i && IsAt(chart, i) && chart[i].rule == 5
    ensures CollectParams(chart, tokens, i, t, name, p) == Ok((t, p, i - 1))
  {
  }

  lemma {:induction false} ListEndsLackDcl(ds: seq<Dcl>, s: nat, at: nat)
    ensures Lacks([Done(7, at)] + ListEnds(ds, s), DCL)
  {
    if ds != [] {
      ListEndsLackDcl(ds[..|ds| - 1], s, at);
      var x, y := [Done(7, at)] + ListEnds(ds[..|ds| - 1], s), [Done(7, at)] + ListEnds(ds, s);
      forall j | 0 <= j < |y|
        ensures y[j].rule < 49 && RuleAt(y[j].rule).lhs != DCL
      {
        if j > 1 {
          assert y[j] == x[j - 1];
        }
      }
    }
  }

  lemma SkipDcl(chart: seq<Elem>, tokens: seq<Token>, i: int, xs: seq<Elem>, noise: seq<Elem>)
    requires ShowsIn(chart, i, xs + noise) && Lacks(noise, DCL)
    ensures ShowsIn(chart, |xs| - 1, xs) && ReadDcl(chart, tokens, i, None) == ReadDcl(chart, tokens, |xs| - 1, None)
  {
    hide RuleAt, Lacks;
    SkipIn(chart, i, xs, noise, DCL);
  }

  predicate HaveNoValues(ds: seq<Dcl>) {
    forall i :: 0 <= i < |ds| ==> ds[i].value == ""
  }

  /** The last parameter, down to the items of those before it. */
  lemma LastParamIsCollected(chart: seq<Elem>, tokens: seq<Token>, i: int, xs: seq<Elem>, d: Dcl, at: nat,
                             noise: seq<Elem>, s: nat,
                             t: Tables, name: string, p: Option<Draft>)
    requires ShowsIn(chart, i, ((xs + DclItems(d, at)) + noise) + [Done(6, s)]) && Lacks(noise, DCL)
    requires DclSpelled(tokens, at, d) && d.dclType != Invalid && d.value == "" &&
             (p.Some? ==> !Declares(p.value, d.id))
    ensures ShowsIn(chart, |xs| - 1, xs) && IsAt(chart, i)
    ensures CollectParams(chart, tokens, i, t, name, p) ==
            CollectParams(chart, tokens, |xs| - 1, AddOne(t, name, d, p.None?), name, WithParams(p, [d]))
  {
    hide RuleAt, ReadDcl, CollectParams, Declares, WithParams, Lacks, AddOne, DclSpelled, DclItems;
    TopShowsIn(chart, i, (xs + DclItems(d, at)) + noise, 6, s);
    SkipDcl(chart, tokens, i - 1, xs + DclItems(d, at), noise);
    DclReadBack(chart, tokens, |xs + DclItems(d, at)| - 1, xs, d, at, false);
    assert AsRead(d, false) == d;
    ParamsStep(chart, tokens, i, d, |xs| - 1, t, name, p);
  }

  lemma ParamsParts(xs: seq<Elem>, ds: seq<Dcl>, s: nat)
    requires ds != []
    ensures var front, at := ds[..|ds| - 1], LastParamAt(ds, s);
            xs + ParamsItems(ds, s) ==
            (((xs + ParamsItems(front, s)) + DclItems(ds[|ds| - 1], at)) + ([Done(7, at)] + ListEnds(front, s))) +
              [Done(6, s)]
  {
    hide DclItems, ListEnds, LastParamAt;
  }

  /** Both passes meet the parameters in reverse, each as the end of a list of parameters. */
  lemma {:induction false} ParamsAreCollected(chart: seq<Elem>, tokens: seq<Token>, i: int, xs: seq<Elem>, ds: seq<Dcl>,
                                              s: nat,
                                              t: Tables, name: string, p: Option<Draft>)
    requires ShowsIn(chart, i, xs + ParamsItems(ds, s)) && ParamsSpelled(tokens, s, ds) && HaveTypes(ds) &&
             HaveNoValues(ds)
    requires p.Some? ==> IsFresh(p.value, ds)
    ensures ShowsIn(chart, |xs| - 1, xs) && IsAt(chart, i)
    ensures CollectParams(chart, tokens, i, t, name, p) ==
            Ok((AddAll(t, name, Reversed(ds), p.None?), WithParams(p, Reversed(ds)), |xs| - 1))
    decreases |ds|
  {
    hide RuleAt, ShowsIn, CollectParams, IsFresh, Declares, WithParams, AddAll, AddOne, Lacks, ListEnds, LastParamAt,
         DclItems, DclSpelled;
    assert Reversed(ds) == if ds == [] then [] else [ds[|ds| - 1]] + Reversed(ds[..|ds| - 1]);
    if ds == [] {
      TopShowsIn(chart, i, xs, 5, s);
      ParamsEnd(chart, tokens, i, t, name, p);
      WithNone(p);
      AddNone(t, name, p.None?);
    } else {
      var front, d, at := ds[..|ds| - 1], ds[|ds| - 1], LastParamAt(ds, s);
      var x, noise := ParamsItems(front, s), [Done(7, at)] + ListEnds(front, s);
      if p.Some? { FreshFront(p.value, ds); }
      WithKeeps(p, [d]);
      ParamsParts(xs, ds, s);
      hide ParamsItems, Reversed;
      ListEndsLackDcl(front, s, at);
      LastParamIsCollected(chart, tokens, i, xs + x, d, at, noise, s, t, name, p);
      ParamsAreCollected(chart, tokens, |xs + x| - 1, xs, front, s, AddOne(t, name, d, p.None?), name,
                         WithParams(p, [d]));
      AddFirst(t, name, d, Reversed(front), p.None?);
      WithMore(p, d, Reversed(front));
    }
  }

  lemma WithKeeps(p: Option<Draft>, ds: seq<Dcl>)
    ensures WithParams(p, ds).None? == p.None? && WithDcls(p, ds).None? == p.None?
    ensures p.Some? ==> WithParams(p, ds).value == p.value.(params := p.value.params + ds)
    ensures p.Some? ==> WithDcls(p, ds).value == p.value.(dcls := p.value.dcls + ds)
  {
  }

  // ----- only fresh names are collected -----

  lemma FreshBack(p: Draft, ds: seq<Dcl>)
    requires ds != [] && !Declares(p, ds[|ds| - 1].id)
    requires var front, d := ds[..|ds| - 1], ds[|ds| - 1];
             IsFresh(p.(dcls := p.dcls + [AsTaken(d)]), front) || IsFresh(p.(params := p.params + [d]), front)
    ensures IsFresh(p, ds)
  {
    var front, d := ds[..|ds| - 1], ds[|ds| - 1];
    var e := AsTaken(d);
    var q := if IsFresh(p.(dcls := p.dcls + [e]),
                        front) then p.(dcls := p.dcls + [e]) else p.(params := p.params + [d]);
    assert e.id == d.id && (p.dcls + [e])[|p.dcls|] == e && (p.params + [d])[|p.params|] == d;
    forall i | 0 <= i < |front|
      ensures front[i].id != d.id && !Declares(p, front[i].id)
    {
      assert !Declares(q, front[i].id);
      assert forall j :: 0 <= j < |p.dcls| ==> (p.dcls + [e])[j] == p.dcls[j];
      assert forall j :: 0 <= j < |p.params| ==> (p.params + [d])[j] == p.params[j];
    }
    forall i, j | 0 <= i < j < |ds|
      ensures ds[i].id != ds[j].id
    {
      assert ds[i] == front[i] && (j < |front| ==> ds[j] == front[j]);
    }
  }

  lemma DclRefused(chart: seq<Elem>, tokens: seq<Token>, i: int, xs: seq<Elem>, d: Dcl, at: nat, s: nat, t: Tables,
                   name: string, p: Draft)
    requires ShowsIn(chart, i, ((xs + [Done(15, at)]) + DclItems(d, at)) + [Done(DclsRule(d), s)])
    requires DclSpelled(tokens, at, d) && InitialSpelled(tokens, at, d) && d.dclType != Invalid
    requires Declares(p, d.id)
    ensures IsAt(chart, i) && CollectDcls(chart, tokens, i, t, name, Some(p)) == Err(Redeclared(d.id))
  {
    hide RuleAt, ReadDcl, Declares, DclSpelled, Spells, InitialToken, DclItems, Find, Lhs;
    var r := DclsRule(d);
    TopShowsIn(chart, i, (xs + [Done(15, at)]) + DclItems(d, at), r, s);
    DclReadBack(chart, tokens, i - 1, xs + [Done(15, at)], d, at, true);
    DclsRuleOf(d);
    FindHere(chart, DCLS, i);
  }

  lemma {:induction false} DclsAreFresh(chart: seq<Elem>, tokens: seq<Token>, i: int, xs: seq<Elem>, ds: seq<Dcl>,
                                        s: nat,
                                        t: Tables, name: string, p: Draft)
    requires ShowsIn(chart, i, xs + DclsItems(ds, s)) && DclsSpelled(tokens, s, ds) && HaveTypes(ds)
    requires CollectDcls(chart, tokens, i, t, name, Some(p)).Ok?
    ensures IsFresh(p, ds)
    decreases |ds|
  {
    hide RuleAt, ShowsIn, CollectDcls, Declares, AddOne, DclSpelled, Spells, DclItems, DclsYield;
    if ds != [] {
      hide IsFresh;
      var front, d := ds[..|ds| - 1], ds[|ds| - 1];
      var at, x := s + |DclsYield(front)|, DclsItems(front, s);
      DclsParts(xs, ds, s);
      hide DclsItems;
      if Declares(p, d.id) {
        DclRefused(chart, tokens, i, xs + x, d, at, s, t, name, p);
      }
      LastDclIsCollected(chart, tokens, i, xs + x, d, at, s, t, name, Some(p));
      DclsAreFresh(chart, tokens, |xs + x| - 1, xs, front, s, AddOne(t, name, d, false), name,
                   p.(dcls := p.dcls + [AsTaken(d)]));
      FreshBack(p, ds);
    }
  }

  lemma ParamRefused(chart: seq<Elem>, tokens: seq<Token>, i: int, xs: seq<Elem>, d: Dcl, at: nat, noise: seq<Elem>,
                     s: nat,
                     t: Tables, name: string, p: Draft)
    requires ShowsIn(chart, i, ((xs + DclItems(d, at)) + noise) + [Done(6, s)]) && Lacks(noise, DCL)
    requires DclSpelled(tokens, at, d) && d.dclType != Invalid && d.value == "" && Declares(p, d.id)
    ensures IsAt(chart, i) && CollectParams(chart, tokens, i, t, name, Some(p)) == Err(Redeclared(d.id))
  {
    hide RuleAt, ReadDcl, Declares, Lacks, DclSpelled, DclItems, Find, Lhs;
    TopShowsIn(chart, i, (xs + DclItems(d, at)) + noise, 6, s);
    SkipDcl(chart, tokens, i - 1, xs + DclItems(d, at), noise);
    DclReadBack(chart, tokens, |xs + DclItems(d, at)| - 1, xs, d, at, false);
    assert AsRead(d, false) == d;
    ParamsRules();
    FindHere(chart, PARAMS, i);
  }

  lemma {:induction false} ParamsAreFresh(chart: seq<Elem>, tokens: seq<Token>, i: int, xs: seq<Elem>, ds: seq<Dcl>,
                                          s: nat,
                                          t: Tables, name: string, p: Draft)
    requires ShowsIn(chart, i, xs + ParamsItems(ds, s)) && ParamsSpelled(tokens, s, ds) && HaveTypes(ds) &&
             HaveNoValues(ds)
    requires CollectParams(chart, tokens, i, t, name, Some(p)).Ok?
    ensures IsFresh(p, ds)
    decreases |ds|
  {
    hide RuleAt, ShowsIn, CollectParams, Declares, AddOne, Lacks, ListEnds, LastParamAt, DclItems, DclSpelled;
    if ds != [] {
      hide IsFresh;
      var front, d, at := ds[..|ds| - 1], ds[|ds| - 1], LastParamAt(ds, s);
      var x, noise := ParamsItems(front, s), [Done(7, at)] + ListEnds(front, s);
      ParamsParts(xs, ds, s);
      ListEndsLackDcl(front, s, at);
      if Declares(p, d.id) {
        ParamRefused(chart, tokens, i, xs + x, d, at, noise, s, t, name, p);
      }
      LastParamIsCollected(chart, tokens, i, xs + x, d, at, noise, s, t, name, Some(p));
      ParamsAreFresh(chart, tokens, |xs + x| - 1, xs, front, s, AddOne(t, name, d, false), name,
                     p.(params := p.params + [d]));
      FreshBack(p, ds);
    }
  }
}
