/** Whatever chart the parser accepts, what it builds follows the typing rules, and all calls in it resolve. */
module Accepted {
  import opened Options
  import opened Symbols
  import opened Tokens
  import opened Earley
  import opened Wlp4Grammar
  import opened Ast
  import opened Types
  import opened Reading
  import opened Checking
  import opened Passes

  /** A declaration item of the chart gives the name and the type. */
  ghost predicate IsDeclaredIn(chart: seq<Elem>, tokens: seq<Token>, id: string, ty: DclType)
    requires IsChart(chart)
  {
    exists k :: 0 < k < |chart| && DeclaresAt(chart, tokens, k, id, ty)
  }

  ghost predicate DeclaresAt(chart: seq<Elem>, tokens: seq<Token>, k: int, id: string, ty: DclType)
    requires IsChart(chart) && 0 < k < |chart|
  {
    var isInt := |RuleAt(chart[k - 1].rule).rhs| == 1;
    && Lhs(chart, k) == DCL
    && ValueAt(tokens, chart[k - 1].start + if isInt then 1 else 2) == Ok(id)
    && ty == if isInt then Int else IntStar
  }

  lemma ReadIsDeclared(chart: seq<Elem>, tokens: seq<Token>, i: int, sym: Option<Symbol>)
    requires IsAt(chart, i) && ReadDcl(chart, tokens, i, sym).Ok?
    ensures var d := ReadDcl(chart, tokens, i, sym).value.0; IsDeclaredIn(chart, tokens, d.id, d.dclType)
  {
    hide RuleAt;
    var k, d := Find(chart, DCL, i), ReadDcl(chart, tokens, i, sym).value.0;
    assert DeclaresAt(chart, tokens, k, d.id, d.dclType);
  }

  /** Every type in the tables is that of a declaration of the chart. */
  ghost predicate TypesAreDeclared(chart: seq<Elem>, tokens: seq<Token>, t: Tables)
    requires IsChart(chart)
  {
    forall name, id :: id in EnvAt(t, name) ==> IsDeclaredIn(chart, tokens, id, EnvAt(t, name)[id])
  }

  lemma StillDeclared(chart: seq<Elem>, tokens: seq<Token>, t: Tables, name: string, d: Dcl)
    requires IsChart(chart) && TypesAreDeclared(chart, tokens, t) && IsDeclaredIn(chart, tokens, d.id, d.dclType)
    ensures TypesAreDeclared(chart, tokens, AddDcl(t, name, d))
  {
    hide IsDeclaredIn;
    var t' := AddDcl(t, name, d);
    forall other, id | id in EnvAt(t', other)
      ensures IsDeclaredIn(chart, tokens, id, EnvAt(t', other)[id])
    {
      assert id in EnvAt(t, other) || (other == name && id == d.id);
    }
  }

  // ----- the first pass -----

  lemma {:induction false} DclsAreDeclared(chart: seq<Elem>, tokens: seq<Token>, i: int, t: Tables, name: string)
    requires IsAt(chart, i) && TypesAreDeclared(chart, tokens, t) && CollectDcls(chart, tokens, i, t, name, None).Ok?
    ensures TypesAreDeclared(chart, tokens, CollectDcls(chart, tokens, i, t, name, None).value.0)
    decreases i + 1
  {
    hide RuleAt, Find, ReadDcl, TypesAreDeclared, IsDeclaredIn;
    var k := Find(chart, DCLS, i);
    if RuleAt(chart[k].rule).rhs != [] {
      var (d, j) := ReadDcl(chart, tokens, k - 1, None).value;
      ReadIsDeclared(chart, tokens, k - 1, None);
      StillDeclared(chart, tokens, t, name, d);
      DclsAreDeclared(chart, tokens, j, AddDcl(t, name, d), name);
    }
  }

  lemma {:induction false} ParamsAreDeclared(chart: seq<Elem>, tokens: seq<Token>, i: int, t: Tables, name: string)
    requires IsAt(chart, i) && TypesAreDeclared(chart, tokens, t) && CollectParams(chart, tokens, i, t, name, None).Ok?
    ensures TypesAreDeclared(chart, tokens, CollectParams(chart, tokens, i, t, name, None).value.0)
    decreases i + 1
  {
    hide RuleAt, Find, ReadDcl, TypesAreDeclared, IsDeclaredIn;
    var k := Find(chart, PARAMS, i);
    if RuleAt(chart[k].rule).rhs != [] {
      var (d, j) := ReadDcl(chart, tokens, k - 1, None).value;
      ReadIsDeclared(chart, tokens, k - 1, None);
      StillDeclared(chart, tokens, t, name, d);
      SameTypes(chart, tokens, AddDcl(t, name, d), CountParam(AddDcl(t, name, d), name));
      ParamsAreDeclared(chart, tokens, j, CountParam(AddDcl(t, name, d), name), name);
    }
  }

  /** Tables with the same types. */
  lemma SameTypes(chart: seq<Elem>, tokens: seq<Token>, t: Tables, t': Tables)
    requires IsChart(chart) && TypesAreDeclared(chart, tokens, t) && t'.types == t.types
    ensures TypesAreDeclared(chart, tokens, t')
  {
    hide IsDeclaredIn;
    forall name, id | id in EnvAt(t', name)
      ensures IsDeclaredIn(chart, tokens, id, EnvAt(t', name)[id])
    {
      assert EnvAt(t', name) == EnvAt(t, name);
    }
  }

  lemma WainIsDeclared(chart: seq<Elem>, tokens: seq<Token>, i: int)
    requires IsAt(chart, i) && ReadWainParams(chart, tokens, i).Ok?
    ensures var (d1, d2, _) := ReadWainParams(chart, tokens, i).value;
            IsDeclaredIn(chart, tokens, d1.id, d1.dclType) && IsDeclaredIn(chart, tokens, d2.id, d2.dclType)
  {
    hide RuleAt, ReadDcl, IsDeclaredIn;
    ReadIsDeclared(chart, tokens, i, None);
    ReadIsDeclared(chart, tokens, ReadDcl(chart, tokens, i, None).value.1, None);
  }

  /** The first pass takes all types from declarations of the chart. */
  lemma {:induction false} FirstPassIsDeclared(chart: seq<Elem>, tokens: seq<Token>, i: int, name: string, t: Tables)
    requires IsAt(chart, i) && TypesAreDeclared(chart, tokens, t) && FirstPass(chart, tokens, i, name, t).Ok?
    ensures TypesAreDeclared(chart, tokens, FirstPass(chart, tokens, i, name, t).value)
    decreases i + 1
  {
    hide RuleAt, CollectDcls, CollectParams, ReadWainParams, TypesAreDeclared, IsDeclaredIn;
    if i >= 0 {
      var lhs := Lhs(chart, i);
      if lhs == PROCEDURE || lhs == MAIN {
        var next := ValueAt(tokens, chart[i].start + 1).value;
        var t' := AddName(t, next).value;
        SameTypes(chart, tokens, t, t');
        FirstPassIsDeclared(chart, tokens, i - 1, next, t');
      } else if lhs == DCLS {
        var (t', _, j) := CollectDcls(chart, tokens, i, t, name, None).value;
        DclsAreDeclared(chart, tokens, i, t, name);
        FirstPassIsDeclared(chart, tokens, j, name, t');
      } else if lhs == DCL && name == "wain" {
        var (d1, d2, j) := ReadWainParams(chart, tokens, i).value;
        WainIsDeclared(chart, tokens, i);
        StillDeclared(chart, tokens, t, name, d2);
        StillDeclared(chart, tokens, AddDcl(t, name, d2), name, d1);
        FirstPassIsDeclared(chart, tokens, j, name, AddDcl(AddDcl(t, name, d2), name, d1));
      } else if lhs == PARAMS {
        var (t', _, j) := CollectParams(chart, tokens, i, t, name, None).value;
        ParamsAreDeclared(chart, tokens, i, t, name);
        FirstPassIsDeclared(chart, tokens, j, name, t');
      } else {
        FirstPassIsDeclared(chart, tokens, i - 1, name, t);
      }
    }
  }

  // ----- the second pass -----

  lemma {:induction false} DclsStayDeclared(chart: seq<Elem>, tokens: seq<Token>, i: int, t: Tables, name: string,
                                            p: Draft)
    requires IsAt(chart, i) && TypesAreDeclared(chart, tokens, t) && CollectDcls(chart, tokens, i, t, name, Some(p)).Ok?
    ensures var (t', q, _) := CollectDcls(chart, tokens, i, t, name, Some(p)).value;
            TypesAreDeclared(chart, tokens, t') && q.value.stmts == p.stmts && q.value.ret == p.ret
    decreases i + 1
  {
    hide RuleAt, Find, ReadDcl, Declares, TypesAreDeclared, IsDeclaredIn;
    var k := Find(chart, DCLS, i);
    if RuleAt(chart[k].rule).rhs != [] {
      DclsRules(chart[k].rule);
      var sym := Some(RuleAt(chart[k].rule).rhs[3]);
      var (d, j) := ReadDcl(chart, tokens, k - 1, sym).value;
      ReadIsDeclared(chart, tokens, k - 1, sym);
      StillDeclared(chart, tokens, t, name, d);
      DclsStayDeclared(chart, tokens, j, AddDcl(t, name, d), name, p.(dcls := p.dcls + [d]));
    }
  }

  lemma {:induction false} ParamsStayDeclared(chart: seq<Elem>, tokens: seq<Token>, i: int, t: Tables, name: string,
                                              p: Draft)
    requires IsAt(chart, i) && TypesAreDeclared(chart, tokens, t)
    requires CollectParams(chart, tokens, i, t, name, Some(p)).Ok?
    ensures var (t', q, _) := CollectParams(chart, tokens, i, t, name, Some(p)).value;
            TypesAreDeclared(chart, tokens, t') && q.value.stmts == p.stmts && q.value.ret == p.ret
    decreases i + 1
  {
    hide RuleAt, Find, ReadDcl, Declares, TypesAreDeclared, IsDeclaredIn;
    var k := Find(chart, PARAMS, i);
    if RuleAt(chart[k].rule).rhs != [] {
      var (d, j) := ReadDcl(chart, tokens, k - 1, None).value;
      ReadIsDeclared(chart, tokens, k - 1, None);
      StillDeclared(chart, tokens, t, name, d);
      ParamsStayDeclared(chart, tokens, j, AddDcl(t, name, d), name, p.(params := p.params + [d]));
    }
  }

  /** What is new in q, a result or statements in front of those of p, is typed and resolved in c. */
  ghost predicate AddsSound(c: Context, p: Draft, q: Draft) {
    var n := |q.stmts| - |p.stmts|;
    && n >= 0 && q.stmts[n..] == p.stmts && BodyIsSound(c, q.stmts[..n])
    && (q.ret != p.ret ==> q.ret.Some? && ExprHasType(c.env, q.ret.value, Int) && ExprResolves(c, q.ret.value))
  }

  /** From item i on, every part the second pass takes is right in the tables it has when it comes to the part, all of
      whose types are those of declarations of the chart. */
  ghost predicate RunIsSound(chart: seq<Elem>, tokens: seq<Token>, i: int, t: Tables, p: Draft)
    requires IsAt(chart, i)
    decreases i + 1
  {
    && TypesAreDeclared(chart, tokens, t)
    && (i >= 0 ==>
          if Lhs(chart, i) == PROCEDURE || Lhs(chart, i) == MAIN then
            var name := ValueAt(tokens, chart[i].start + 1);
            name.Ok? ==> RunIsSound(chart, tokens, i - 1, t, Draft(name.value, [], [], [], None))
          else
            var r := ReadPart(chart, tokens, i, t, p);
            r.Ok? ==>
              var (t', q, j) := r.value;
              AddsSound(ContextOf(chart, tokens, t, p.name), p, q) && RunIsSound(chart, tokens, j, t', q))
  }

  lemma PartIsSound(chart: seq<Elem>, tokens: seq<Token>, i: int, t: Tables, p: Draft)
    requires 0 <= i && IsAt(chart, i) && TypesAreDeclared(chart, tokens, t) && ReadPart(chart, tokens, i, t, p).Ok?
    ensures var (t', q, _) := ReadPart(chart, tokens, i, t, p).value;
            TypesAreDeclared(chart, tokens, t') && AddsSound(ContextOf(chart, tokens, t, p.name), p, q)
  {
    hide RuleAt, ReadExpr, ReadBody, ReadWainParams, CollectDcls, CollectParams, Declares, TypesAreDeclared, ExprType,
         ExprHasType, ExprResolves, BodyIsSound;
    var lhs, c := Lhs(chart, i), ContextOf(chart, tokens, t, p.name);
    assert BodyIsSound(c, []) by { NothingToCheck(c); }
    if lhs == EXPR && p.ret.None? {
      ReadExprIsSound(c, i);
    } else if lhs == STATEMENTS {
      ReadBodyIsSound(c, i);
      var stmts := ReadBody(c, i).value.0;
      assert (stmts + p.stmts)[..|stmts|] == stmts;
    } else if lhs == DCLS {
      DclsStayDeclared(chart, tokens, i, t, p.name, p);
    } else if lhs == DCL && p.name == "wain" {
      var (d1, d2, j) := ReadWainParams(chart, tokens, i).value;
      WainIsDeclared(chart, tokens, i);
      StillDeclared(chart, tokens, t, p.name, d2);
      StillDeclared(chart, tokens, AddDcl(t, p.name, d2), p.name, d1);
    } else if lhs == PARAMS {
      ParamsStayDeclared(chart, tokens, i, t, p.name, p);
    }
  }

  lemma NothingToCheck(c: Context)
    ensures BodyIsSound(c, [])
  {
  }

  lemma {:induction false} EveryRunIsSound(chart: seq<Elem>, tokens: seq<Token>, i: int, t: Tables, p: Draft)
    requires IsAt(chart, i) && TypesAreDeclared(chart, tokens, t)
    ensures RunIsSound(chart, tokens, i, t, p)
    decreases i + 1
  {
    hide RuleAt, ReadPart, TypesAreDeclared, AddsSound;
    if i >= 0 {
      if Lhs(chart, i) == PROCEDURE || Lhs(chart, i) == MAIN {
        var name := ValueAt(tokens, chart[i].start + 1);
        if name.Ok? {
          EveryRunIsSound(chart, tokens, i - 1, t, Draft(name.value, [], [], [], None));
        }
      } else if ReadPart(chart, tokens, i, t, p).Ok? {
        var (t', q, j) := ReadPart(chart, tokens, i, t, p).value;
        PartIsSound(chart, tokens, i, t, p);
        EveryRunIsSound(chart, tokens, j, t', q);
      }
    }
  }

  /** Soundness of the checks, for any chart at all: if it is parsed, the first pass has filled the tables, all types in
      them come from declarations of the chart, and from there on every result and every statement that is taken is
      right in the tables of that moment. */
  lemma ParseIsSound(chart: seq<Elem>, tokens: seq<Token>)
    requires IsChart(chart) && Parse(chart, tokens).Ok?
    ensures var t, name := FirstPass(chart, tokens, |chart| - 1, "", NO_TABLES),
                           ValueAt(tokens, chart[|chart| - 1].start + 1);
            && t.Ok? && name.Ok?
            && Parse(chart, tokens) ==
               SecondPass(chart, tokens, |chart| - 2, t.value, Draft(name.value, [], [], [], None), [])
            && RunIsSound(chart, tokens, |chart| - 2, t.value, Draft(name.value, [], [], [], None))
  {
    hide RuleAt, FirstPass, SecondPass, RunIsSound;
    var n, t := |chart| - 1, FirstPass(chart, tokens, |chart| - 1, "", NO_TABLES).value;
    FirstPassIsDeclared(chart, tokens, n, "", NO_TABLES);
    var name := ValueAt(tokens, chart[n].start + 1).value;
    EveryRunIsSound(chart, tokens, n - 1, t, Draft(name, [], [], [], None));
  }
}
