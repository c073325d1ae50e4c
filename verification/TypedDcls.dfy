/** In the final chart every completed declaration stands right after its one type. */
module TypedDcls {
  import opened Symbols
  import opened Grammar
  import opened Earley
  import opened Charts
  import opened Wlp4Grammar
  import opened FinalChart

  const DCL_RULE: nat := 14

  // ----- what stands before an emptiable nonterminal -----

  predicate IsGuard(a: Symbol) {
    a == LPAREN || a == LBRACE || a == SEMI || a == DCLS
  }

  ghost predicate EmptiesAreGuarded(a: Form) {
    forall i :: 0 < i < |a| && IsEmptiable(a[i]) ==> IsGuard(a[i - 1])
  }

  /** The facts about a rule that keep emptiable nonterminals guarded, and where ID ends a rule. */
  ghost predicate DclRule(rule: Rule, r: nat) {
    && EmptiesAreGuarded(rule.rhs)
    && StartsSolid(rule)
    && (rule.rhs != [] && rule.lhs == DCLS ==> rule.rhs[|rule.rhs| - 1] == SEMI)
    && (rule.rhs != [] && rule.rhs[|rule.rhs| - 1] == ID ==> r == DCL_RULE || rule.rhs == [ID])
  }

  ghost predicate DclGrammar(g: Cfg) {
    && TypeGrammar(g)
    && TerminalsAreFixed(g)
    && |g| > DCL_RULE
    && g[DCL_RULE] == Rule(DCL, [TYPE, ID])
    && forall r: nat :: r < |g| ==> DclRule(g[r], r)
  }

  lemma WhereEmptiesOccur(r: nat, a: Symbol)
    requires r < 49 && a in RuleAt(r).rhs && IsEmptiable(a)
    ensures r in {3, 4, 12, 13, 16, 18, 19}
  {
  }

  lemma EmptiesInRules(r: nat)
    requires r < 49
    ensures EmptiesAreGuarded(RuleAt(r).rhs)
  {
    if r !in {3, 4, 12, 13, 16, 18, 19} {
      hide RuleAt;
      forall i | 0 < i < |RuleAt(r).rhs|
        ensures !IsEmptiable(RuleAt(r).rhs[i])
      {
        if IsEmptiable(RuleAt(r).rhs[i]) {
          WhereEmptiesOccur(r, RuleAt(r).rhs[i]);
        }
      }
    }
  }

  lemma EndsOfRules(r: nat)
    requires r < 49
    ensures var rule := RuleAt(r);
            && (rule.rhs != [] && rule.lhs == DCLS ==> rule.rhs[|rule.rhs| - 1] == SEMI)
            && (rule.rhs != [] && rule.rhs[|rule.rhs| - 1] == ID ==> r == DCL_RULE || rule.rhs == [ID])
  {
  }

  lemma Wlp4IsDclGrammar()
    ensures DclGrammar(CFG())
  {
    Wlp4IsTypeGrammar();
    RulesStartSolid();
    Wlp4IsAdmissible();
    hide TypeGrammar, Admissible, EmptiesAreGuarded, RuleAt;
    assert TerminalsAreFixed(CFG()) by { AdmissibleIsFixed(CFG()); }
    assert CFG()[DCL_RULE] == Rule(DCL, [TYPE, ID]) by { TheDclRule(); }
    forall r: nat | r < |CFG()|
      ensures DclRule(CFG()[r], r)
    {
      EmptiesInRules(r);
      EndsOfRules(r);
    }
  }

  lemma AdmissibleIsFixed(g: Cfg)
    requires Admissible(g)
    ensures TerminalsAreFixed(g)
  {
  }

  lemma TheDclRule()
    ensures RuleAt(DCL_RULE) == Rule(DCL, [TYPE, ID])
  {
  }

  lemma GuardedStep(g: Cfg, a: Form, b: Form)
    requires DclGrammar(g) && EmptiesAreGuarded(a) && Step(g, a, b)
    ensures EmptiesAreGuarded(b)
  {
    var p: nat, r: nat :| Rewrites(g, a, b, p, r);
    var rhs := g[r].rhs;
    var n := |rhs|;
    assert DclRule(g[r], r) && TypeRule(g[r]);
    hide TypeRule;
    forall i | 0 < i < |b| && IsEmptiable(b[i])
      ensures IsGuard(b[i - 1])
    {
      if i < p {
        assert b[i] == a[i];
      } else if i < p + n {
        assert b[i] == rhs[i - p];
        if i == p {
          assert b[i - 1] == a[p - 1];
        }
      } else {
        assert b[i] == a[i - n + 1];
        if i == p + n && n > 0 {
          assert b[i - 1] == rhs[n - 1] && IsGuard(a[p]);
        } else if i == p + n {
          assert b[i - 1] == a[p - 1] && IsGuard(a[p]);
        }
      }
    }
  }

  lemma {:induction false} GuardedAlong(g: Cfg, a: Form, b: Form, n: nat)
    requires DclGrammar(g) && EmptiesAreGuarded(a) && DerivesIn(g, a, b, n)
    ensures EmptiesAreGuarded(b)
    decreases n
  {
    if n > 0 {
      var c: Form :| Step(g, a, c) && DerivesIn(g, c, b, n - 1);
      GuardedStep(g, a, c);
      GuardedAlong(g, c, b, n - 1);
    }
  }

  /** Nothing empty is completed after ID. */
  lemma NothingEmptyAfterId(g: Cfg, input: Form, a: Symbol, k: nat)
    requires DclGrammar(g) && 0 < k <= |input| && input[k - 1] == ID && CanFollow(g, input, a, k)
    ensures !IsEmptiable(a)
  {
    var rest: Form :| Derives(g, [g[0].lhs], input[..k] + [a] + rest);
    var form := input[..k] + [a] + rest;
    var n: nat :| DerivesIn(g, [g[0].lhs], form, n);
    assert form[k - 1] == ID && form[k] == a;
    GuardedAlong(g, [g[0].lhs], form, n);
  }

  // ----- one declaration -----

  /** The item of the type that starts at s. */
  function TypeItem(input: Form, s: nat): Elem {
    if s + 1 < |input| && input[s + 1] == STAR then Elem(LONG_TYPE, s, 2) else Elem(SHORT_TYPE, s, 1)
  }

  /** What a type derives. */
  lemma TypeSpan(g: Cfg, w: Form, n: nat)
    requires DclGrammar(g) && DerivesIn(g, [TYPE], w, n) && AllTerminals(w)
    ensures w == [INT] || w == [INT, STAR]
  {
    if n > 0 {
      var r := FirstRule(g, TYPE, w, n);
      assert TypeRule(g[r]);
      TerminalsStay(g, g[r].rhs, w, n - 1);
    }
  }

  /** A declaration derives a type and ID. */
  lemma DclTokens(g: Cfg, w: Form)
    requires DclGrammar(g) && AllTerminals(w) && Derives(g, [TYPE, ID], w)
    ensures w == [INT] + [ID] || w == [INT, STAR] + [ID]
  {
    hide TypeGrammar, DclRule;
    assert [TYPE, ID] == [TYPE] + [ID];
    var n: nat :| DerivesIn(g, [TYPE] + [ID], w, n);
    var x, y, n1, n2 := SplitDerivation(g, [TYPE], [ID], w, n);
    TerminalsStay(g, [ID], y, n2);
    assert forall i :: 0 <= i < |x| ==> x[i] == w[i];
    TypeSpan(g, x, n1);
  }

  /** A completed declaration is INT ID or INT STAR ID, and the item of its type belongs in the list before. */
  lemma DclSpan(g: Cfg, input: Form, s: nat, k: nat)
    requires DclGrammar(g) && AllTerminals(input) && Belongs(g, input, Elem(DCL_RULE, s, 2), k)
    ensures k == s + 1 + TypeItem(input, s).dot && input[s] == INT && input[k - 1] == ID
    ensures k == s + 3 ==> input[s + 1] == STAR
    ensures Belongs(g, input, TypeItem(input, s), k - 1)
  {
    hide TypeGrammar, DclRule, Derives, CanFollow;
    var w := input[s..k];
    assert [TYPE, ID][..2] == [TYPE, ID];
    DclTokens(g, w);
    var x := if |w| == 2 then [INT] else [INT, STAR];
    assert w == x + [ID];
    assert input[s] == w[0] && input[s + 1] == w[1] && input[k - 1] == w[|w| - 1];
    TypeBelongs(g, input, s, k, x);
  }

  lemma TypeCanFollow(g: Cfg, input: Form, s: nat)
    requires DclGrammar(g) && s <= |input| && CanFollow(g, input, DCL, s)
    ensures CanFollow(g, input, TYPE, s)
  {
    hide TypeGrammar, DclRule;
    var p := input[..s];
    var rest: Form :| Derives(g, [g[0].lhs], p + [DCL] + rest);
    DerivesByRule(g, DCL_RULE);
    DerivesContext(g, p, [DCL], [TYPE, ID], rest);
    DerivesTrans(g, [g[0].lhs], p + [DCL] + rest, p + [TYPE, ID] + rest);
    assert [TYPE, ID] == [TYPE] + [ID];
    assert p + ([TYPE] + [ID]) + rest == p + [TYPE] + ([ID] + rest);
  }

  lemma TypeBelongs(g: Cfg, input: Form, s: nat, k: nat, x: Form)
    requires DclGrammar(g) && s < k <= |input| && CanFollow(g, input, DCL, s)
    requires input[s..k] == x + [ID] && (x == [INT] || x == [INT, STAR])
    ensures Belongs(g, input, TypeItem(input, s), k - 1)
  {
    hide Derives, CanFollow, DclRule;
    TypeCanFollow(g, input, s);
    DerivesRefl(g, x);
    assert |input[s..k]| == |x| + 1 && input[s + 1] == input[s..k][1];
    assert input[s..k - 1] == input[s..k][..|x|] == x;
    assert TypeItem(input, s).dot == |x|;
    assert g[TypeItem(input, s).rule].rhs[..|x|] == x;
  }

  /** The symbol before the dot of a completed item, when it is a terminal, is the last token. */
  lemma LastTerminal(g: Cfg, input: Form, e: Elem, k: nat)
    requires DclGrammar(g) && AllTerminals(input) && Belongs(g, input, e, k) && IsComplete(g, e) && e.dot > 0
    requires IsTerminal(g[e.rule].rhs[e.dot - 1])
    ensures e.start < k && input[k - 1] == g[e.rule].rhs[e.dot - 1]
  {
    hide TypeGrammar, DclRule;
    var rhs, w := g[e.rule].rhs, input[e.start..k];
    var x := rhs[e.dot - 1];
    assert rhs[..e.dot] == rhs[..e.dot - 1] + [x];
    var n: nat :| DerivesIn(g, rhs[..e.dot - 1] + [x], w, n);
    var u, v, n1, n2 := SplitDerivation(g, rhs[..e.dot - 1], [x], w, n);
    TerminalsStay(g, [x], v, n2);
    assert w[|w| - 1] == x;
  }

  /** Nothing in the list is completed before the declaration. */
  lemma {:induction false} NothingBefore(g: Cfg, input: Form, items: seq<Elem>, k: nat, s: nat, j: nat, i: nat)
    requires DclGrammar(g) && AllTerminals(input) && SoundList(g, input, items, k)
    requires i < j < |items| && items[j] == Elem(DCL_RULE, s, 2)
    requires forall m :: 0 <= m < i ==> !IsComplete(g, items[m])
    ensures !IsComplete(g, items[i])
  {
    hide Derives, CanFollow;
    var e := items[i];
    assert e in items && items[j] in items;
    DclSpan(g, input, s, k);
    if IsComplete(g, e) {
      assert TypeRule(g[e.rule]) && DclRule(g[e.rule], e.rule) && IsCaused(g, input, items[..i], k, e);
      if e.dot == 0 {
        EmptyStart(g, input, e, k);
        NothingEmptyAfterId(g, input, g[e.rule].lhs, k);
      } else {
        var x := g[e.rule].rhs[e.dot - 1];
        if IsTerminal(x) {
          LastTerminal(g, input, e, k);
          EndsInId(g, input, e, k, s);
        } else if HasEmptyRule(g, x) {
          EmptyIsEmptiable(g, x);
        }
      }
    }
  }

  lemma EmptyStart(g: Cfg, input: Form, e: Elem, k: nat)
    requires |g| > 0 && Belongs(g, input, e, k) && e.dot == 0 && TerminalsAreFixed(g)
    ensures e.start == k
  {
    var n: nat :| DerivesIn(g, [], input[e.start..k], n);
    assert g[e.rule].rhs[..0] == [];
    TerminalsStay(g, [], input[e.start..k], n);
  }

  lemma EmptyIsEmptiable(g: Cfg, x: Symbol)
    requires DclGrammar(g) && HasEmptyRule(g, x)
    ensures IsEmptiable(x)
  {
    var r :| 0 <= r < |g| && g[r].lhs == x && g[r].rhs == [];
    assert TypeRule(g[r]);
  }

  /** After INT ID or INT STAR ID nothing ends in ID but the declaration itself. */
  lemma EndsInId(g: Cfg, input: Form, e: Elem, k: nat, s: nat)
    requires DclGrammar(g) && AllTerminals(input) && Belongs(g, input, e, k) && IsComplete(g, e) && e.dot > 0
    requires g[e.rule].rhs[e.dot - 1] == ID && Belongs(g, input, Elem(DCL_RULE, s, 2), k)
    ensures e == Elem(DCL_RULE, s, 2)
  {
    DclSpan(g, input, s, k);
    if e.rule == DCL_RULE {
      DclSpan(g, input, e.start, k);
    } else {
      assert DclRule(g[e.rule], e.rule) && TypeRule(g[e.rule]);
      OneTokenSpan(g, input, e, k);
      hide Belongs, DclGrammar;
      NothingFollowsTypes(g, input, g[e.rule].lhs, k - 1);
    }
  }

  lemma OneTokenSpan(g: Cfg, input: Form, e: Elem, k: nat)
    requires |g| > 0 && TerminalsAreFixed(g) && Belongs(g, input, e, k) && IsComplete(g, e) && g[e.rule].rhs == [ID]
    ensures e.start == k - 1 && CanFollow(g, input, g[e.rule].lhs, k - 1)
  {
    assert g[e.rule].rhs[..e.dot] == [ID];
    var n: nat :| DerivesIn(g, [ID], input[e.start..k], n);
    TerminalsStay(g, [ID], input[e.start..k], n);
  }

  // ----- in the final chart -----

  lemma {:induction false} NoneBefore(g: Cfg, input: Form, items: seq<Elem>, k: nat, s: nat, j: nat, i: nat)
    requires DclGrammar(g) && AllTerminals(input) && SoundList(g, input, items, k)
    requires i <= j < |items| && items[j] == Elem(DCL_RULE, s, 2)
    ensures forall m :: 0 <= m < i ==> !IsComplete(g, items[m])
  {
    hide DclGrammar, SoundList, IsComplete;
    if i > 0 {
      NoneBefore(g, input, items, k, s, j, i - 1);
      NothingBefore(g, input, items, k, s, j, i - 1);
    }
  }

  /** The first completed item of a list is the first one kept. */
  lemma {:induction false} KeptFirst(g: Cfg, items: seq<Elem>, next: seq<Elem>, j: nat)
    requires j < |items| && IsComplete(g, items[j]) && !Superseded(items[j], next)
    requires forall m :: 0 <= m < j ==> !IsComplete(g, items[m])
    ensures Kept(g, items, next) != [] && Kept(g, items, next)[0] == items[j]
  {
    hide IsComplete, Superseded;
    var front := items[..|items| - 1];
    if j < |front| {
      KeptFirst(g, front, next, j);
    } else {
      NoneKept(g, front, next);
    }
  }

  lemma {:induction false} NoneKept(g: Cfg, items: seq<Elem>, next: seq<Elem>)
    requires forall m :: 0 <= m < |items| ==> !IsComplete(g, items[m])
    ensures Kept(g, items, next) == []
  {
    if items != [] {
      NoneKept(g, items[..|items| - 1], next);
    }
  }

  /** What is kept of two neighbouring lists stands together in the final chart. */
  lemma {:induction false} FinalSplit(g: Cfg, c: Chart, n: nat, k: nat) returns (before: seq<Elem>, after: seq<Elem>)
    requires 0 < k < n <= |c|
    ensures Final(g, c, n) ==
            before + Kept(g, c[k - 1], c[k]) + Kept(g, c[k], if k + 1 < n then c[k + 1] else []) + after
    decreases n
  {
    if k + 1 == n {
      before, after := KeptBelow(g, c, k - 1), [];
      assert before + Kept(g, c[k - 1], c[k]) + Kept(g, c[k], []) + [] ==
             before + Kept(g, c[k - 1], c[k]) + Kept(g, c[k], []);
    } else {
      var last := Kept(g, c[n - 1], []);
      before, after := KeptSplit(g, c, n - 1, k);
      var x, y := Kept(g, c[k - 1], c[k]), Kept(g, c[k], c[k + 1]);
      assert before + x + y + after + last == before + x + y + (after + last);
      after := after + last;
    }
  }

  lemma {:induction false} KeptSplit(g: Cfg, c: Chart, n: nat, k: nat) returns (before: seq<Elem>, after: seq<Elem>)
    requires 0 < k < n < |c|
    ensures KeptBelow(g, c, n) == before + Kept(g, c[k - 1], c[k]) + Kept(g, c[k], c[k + 1]) + after
    decreases n
  {
    var last := Kept(g, c[n - 1], c[n]);
    if k + 1 == n {
      before, after := KeptBelow(g, c, k - 1), [];
      assert before + Kept(g, c[k - 1], c[k]) + last + [] == before + Kept(g, c[k - 1], c[k]) + last;
    } else {
      before, after := KeptSplit(g, c, n - 1, k);
      var x, y := Kept(g, c[k - 1], c[k]), Kept(g, c[k], c[k + 1]);
      assert before + x + y + after + last == before + x + y + (after + last);
      after := after + last;
    }
  }

  /** Of the list before a completed declaration, exactly the item of its type is kept. */
  lemma TypeIsKept(g: Cfg, input: Form, c: Chart, k: nat, s: nat)
    requires DclGrammar(g) && AllTerminals(input) && 0 < k < |c| && ExactBelow(g, input, c, |c| - 1)
    requires Elem(DCL_RULE, s, 2) in c[k]
    ensures Kept(g, c[k - 1], c[k]) == [TypeItem(input, s)]
  {
    hide InOrder, Derives, CanFollow, TypeRule, DclRule;
    var t := TypeItem(input, s);
    assert SoundList(g, input, c[k], k) && SoundList(g, input, c[k - 1], k - 1);
    DclSpan(g, input, s, k);
    assert t in c[k - 1];
    forall e | e in c[k - 1] && IsComplete(g, e)
      ensures e == t
    {
      if t.rule == LONG_TYPE {
        CompletedAfterIntStar(g, input, e, k - 1);
      } else {
        CompletedAfterInt(g, input, e, k - 1);
      }
    }
    assert IsComplete(g, Elem(DCL_RULE, s, 2));
    if Elem(LONG_TYPE, s, 2) in c[k] {
      LongTypeStandsAlone(g, input, Elem(LONG_TYPE, s, 2), k);
    }
    KeptAlone(g, c[k - 1], c[k], t);
  }

  /** Of the list of a completed declaration, the declaration is the first item kept. */
  lemma DclIsFirst(g: Cfg, input: Form, c: Chart, k: nat, s: nat, next: seq<Elem>)
    requires DclGrammar(g) && AllTerminals(input) && k < |c| && Sound(g, input, c) && Elem(DCL_RULE, s, 2) in c[k]
    ensures k > 0 && Kept(g, c[k], next) != [] && Kept(g, c[k], next)[0] == Elem(DCL_RULE, s, 2)
  {
    var d := Elem(DCL_RULE, s, 2);
    assert SoundList(g, input, c[k], k);
    var j: nat :| j < |c[k]| && c[k][j] == d;
    DclSpan(g, input, s, k);
    assert IsComplete(g, d);
    NoneBefore(g, input, c[k], k, s, j, j);
    hide DclGrammar, SoundList, Sound;
    KeptFirst(g, c[k], next, j);
  }

  /** Every declaration completed in a list of an accepted text stands in the final chart right after the item of its
      type, the long one where there is a star. */
  lemma DclFollowsItsType(g: Cfg, input: Form, c: Chart, k: nat, s: nat) returns (before: seq<Elem>, after: seq<Elem>)
    requires DclGrammar(g) && AllTerminals(input) && 0 < |c| && ExactBelow(g, input, c, |c| - 1) && k < |c|
    requires Elem(DCL_RULE, s, 2) in c[k]
    ensures Final(g, c, |c|) == before + [TypeItem(input, s), Elem(DCL_RULE, s, 2)] + after
  {
    hide Final, Kept, DclGrammar, Sound, TypeItem;
    var d, next := Elem(DCL_RULE, s, 2), if k + 1 < |c| then c[k + 1] else [];
    DclIsFirst(g, input, c, k, s, next);
    TypeIsKept(g, input, c, k, s);
    var kept := Kept(g, c[k], next);
    before, after := FinalSplit(g, c, |c|, k);
    assert [TypeItem(input, s)] + kept == [TypeItem(input, s), d] + kept[1..];
    assert before + [TypeItem(input, s)] + kept + after == before + ([TypeItem(input, s)] + kept) + after;
    after := kept[1..] + after;
  }
}
