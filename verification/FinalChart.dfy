/** The final chart: the completed items of every list, in order, with each `type -> INT` that grew into
    `type -> INT STAR` taken out again. */
module FinalChart {
  import opened Symbols
  import opened Grammar
  import opened Earley
  import opened Charts
  import opened Wlp4Grammar

  const SHORT_TYPE: nat := 9
  const LONG_TYPE: nat := 10

  /** What can stand right after INT, after TYPE and after INT STAR in a sentential form. */
  ghost predicate TypesAreFollowed(a: Form) {
    forall i :: 0 <= i < |a| - 1 ==>
                  && (a[i] == TYPE ==> a[i + 1] == ID)
                  && (a[i] == INT ==> a[i + 1] in {ID, WAIN, STAR, LBRACK})
                  && (a[i] == INT && a[i + 1] == STAR && i + 2 < |a| ==> a[i + 2] == ID)
  }

  /** The same inside a rule, and which rules end in INT, STAR or TYPE. */
  ghost predicate TypeRule(rule: Rule) {
    && TypesAreFollowed(rule.rhs)
    && !IsTerminal(rule.lhs)
    && (rule.rhs != [] ==>
          var last := rule.rhs[|rule.rhs| - 1];
          && !IsEmptiable(last)
          && (last == INT || last == STAR || last == TYPE ==> rule.lhs == TYPE)
          && (rule.lhs == TYPE ==> rule.rhs == [INT] || rule.rhs == [INT, STAR]))
    && (rule.rhs == [] ==> IsEmptiable(rule.lhs))
  }

  /** INT occurs in few rules, and TYPE in one. */
  lemma IntInDeclarations(r: nat)
    requires r < 14 && INT in RuleAt(r).rhs
    ensures r in {3, 4, SHORT_TYPE, LONG_TYPE}
  {
  }

  lemma NoIntInStatements(r: nat)
    requires 14 <= r < 28
    ensures INT !in RuleAt(r).rhs
  {
  }

  lemma IntInExpressions(r: nat)
    requires 28 <= r < 49 && INT in RuleAt(r).rhs
    ensures r == 41
  {
  }

  lemma WhereIntOccurs(r: nat)
    requires r < 49 && INT in RuleAt(r).rhs
    ensures r in {3, 4, SHORT_TYPE, LONG_TYPE, 41}
  {
    hide RuleAt;
    if r < 14 {
      IntInDeclarations(r);
    } else if r < 28 {
      NoIntInStatements(r);
    } else {
      IntInExpressions(r);
    }
  }

  lemma NoTypeInDeclarations(r: nat)
    requires r < 14
    ensures TYPE !in RuleAt(r).rhs
  {
  }

  lemma NoTypeInStatements(r: nat)
    requires 14 < r < 28
    ensures TYPE !in RuleAt(r).rhs
  {
  }

  lemma NoTypeInExpressions(r: nat)
    requires 28 <= r < 49
    ensures TYPE !in RuleAt(r).rhs
  {
  }

  lemma WhereTypeOccurs(r: nat)
    requires r < 49 && TYPE in RuleAt(r).rhs
    ensures r == 14
  {
    hide RuleAt;
    if r < 14 {
      NoTypeInDeclarations(r);
    } else if 14 < r < 28 {
      NoTypeInStatements(r);
    } else if 28 <= r {
      NoTypeInExpressions(r);
    }
  }

  lemma HowRulesEnd(r: nat)
    requires r < 49
    ensures !IsTerminal(RuleAt(r).lhs)
    ensures RuleAt(r).rhs == [] ==> IsEmptiable(RuleAt(r).lhs)
    ensures RuleAt(r).lhs == TYPE ==> r == SHORT_TYPE || r == LONG_TYPE
    ensures RuleAt(r).rhs != [] ==>
              var last := RuleAt(r).rhs[|RuleAt(r).rhs| - 1];
              !IsEmptiable(last) && (last == INT || last == STAR || last == TYPE ==> r == SHORT_TYPE || r == LONG_TYPE)
  {
    if r < 14 {
    } else if r < 30 {
    }
  }

  /** The facts about the table the final chart depends on. */
  ghost predicate TypeGrammar(g: Cfg) {
    && |g| > LONG_TYPE
    && g[0].lhs == START
    && g[SHORT_TYPE] == Rule(TYPE, [INT])
    && g[LONG_TYPE] == Rule(TYPE, [INT, STAR])
    && forall r: nat :: r < |g| ==> TypeRule(g[r]) && (g[r].lhs == TYPE ==> r == SHORT_TYPE || r == LONG_TYPE)
  }

  lemma Wlp4IsTypeGrammar()
    ensures TypeGrammar(CFG())
  {
    forall r: nat | r < |CFG()|
      ensures TypeRule(CFG()[r]) && (CFG()[r].lhs == TYPE ==> r == SHORT_TYPE || r == LONG_TYPE)
    {
      HowRulesEnd(r);
      var rhs := RuleAt(r).rhs;
      forall i | 0 <= i < |rhs| - 1
        ensures rhs[i] == TYPE ==> rhs[i + 1] == ID
        ensures rhs[i] == INT ==> rhs[i + 1] in {ID, WAIN, STAR, LBRACK}
        ensures rhs[i] == INT && rhs[i + 1] == STAR && i + 2 < |rhs| ==> rhs[i + 2] == ID
      {
        if rhs[i] == INT {
          WhereIntOccurs(r);
        } else if rhs[i] == TYPE {
          WhereTypeOccurs(r);
        }
      }
      assert TypesAreFollowed(rhs);
    }
  }

  lemma FollowedStep(g: Cfg, a: Form, b: Form)
    requires forall r: nat :: r < |g| ==> TypeRule(g[r])
    requires TypesAreFollowed(a) && Step(g, a, b)
    ensures TypesAreFollowed(b)
  {
    var p: nat, r: nat :| Rewrites(g, a, b, p, r);
    var rhs := g[r].rhs;
    var n := |rhs|;
    assert TypeRule(g[r]) && TypesAreFollowed(rhs);
    hide Step, Rewrites;
    forall i | 0 <= i < |b| - 1
      ensures b[i] == TYPE ==> b[i + 1] == ID
      ensures b[i] == INT ==> b[i + 1] in {ID, WAIN, STAR, LBRACK}
      ensures b[i] == INT && b[i + 1] == STAR && i + 2 < |b| ==> b[i + 2] == ID
    {
      if i + 1 < p {
      } else if i + 1 == p {
        assert b[i] == a[i];
      } else if i + 1 < p + n {
        assert b[i] == rhs[i - p] && b[i + 1] == rhs[i + 1 - p];
      } else if i + 1 == p + n {
        assert b[i] == rhs[n - 1] && b[i + 1] == a[p + 1];
      } else {
        assert b[i] == a[i - n + 1] && b[i + 1] == a[i - n + 2];
      }
    }
  }

  lemma {:induction false} FollowedAlong(g: Cfg, a: Form, b: Form, n: nat)
    requires forall r: nat :: r < |g| ==> TypeRule(g[r])
    requires TypesAreFollowed(a) && DerivesIn(g, a, b, n)
    ensures TypesAreFollowed(b)
    decreases n
  {
    if n > 0 {
      var c: Form :| Step(g, a, c) && DerivesIn(g, c, b, n - 1);
      FollowedStep(g, a, c);
      FollowedAlong(g, c, b, n - 1);
    }
  }

  // ----- what can be complete right after INT, and right after INT STAR -----

  /** No nonterminal can follow a prefix that ends in INT or in INT STAR. */
  lemma NothingFollowsTypes(g: Cfg, input: Form, a: Symbol, k: nat)
    requires TypeGrammar(g) && 0 < k <= |input| && !IsTerminal(a)
    requires input[k - 1] == INT || (k > 1 && input[k - 2] == INT && input[k - 1] == STAR)
    ensures !CanFollow(g, input, a, k)
  {
    if CanFollow(g, input, a, k) {
      var rest: Form :| Derives(g, [g[0].lhs], input[..k] + [a] + rest);
      var form := input[..k] + [a] + rest;
      var n: nat :| DerivesIn(g, [g[0].lhs], form, n);
      assert form[k - 1] == input[k - 1] && form[k] == a;
      assert k > 1 ==> form[k - 2] == input[k - 2];
      FollowedAlong(g, [g[0].lhs], form, n);
    }
  }

  /** A form whose last symbol is neither emptiable nor one of INT, STAR and TYPE derives only such forms. */
  ghost predicate EndsElsewhere(a: Form) {
    a != [] && !IsEmptiable(a[|a| - 1]) && a[|a| - 1] !in {INT, STAR, TYPE}
  }

  lemma EndStep(g: Cfg, a: Form, c: Form)
    requires EndsElsewhere(a) && Step(g, a, c) && forall r: nat :: r < |g| ==> TypeRule(g[r])
    ensures EndsElsewhere(c)
  {
    var p: nat, r: nat :| Rewrites(g, a, c, p, r);
    assert TypeRule(g[r]);
    assert c[|c| - 1] == if p < |a| - 1 then a[|a| - 1] else g[r].rhs[|g[r].rhs| - 1];
  }

  lemma {:induction false} EndStaysElsewhere(g: Cfg, a: Form, b: Form, n: nat)
    requires TypeGrammar(g)
    requires EndsElsewhere(a) && DerivesIn(g, a, b, n)
    ensures EndsElsewhere(b)
    decreases n
  {
    hide TypeRule, EndsElsewhere, Step;
    if n > 0 {
      var c: Form :| Step(g, a, c) && DerivesIn(g, c, b, n - 1);
      EndStep(g, a, c);
      EndStaysElsewhere(g, c, b, n - 1);
    }
  }

  /** A rule whose right-hand side derives a terminal string ending in INT or STAR is that string itself. */
  lemma DerivedTypeEnd(g: Cfg, r: nat, w: Form)
    requires TypeGrammar(g)
    requires r < |g| && Derives(g, g[r].rhs, w) && w != [] && w[|w| - 1] in {INT, STAR}
    ensures g[r].lhs == TYPE && w == g[r].rhs
  {
    var rhs := g[r].rhs;
    var n: nat :| DerivesIn(g, rhs, w, n);
    assert TypeRule(g[r]);
    if rhs == [] {
      TerminalsStay(g, rhs, w, n);
    } else if EndsElsewhere(rhs) {
      EndStaysElsewhere(g, rhs, w, n);
    } else {
      TerminalsStay(g, rhs, w, n);
    }
  }

  /** An item completed by INT or STAR is a type. */
  lemma CompletedByTypeEnd(g: Cfg, input: Form, e: Elem, k: nat)
    requires TypeGrammar(g) && Belongs(g, input, e, k) && IsComplete(g, e)
    requires e.start < k && input[k - 1] in {INT, STAR}
    ensures e.rule == SHORT_TYPE || e.rule == LONG_TYPE
    ensures input[e.start..k] == g[e.rule].rhs
  {
    assert g[e.rule].rhs[..e.dot] == g[e.rule].rhs;
    assert input[e.start..k][k - e.start - 1] == input[k - 1];
    DerivedTypeEnd(g, e.rule, input[e.start..k]);
  }

  lemma CompletedAfterInt(g: Cfg, input: Form, e: Elem, k: nat)
    requires TypeGrammar(g) && AllTerminals(input) && Belongs(g, input, e, k) && IsComplete(g, e)
    requires k > 0 && input[k - 1] == INT
    ensures e == Elem(SHORT_TYPE, k - 1, 1)
  {
    assert TypeRule(g[e.rule]);
    if e.start == k {
      NothingFollowsTypes(g, input, g[e.rule].lhs, k);
    }
    CompletedByTypeEnd(g, input, e, k);
    assert input[e.start..k][k - e.start - 1] == INT;
  }

  lemma CompletedAfterIntStar(g: Cfg, input: Form, e: Elem, k: nat)
    requires TypeGrammar(g) && AllTerminals(input) && Belongs(g, input, e, k) && IsComplete(g, e)
    requires k > 1 && input[k - 2] == INT && input[k - 1] == STAR
    ensures e == Elem(LONG_TYPE, k - 2, 2)
  {
    assert TypeRule(g[e.rule]);
    if e.start == k {
      NothingFollowsTypes(g, input, g[e.rule].lhs, k);
    }
    CompletedByTypeEnd(g, input, e, k);
    assert input[e.start..k][k - e.start - 1] == STAR;
  }

  /** A completed long type spans exactly the two tokens before it. */
  lemma LongTypeSpans(g: Cfg, input: Form, e: Elem, k: nat)
    requires TypeGrammar(g) && AllTerminals(input) && Belongs(g, input, e, k) && e.rule == LONG_TYPE && IsComplete(g, e)
    ensures k > 1 && e == Elem(LONG_TYPE, k - 2, 2) && input[k - 2] == INT && input[k - 1] == STAR
  {
    var n: nat :| DerivesIn(g, [INT, STAR], input[e.start..k], n);
    TerminalsStay(g, [INT, STAR], input[e.start..k], n);
    assert input[e.start..k][0] == INT && input[e.start..k][1] == STAR;
  }

  /** Where the long type is completed, the short one belongs one list before. */
  lemma ShortTypeBelongs(g: Cfg, input: Form, k: nat)
    requires TypeGrammar(g) && k > 1 && Belongs(g, input, Elem(LONG_TYPE, k - 2, 2), k) && input[k - 2] == INT
    ensures Belongs(g, input, Elem(SHORT_TYPE, k - 2, 1), k - 1)
  {
    DerivesRefl(g, [INT]);
    assert input[k - 2..k - 1] == [INT] == g[SHORT_TYPE].rhs[..1];
  }

  /** A completed `type -> INT STAR` at k is the only item completed there, and `type -> INT` with the same
      start belongs in the list before and is the only item completed there. */
  lemma LongTypeStandsAlone(g: Cfg, input: Form, e: Elem, k: nat)
    requires TypeGrammar(g) && AllTerminals(input) && Belongs(g, input, e, k) && e.rule == LONG_TYPE && IsComplete(g, e)
    ensures k > 1 && e == Elem(LONG_TYPE, k - 2, 2)
    ensures forall d :: Belongs(g, input, d, k) && IsComplete(g, d) ==> d == e
    ensures Belongs(g, input, Elem(SHORT_TYPE, k - 2, 1), k - 1)
    ensures forall d :: Belongs(g, input, d, k - 1) && IsComplete(g, d) ==> d == Elem(SHORT_TYPE, k - 2, 1)
  {
    hide Belongs, AllTerminals, TypeRule;
    LongTypeSpans(g, input, e, k);
    forall d | Belongs(g, input, d, k) && IsComplete(g, d)
      ensures d == e
    {
      CompletedAfterIntStar(g, input, d, k);
    }
    ShortTypeBelongs(g, input, k);
    forall d | Belongs(g, input, d, k - 1) && IsComplete(g, d)
      ensures d == Elem(SHORT_TYPE, k - 2, 1)
    {
      CompletedAfterInt(g, input, d, k - 1);
    }
  }

  // ----- the list that is handed to the parser -----

  /** An item is superseded when the next list completes the longer type from the same start. */
  predicate Superseded(e: Elem, next: seq<Elem>) {
    e.rule == SHORT_TYPE && Elem(LONG_TYPE, e.start, 2) in next
  }

  /** The completed items of one list that survive the next one. */
  function Kept(g: Cfg, items: seq<Elem>, next: seq<Elem>): seq<Elem> {
    if items == [] then []
    else
      var e := items[|items| - 1];
      Kept(g, items[..|items| - 1], next) + if IsComplete(g, e) && !Superseded(e, next) then [e] else []
  }

  /** The items kept of the lists before k, when list k is there too. */
  function KeptBelow(g: Cfg, c: Chart, k: nat): seq<Elem>
    requires k < |c|
  {
    if k == 0 then [] else KeptBelow(g, c, k - 1) + Kept(g, c[k - 1], c[k])
  }

  /** The final chart of the first k lists. */
  function Final(g: Cfg, c: Chart, k: nat): seq<Elem>
    requires k <= |c|
  {
    if k == 0 then [] else KeptBelow(g, c, k - 1) + Kept(g, c[k - 1], [])
  }

  /** Appending one item, after removing the last one if the item is `type -> INT STAR`. */
  function Pushed(final: seq<Elem>, e: Elem): seq<Elem> {
    if e.rule == LONG_TYPE && final != [] then final[..|final| - 1] + [e] else final + [e]
  }

  function PushedAll(g: Cfg, final: seq<Elem>, items: seq<Elem>): seq<Elem> {
    if items == [] then final
    else
      var e := items[|items| - 1];
      var front := PushedAll(g, final, items[..|items| - 1]);
      if IsComplete(g, e) then Pushed(front, e) else front
  }

  lemma {:induction false} PushedWithoutPops(g: Cfg, final: seq<Elem>, items: seq<Elem>)
    requires forall e :: e in items && IsComplete(g, e) ==> e.rule != LONG_TYPE
    ensures PushedAll(g, final, items) == final + Kept(g, items, [])
  {
    if items != [] {
      PushedWithoutPops(g, final, items[..|items| - 1]);
    }
  }

  lemma {:induction false} KeptUnlessSuperseded(g: Cfg, items: seq<Elem>, next: seq<Elem>)
    requires forall e :: e in items && IsComplete(g, e) ==> !Superseded(e, next)
    ensures Kept(g, items, next) == Kept(g, items, [])
  {
    if items != [] {
      KeptUnlessSuperseded(g, items[..|items| - 1], next);
    }
  }

  /** A list with one completed item keeps that item or nothing. */
  lemma {:induction false} KeptAlone(g: Cfg, items: seq<Elem>, next: seq<Elem>, d: Elem)
    requires NoDuplicates(items) && forall e :: e in items && IsComplete(g, e) ==> e == d
    requires IsComplete(g, d)
    ensures Kept(g, items, next) == if d in items && !Superseded(d, next) then [d] else []
  {
    if items != [] {
      KeptAlone(g, items[..|items| - 1], next, d);
    }
  }

  lemma {:induction false} PushedAlone(g: Cfg, final: seq<Elem>, items: seq<Elem>, d: Elem)
    requires NoDuplicates(items) && forall e :: e in items && IsComplete(g, e) ==> e == d
    requires IsComplete(g, d) && d.rule == LONG_TYPE && final != []
    ensures PushedAll(g, final, items) == if d in items then final[..|final| - 1] + [d] else final
  {
    if items != [] {
      PushedAlone(g, final, items[..|items| - 1], d);
    }
  }

  predicate IsLongType(g: Cfg, e: Elem) {
    IsComplete(g, e) && e.rule == LONG_TYPE
  }

  /** Lists before k hold exactly what belongs in them, and list k nothing else. */
  ghost predicate ExactBelow(g: Cfg, input: Form, c: Chart, k: nat)
    requires |g| > 0
  {
    && Sound(g, input, c)
    && k < |c|
    && forall i: nat, e :: i < k ==> (e in c[i] <==> Belongs(g, input, e, i))
  }

  /** The list before a completed `type -> INT STAR` keeps `type -> INT` for its own final chart and nothing after. */
  lemma ShortTypeBefore(g: Cfg, input: Form, c: Chart, k: nat, e: Elem)
    requires TypeGrammar(g) && AllTerminals(input) && ExactBelow(g, input, c, k)
    requires e in c[k] && IsLongType(g, e)
    ensures k > 1 && e == Elem(LONG_TYPE, k - 2, 2)
    ensures Kept(g, c[k - 1], []) == [Elem(SHORT_TYPE, k - 2, 1)] && Kept(g, c[k - 1], c[k]) == []
    ensures forall d :: d in c[k] && IsComplete(g, d) ==> d == e
  {
    assert SoundList(g, input, c[k], k);
    LongTypeStandsAlone(g, input, e, k);
    var short := Elem(SHORT_TYPE, k - 2, 1);
    assert SoundList(g, input, c[k - 1], k - 1) && Superseded(short, c[k]);
    KeptAlone(g, c[k - 1], [], short);
    KeptAlone(g, c[k - 1], c[k], short);
  }

  lemma LongTypeIsPushed(g: Cfg, input: Form, c: Chart, k: nat, i: nat)
    requires TypeGrammar(g) && AllTerminals(input) && ExactBelow(g, input, c, k)
    requires i < |c[k]| && IsLongType(g, c[k][i])
    ensures PushedAll(g, Final(g, c, k), c[k]) == Final(g, c, k + 1)
    ensures PushedAll(g, Final(g, c, k), c[k][..i]) != []
  {
    hide InOrder, Derives, CanFollow, TypeGrammar, Belongs, KeptBelow, Kept, Final, PushedAll;
    var e := c[k][i];
    assert e in c[k];
    ShortTypeBefore(g, input, c, k, e);
    assert SoundList(g, input, c[k], k);
    PushedOverShort(g, c, k, i, e);
  }

  lemma PushedOverShort(g: Cfg, c: Chart, k: nat, i: nat, e: Elem)
    requires 0 < k < |c| && i < |c[k]| && c[k][i] == e && IsLongType(g, e) && NoDuplicates(c[k])
    requires forall d :: d in c[k] && IsComplete(g, d) ==> d == e
    requires Kept(g, c[k - 1], []) == [Elem(SHORT_TYPE, e.start, 1)] && Kept(g, c[k - 1], c[k]) == []
    ensures PushedAll(g, Final(g, c, k), c[k]) == Final(g, c, k + 1)
    ensures PushedAll(g, Final(g, c, k), c[k][..i]) != []
  {
    var items, below, short := c[k], KeptBelow(g, c, k - 1), Elem(SHORT_TYPE, e.start, 1);
    assert Final(g, c, k) == below + [short];
    assert KeptBelow(g, c, k) == below + [] == below;
    hide IsComplete;
    KeptAlone(g, items, [], e);
    PushedAlone(g, below + [short], items, e);
    PushedAlone(g, below + [short], items[..i], e);
    hide Kept, KeptBelow, PushedAll;
    assert (below + [short])[..|below|] == below;
  }

  /** Pushing the completed items of list k onto the final chart of the lists before gives the one with list k,
      and the removal never meets an empty list. */
  lemma ListIsPushed(g: Cfg, input: Form, c: Chart, k: nat)
    requires TypeGrammar(g) && AllTerminals(input) && ExactBelow(g, input, c, k)
    ensures PushedAll(g, Final(g, c, k), c[k]) == Final(g, c, k + 1)
    ensures forall i :: 0 <= i < |c[k]| && IsLongType(g, c[k][i]) ==> PushedAll(g, Final(g, c, k), c[k][..i]) != []
  {
    forall i | 0 <= i < |c[k]| && IsLongType(g, c[k][i])
      ensures PushedAll(g, Final(g, c, k), c[k]) == Final(g, c, k + 1)
      ensures PushedAll(g, Final(g, c, k), c[k][..i]) != []
    {
      LongTypeIsPushed(g, input, c, k, i);
    }
    if forall i :: 0 <= i < |c[k]| ==> !IsLongType(g, c[k][i]) {
      PushedWithoutPops(g, Final(g, c, k), c[k]);
      if k > 0 {
        forall d | d in c[k - 1] && IsComplete(g, d)
          ensures !Superseded(d, c[k])
        {
          assert IsLongType(g, Elem(LONG_TYPE, d.start, 2));
        }
        KeptUnlessSuperseded(g, c[k - 1], c[k]);
      }
    }
  }
}
