/** The lists the recogniser leaves for an accepted text, item by item: how each came in, and what it called for. */
module Traces {
  import opened Symbols
  import opened Grammar
  import opened Earley
  import opened Charts
  import opened Wlp4Grammar

  // ----- items of the table -----

  function Left(e: Elem): Symbol
    requires e.rule < 49
  {
    RuleAt(e.rule).lhs
  }

  predicate InTable(e: Elem) {
    e.rule < 49 && e.dot <= |RuleAt(e.rule).rhs|
  }

  predicate IsDone(e: Elem) {
    e.rule < 49 && e.dot == |RuleAt(e.rule).rhs|
  }

  /** Symbol x comes next. */
  predicate Wants(e: Elem, x: Symbol) {
    e.rule < 49 && e.dot < |RuleAt(e.rule).rhs| && RuleAt(e.rule).rhs[e.dot] == x
  }

  /** The item has just been moved over x. */
  predicate Passed(e: Elem, x: Symbol) {
    e.rule < 49 && 0 < e.dot <= |RuleAt(e.rule).rhs| && RuleAt(e.rule).rhs[e.dot - 1] == x
  }

  lemma SameItems(e: Elem, x: Symbol)
    ensures InGrammar(CFG(), e) <==> InTable(e)
    ensures IsComplete(CFG(), e) <==> IsDone(e)
    ensures Awaits(CFG(), e, x) <==> Wants(e, x)
    ensures InTable(e) ==> CFG()[e.rule] == RuleAt(e.rule)
  {
    hide RuleAt;
  }

  /** Every item over a terminal is an item not done and moved. */
  lemma PassedMeansWanted(e: Elem, x: Symbol)
    requires Passed(e, x)
    ensures Wants(Retreat(e), x) && Advance(Retreat(e)) == e
  {
    hide RuleAt;
  }

  lemma WantedThenPassed(e: Elem, x: Symbol)
    requires Wants(e, x)
    ensures Passed(Advance(e), x) && Retreat(Advance(e)) == e && !IsDone(e)
  {
    hide RuleAt;
  }

  // ----- traces -----

  /** Item d completes x, over which e was moved to get into list k, after the given items. */
  ghost predicate Moves(c: Chart, items: seq<Elem>, k: nat, d: Elem, x: Symbol, e: Elem)
    requires k < |c|
  {
    && IsDone(d)
    && Left(d) == x
    && d.start <= k
    && e.dot > 0
    && Retreat(e) in c[d.start]
    && (d.start == k ==> Retreat(e) in items)
  }

  /** What brings item e into list k after the given items. */
  ghost predicate IsBrought(w: Form, c: Chart, items: seq<Elem>, k: nat, e: Elem)
    requires k < |c| && k <= |w|
  {
    && InTable(e)
    && (e.dot == 0 ==> e.start == k && ((k == 0 && e.rule == 0) || exists p :: p in items && Wants(p, Left(e))))
    && forall x :: Passed(e, x) ==>
                     if IsTerminal(x) then k > 0 && w[k - 1] == x && Retreat(e) in c[k - 1]
                     else exists d :: d in items && Moves(c, items, k, d, x, e)
  }

  /** What item e of list k calls for is there. */
  ghost predicate IsAnswered(w: Form, c: Chart, k: nat, e: Elem)
    requires k < |w| && |c| == |w| + 1
  {
    && e.start <= k
    && (IsDone(e) && e.start < k ==> forall p :: p in c[e.start] && Wants(p, Left(e)) ==> Advance(p) in c[k])
    && (Wants(e, w[k]) ==> Advance(e) in c[k + 1])
    && (forall r: nat :: r < 49 && Wants(e, RuleAt(r).lhs) ==> Elem(r, k, 0) in c[k])
    && (forall x :: Wants(e, x) && IsEmptiable(x) ==> Advance(e) in c[k])
  }

  ghost predicate IsTraced(w: Form, c: Chart, k: nat, j: nat)
    requires k < |w| && |c| == |w| + 1 && j < |c[k]|
  {
    IsBrought(w, c, c[k][..j], k, c[k][j]) && IsAnswered(w, c, k, c[k][j])
  }

  ghost predicate Traced(w: Form, c: Chart) {
    && w != []
    && AllTerminals(w)
    && |c| == |w| + 1
    && Elem(0, 0, 0) in c[0]
    && (forall k: nat :: k <= |w| ==> NoDuplicates(c[k]))
    && (forall k: nat, j: nat :: k < |w| && j < |c[k]| ==> IsTraced(w, c, k, j))
    && forall e :: e in c[|w|] ==> Passed(e, w[|w| - 1]) && Retreat(e) in c[|w| - 1]
  }

  // ----- the recogniser's chart is a trace -----

  /** A nullable symbol's first rule is its empty one. */
  lemma FirstEmptyIsDone(d: Elem)
    requires IsFirstEmpty(CFG(), d)
    ensures IsDone(d)
  {
    var x := RuleAt(d.rule).lhs;
    assert IsEmptiable(x) by { EmptiableSymbol(x); }
    assert RuleAt(5) == Rule(PARAMS, []) && RuleAt(11) == Rule(DCLS, []) && RuleAt(15) == Rule(STATEMENTS, []);
    assert CFG()[5].lhs == PARAMS && CFG()[11].lhs == DCLS && CFG()[15].lhs == STATEMENTS;
    EmptiableRules(d.rule);
  }

  lemma EmptiableRules(r: nat)
    requires r < 49 && IsEmptiable(RuleAt(r).lhs)
    ensures r in {5, 6, 11, 12, 13, 15, 16}
  {
  }

  lemma EmptiableSymbol(x: Symbol)
    ensures HasEmptyRule(CFG(), x) <==> IsEmptiable(x)
  {
    assert CFG()[5] == Rule(PARAMS, []) && CFG()[11] == Rule(DCLS, []) && CFG()[15] == Rule(STATEMENTS, []);
    if HasEmptyRule(CFG(), x) {
      var r :| 0 <= r < 49 && CFG()[r].lhs == x && CFG()[r].rhs == [];
      EmptyRule(r);
    }
  }

  lemma EmptyRule(r: nat)
    requires r < 49 && RuleAt(r).rhs == []
    ensures IsEmptiable(RuleAt(r).lhs)
  {
  }

  lemma StartsWhereItIs(w: Form, e: Elem, k: nat)
    requires Belongs(CFG(), w, e, k) && e.dot == 0
    ensures e.start == k
  {
    Wlp4IsAdmissible();
    var n: nat :| DerivesIn(CFG(), [], w[e.start..k], n);
    assert CFG()[e.rule].rhs[..0] == [];
    TerminalsStay(CFG(), [], w[e.start..k], n);
  }

  lemma BelongsIsIn(w: Form, c: Chart, k: nat, e: Elem)
    requires AllTerminals(w) && IsFilled(CFG(), w, c) && k < |w| && Belongs(CFG(), w, e, k)
    ensures e in c[k]
  {
    Wlp4IsAdmissible();
    hide Belongs, Admissible;
    ClosedChartIsComplete(CFG(), w, c, |w|, e, k);
  }

  lemma CauseIsBrought(w: Form, c: Chart, items: seq<Elem>, k: nat, e: Elem)
    requires AllTerminals(w) && IsFilled(CFG(), w, c) && k < |w|
    requires Belongs(CFG(), w, e, k) && IsCaused(CFG(), w, items, k, e) && forall d :: d in items ==> d.start <= k
    ensures IsBrought(w, c, items, k, e)
  {
    hide RuleAt, CFG, Derives, CanFollow, Sound, ClosedBelow, OnlyScanned;
    SameItems(e, 0);
    if e.dot == 0 {
      StartsWhereItIs(w, e, k);
      if !(k == 0 && e.rule == 0) {
        var p :| p in items && Awaits(CFG(), p, CFG()[e.rule].lhs);
        SameItems(p, Left(e));
      }
    }
    forall x | Passed(e, x)
      ensures if IsTerminal(x) then k > 0 && w[k - 1] == x && Retreat(e) in c[k - 1]
              else exists d :: d in items && Moves(c, items, k, d, x, e)
    {
      if IsTerminal(x) {
        BelongsIsIn(w, c, k - 1, Retreat(e));
      } else {
        var d :| d in items && Admits(CFG(), w, items, k, d, x, e);
        AdmittedIsIn(w, c, items, k, d, x, e);
      }
    }
  }

  lemma AdmittedIsIn(w: Form, c: Chart, items: seq<Elem>, k: nat, d: Elem, x: Symbol, e: Elem)
    requires AllTerminals(w) && IsFilled(CFG(), w, c) && k < |w| && d.start <= k && Admits(CFG(), w, items, k, d, x, e)
    ensures Moves(c, items, k, d, x, e)
  {
    hide RuleAt, CFG, Derives, CanFollow, Sound, ClosedBelow, OnlyScanned;
    SameItems(d, 0);
    if !IsComplete(CFG(), d) {
      FirstEmptyIsDone(d);
    }
    BelongsIsIn(w, c, d.start, Retreat(e));
  }

  lemma SettledIsAnswered(w: Form, c: Chart, k: nat, e: Elem)
    requires |c| == |w| + 1 && k < |w| && AllTerminals(w) && Settled(CFG(), w, c, k, e)
    ensures IsAnswered(w, c, k, e)
  {
    hide RuleAt, CFG;
    SameItems(e, w[k]);
    if IsDone(e) && e.start < k {
      forall p | p in c[e.start] && Wants(p, Left(e))
        ensures Advance(p) in c[k]
      {
        SameItems(p, Left(e));
      }
    }
    forall r: nat | r < 49 && Wants(e, RuleAt(r).lhs)
      ensures Elem(r, k, 0) in c[k]
    {
      SameItems(Elem(r, k, 0), 0);
      NonterminalLeft(r);
    }
    forall x | Wants(e, x) && IsEmptiable(x)
      ensures Advance(e) in c[k]
    {
      EmptiableSymbol(x);
    }
  }

  lemma NonterminalLeft(r: nat)
    requires r < 49
    ensures !IsTerminal(RuleAt(r).lhs)
  {
  }

  lemma LastIsPassed(w: Form, c: Chart, e: Elem)
    requires w != [] && AllTerminals(w) && IsFilled(CFG(), w, c) && e in c[|w|]
    ensures Passed(e, w[|w| - 1]) && Retreat(e) in c[|w| - 1]
  {
    hide RuleAt, CFG, Derives, CanFollow, ClosedBelow;
    var n := |w|;
    SameItems(e, 0);
    assert e in ListAt(c, n) && IsScanned(CFG(), e);
    assert SoundList(CFG(), w, c[n], n);
    var j :| 0 <= j < |c[n]| && c[n][j] == e;
    assert IsCaused(CFG(), w, c[n][..j], n, e);
    BelongsIsIn(w, c, n - 1, Retreat(e));
  }

  /** What the recogniser leaves for an accepted text is a trace. */
  lemma FilledIsTraced(w: Form, c: Chart)
    requires w != [] && AllTerminals(w) && IsFilled(CFG(), w, c)
    ensures Traced(w, c)
  {
    hide RuleAt, CFG, Belongs, IsCaused, IsBrought, IsAnswered, Settled, OnlyScanned;
    forall k: nat, j: nat | k < |w| && j < |c[k]|
      ensures IsTraced(w, c, k, j)
    {
      assert SoundList(CFG(), w, c[k], k);
      var e := c[k][j];
      assert e in c[k] && Settled(CFG(), w, c, k, e);
      SettledIsAnswered(w, c, k, e);
      StartsBefore(w, c[k], k);
      assert IsCaused(CFG(), w, c[k][..j], k, e);
      CauseIsBrought(w, c, c[k][..j], k, e);
    }
    forall k: nat | k <= |w|
      ensures NoDuplicates(c[k])
    {
      assert SoundList(CFG(), w, c[k], k);
    }
    forall e | e in c[|w|]
      ensures Passed(e, w[|w| - 1]) && Retreat(e) in c[|w| - 1]
    {
      LastIsPassed(w, c, e);
    }
  }

  lemma StartsBefore(w: Form, items: seq<Elem>, k: nat)
    requires SoundList(CFG(), w, items, k)
    ensures forall d :: d in items ==> d.start <= k
  {
    hide IsCaused, InOrder, CFG;
  }
}
