/** From one list of a trace to the next: what is scanned, what opens, and what is handed on. */
module Openings {
  import opened Symbols
  import opened Grammar
  import opened Earley
  import opened Charts
  import opened Wlp4Grammar
  import opened FinalChart
  import opened Traces
  import opened Lists
  import opened Items

  // ----- the items handed on by a stretch of lists -----

  /** The items kept of lists i to j - 1. */
  function Span(c: Chart, i: nat, j: nat): seq<Elem>
    requires i <= j < |c|
    decreases j
  {
    if i == j then [] else Span(c, i, j - 1) + Kept(CFG(), c[j - 1], c[j])
  }

  /** List m completes nothing. */
  ghost predicate IsSilent(c: Chart, m: nat) {
    m + 1 < |c| && Span(c, m, m + 1) == []
  }

  lemma {:induction false} SpanSplit(c: Chart, i: nat, j: nat, k: nat)
    requires i <= j <= k < |c|
    ensures Span(c, i, k) == Span(c, i, j) + Span(c, j, k)
    decreases k
  {
    hide Kept;
    if j < k {
      SpanSplit(c, i, j, k - 1);
    }
  }

  lemma {:induction false} SpanIsKeptBelow(c: Chart, k: nat)
    requires k < |c|
    ensures Span(c, 0, k) == KeptBelow(CFG(), c, k)
  {
    hide Kept;
    if k > 0 {
      SpanIsKeptBelow(c, k - 1);
    }
  }

  /** Everything completed is kept, but for a short type before the long one. */
  lemma {:induction false} KeptIsCompleted(items: seq<Elem>, next: seq<Elem>)
    requires forall e :: e in items && IsDone(e) ==> !Superseded(e, next)
    ensures Kept(CFG(), items, next) == Completed(items)
  {
    hide RuleAt, CFG, Superseded;
    if items != [] {
      SameItems(items[|items| - 1], 0);
      assert items[|items| - 1] in items;
      KeptIsCompleted(items[..|items| - 1], next);
    }
  }

  lemma SpanOfOne(c: Chart, m: nat)
    requires m + 1 < |c| && forall e :: e in c[m] && IsDone(e) ==> e.rule != SHORT_TYPE
    ensures Span(c, m, m + 1) == Completed(c[m])
  {
    KeptIsCompleted(c[m], c[m + 1]);
    assert Span(c, m, m) == [];
  }

  // ----- scanning -----

  /** The items of list m that want symbol t are xs. */
  ghost predicate Wanted(c: Chart, m: nat, t: Symbol, xs: set<Elem>) {
    m < |c| && forall e :: e in c[m] && Wants(e, t) <==> e in xs
  }

  /** List m was scanned into from exactly xs. */
  ghost predicate ScannedFrom(c: Chart, m: nat, xs: set<Elem>) {
    && m < |c|
    && (forall e :: e in xs ==> Advance(e) in c[m])
    && forall e, t :: e in c[m] && Passed(e, t) && IsTerminal(t) ==> Retreat(e) in xs
  }

  lemma Scan(w: Form, c: Chart, m: nat, xs: set<Elem>)
    requires Traced(w, c) && m < |w| && Wanted(c, m, w[m], xs)
    ensures ScannedFrom(c, m + 1, xs)
  {
    hide RuleAt, IsBrought, IsAnswered, IsTraced;
    forall e | e in xs
      ensures Advance(e) in c[m + 1]
    {
      Answer(w, c, m, e);
    }
    forall e, t | e in c[m + 1] && Passed(e, t) && IsTerminal(t)
      ensures Retreat(e) in xs
    {
      ScanOrigin(w, c, m, e, t);
    }
  }

  lemma Answer(w: Form, c: Chart, m: nat, e: Elem)
    requires Traced(w, c) && m < |w| && e in c[m] && Wants(e, w[m])
    ensures Advance(e) in c[m + 1]
  {
    hide RuleAt, Traced;
    AnsweredIn(w, c, m, e);
  }

  lemma ScanOrigin(w: Form, c: Chart, m: nat, e: Elem, t: Symbol)
    requires Traced(w, c) && m < |w| && e in c[m + 1] && Passed(e, t) && IsTerminal(t)
    ensures Retreat(e) in c[m] && Wants(Retreat(e), w[m])
  {
    hide RuleAt, IsAnswered;
    if m + 1 == |w| {
      PassedMeansWanted(e, w[m]);
    } else {
      var j := InList(c, m + 1, e);
      assert IsTraced(w, c, m + 1, j);
      PassedMeansWanted(e, t);
    }
  }

  lemma Predicted(w: Form, c: Chart, m: nat, e: Elem, r: nat)
    requires Traced(w, c) && m < |w| && e in c[m] && r < 49 && Wants(e, RuleAt(r).lhs)
    ensures Elem(r, m, 0) in c[m]
  {
    hide RuleAt, Traced;
    AnsweredIn(w, c, m, e);
  }

  // ----- a list in which nothing is completed -----

  ghost function Moved(xs: set<Elem>): iset<Elem> {
    iset e: Elem | e.dot > 0 && Retreat(e) in xs
  }

  /** List m holds the items scanned from xs, and what they predict. */
  ghost predicate Opened(c: Chart, m: nat, xs: set<Elem>, syms: set<Symbol>) {
    && ScannedFrom(c, m, xs)
    && forall e :: e in c[m] ==> Fits(e, m, Moved(xs), syms)
  }

  ghost predicate LeadsTo(xs: set<Elem>, syms: set<Symbol>) {
    && (forall e :: e in xs ==> !IsDone(Advance(e)))
    && forall e, t :: e in xs && Wants(Advance(e), t) ==> IsTerminal(t) || t in syms
  }

  lemma OpenList(w: Form, c: Chart, m: nat, xs: set<Elem>, syms: set<Symbol>)
    requires Traced(w, c) && 0 < m < |w| && ScannedFrom(c, m, xs) && LeadsTo(xs, syms) && IsTidy(syms)
    ensures Opened(c, m, xs, syms) && Completed(c[m]) == [] && IsSilent(c, m)
  {
    hide RuleAt, IsTraced;
    forall e | Fits(e, m, Moved(xs), syms)
      ensures !IsDone(e)
      ensures forall t :: Wants(e, t) ==> IsTerminal(t) || t in syms
    {
      FitsLeadsOn(m, xs, syms, e);
    }
    AllFit(w, c, m, Moved(xs), syms);
    NoneCompleted(c[m]);
    SpanOfOne(c, m);
  }

  lemma FitsLeadsOn(m: nat, xs: set<Elem>, syms: set<Symbol>, e: Elem)
    requires LeadsTo(xs, syms) && IsTidy(syms) && Fits(e, m, Moved(xs), syms)
    ensures !IsDone(e) && forall t :: Wants(e, t) ==> IsTerminal(t) || t in syms
  {
    hide RuleAt;
    if e in Moved(xs) {
      assert Advance(Retreat(e)) == e;
    } else {
      assert RuleAt(e.rule).rhs != [];
    }
  }

  // ----- a list in which a token completes something -----

  lemma LineIsNoType(c: Chart, d: Elem, x: Demand, e: Elem)
    requires IsDone(d) && Demands(c, d.start, Left(d), x) && e in Line(d, x) && d.rule != SHORT_TYPE
    ensures e.rule != SHORT_TYPE
  {
    hide RuleAt, Demands, Chain, Wants;
    var i :| 0 <= i < |Line(d, x)| && Line(d, x)[i] == e;
    if i > 0 {
      NextInLine(c, d, x, i - 1);
      NonterminalLeft(Line(d, x)[i - 1].rule);
      assert RuleAt(SHORT_TYPE) == Rule(TYPE, [INT]) by { TheShortType(); }
    } else {
      assert Line(d, x)[0] == d;
    }
  }

  lemma TheShortType()
    ensures RuleAt(SHORT_TYPE) == Rule(TYPE, [INT])
  {
  }

  /** List m, scanned from q and xs: q's item is completed, and all that waits for it is moved over it. */
  lemma CloseList(w: Form, c: Chart, m: nat, q: Elem, x: Demand, xs: set<Elem>, syms: set<Symbol>)
    requires Traced(w, c) && 0 < m < |w| && ScannedFrom(c, m, {q} + xs)
    requires IsDone(Advance(q)) && q.start < m && Demands(c, q.start, Left(q), x) && LeadsTo(xs, syms) && IsTidy(syms)
    requires forall e, t :: Pends(x, e) && Wants(e, t) ==> IsTerminal(t) || t in syms
    ensures Completed(c[m]) == [Advance(q)] + Chain(x)
    ensures q.rule != SHORT_TYPE ==> Span(c, m, m + 1) == [Advance(q)] + Chain(x)
    ensures forall e :: Pends(x, e) ==> e in c[m] && !IsDone(e)
    ensures forall e, t :: e in c[m] && Wants(e, t) ==>
              Pends(x, e) || e in Moved(xs) || (e.dot == 0 && e.start == m && Left(e) in syms)
  {
    hide RuleAt, IsTraced, Demands, Chain, IsTidy, Pends;
    var d := Advance(q);
    var ys := set e | e in xs :: Advance(e);
    assert IsClosed(c, m, d, x, ys) by {
      assert q in {q} + xs;
      forall e, t | e in c[m] && Passed(e, t) && IsTerminal(t)
        ensures e == d || e in ys
      {
        PassedMeansWanted(e, t);
        assert Advance(Retreat(e)) == e;
      }
      assert ScansInto(c, m, iset e | e == d || e in ys);
    }
    assert GoesOn(x, ys, syms) by {
      hide IsClosed;
      forall e, t | (e in ys || Pends(x, e)) && Wants(e, t)
        ensures IsTerminal(t) || t in syms
      {
      }
    }
    ClosedList(w, c, m, d, x, ys, syms);
    if q.rule != SHORT_TYPE {
      CompletedAre(c[m]);
      forall e | e in c[m] && IsDone(e)
        ensures e.rule != SHORT_TYPE
      {
        LineIsNoType(c, d, x, e);
      }
      SpanOfOne(c, m);
    }
    forall e, t | e in c[m] && Wants(e, t)
      ensures Pends(x, e) || e in Moved(xs) || (e.dot == 0 && e.start == m && Left(e) in syms)
    {
      WantingFits(c, m, d, x, ys, syms, e, t);
      assert e in ys ==> Retreat(e) in xs;
    }
  }

  lemma WantingFits(c: Chart, m: nat, d: Elem, x: Demand, ys: set<Elem>, syms: set<Symbol>, e: Elem, t: Symbol)
    requires IsDone(d) && Demands(c, d.start, Left(d), x) && Wants(e, t) && Fits(e, m, Around(d, x, ys), syms)
    ensures Pends(x, e) || e in ys || (e.dot == 0 && e.start == m && Left(e) in syms)
  {
    hide RuleAt, Pends, Demands, Chain;
    if e in Line(d, x) {
      var i :| 0 <= i < |Line(d, x)| && Line(d, x)[i] == e;
      var y := DemandAt(c, d, x, i);
    }
  }
}
