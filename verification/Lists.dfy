/** What one list of a trace holds, from what was scanned into it and what waits in earlier lists. */
module Lists {
  import opened Symbols
  import opened Grammar
  import opened Earley
  import opened Charts
  import opened Wlp4Grammar
  import opened FinalChart
  import opened Traces

  // ----- everything in a list -----

  /** Item e of list k is among xs, or predicted for one of the symbols. */
  ghost predicate Fits(e: Elem, k: nat, xs: iset<Elem>, syms: set<Symbol>) {
    e in xs || (e.rule < 49 && e.dot == 0 && e.start == k && Left(e) in syms)
  }

  /** Predicting from the items leads to no other symbols. */
  ghost predicate Predicts(k: nat, xs: iset<Elem>, syms: set<Symbol>) {
    forall e, x :: Fits(e, k, xs, syms) && Wants(e, x) ==> IsTerminal(x) || x in syms
  }

  /** Completing leads to no items but xs. */
  ghost predicate Completes(c: Chart, k: nat, xs: iset<Elem>, syms: set<Symbol>)
    requires k < |c|
  {
    forall d, p :: d in c[k] && Fits(d, k, xs, syms) && IsDone(d) && Crosses(c, k, xs, syms, d, p) ==> Advance(p) in xs
  }

  ghost predicate Crosses(c: Chart, k: nat, xs: iset<Elem>, syms: set<Symbol>, d: Elem, p: Elem)
    requires k < |c| && IsDone(d)
  {
    d.start <= k && p in c[d.start] && Wants(p, Left(d)) && (d.start == k ==> Fits(p, k, xs, syms))
  }

  /** The items scanned into list k are among xs. */
  ghost predicate ScansInto(c: Chart, k: nat, xs: iset<Elem>)
    requires k < |c|
  {
    forall e, x :: e in c[k] && Passed(e, x) && IsTerminal(x) ==> e in xs
  }

  lemma {:induction false} PrefixFits(w: Form, c: Chart, k: nat, xs: iset<Elem>, syms: set<Symbol>, j: nat)
    requires Traced(w, c) && k < |w| && j <= |c[k]| && (k == 0 ==> Elem(0, 0, 0) in xs)
    requires ScansInto(c, k, xs) && Predicts(k, xs, syms) && Completes(c, k, xs, syms)
    ensures forall e :: e in c[k][..j] ==> Fits(e, k, xs, syms)
    decreases j
  {
    if j > 0 {
      PrefixFits(w, c, k, xs, syms, j - 1);
      NextFits(w, c, k, xs, syms, j - 1);
      assert c[k][..j] == c[k][..j - 1] + [c[k][j - 1]];
    }
  }

  lemma NextFits(w: Form, c: Chart, k: nat, xs: iset<Elem>, syms: set<Symbol>, j: nat)
    requires Traced(w, c) && k < |w| && j < |c[k]| && (k == 0 ==> Elem(0, 0, 0) in xs)
    requires ScansInto(c, k, xs) && Predicts(k, xs, syms) && Completes(c, k, xs, syms)
    requires forall e :: e in c[k][..j] ==> Fits(e, k, xs, syms)
    ensures Fits(c[k][j], k, xs, syms)
  {
    hide RuleAt, Fits, IsAnswered, Wants, IsDone;
    var e := c[k][j];
    assert IsTraced(w, c, k, j) && e in c[k];
    if k == 0 && e.dot == 0 && e.rule == 0 {
      assert Fits(e, k, xs, syms) by { MemberFits(e, k, xs, syms); }
    } else if e.dot == 0 {
      var p :| p in c[k][..j] && Wants(p, Left(e));
      NonterminalLeft(e.rule);
      assert Left(e) in syms;
      assert Fits(e, k, xs, syms) by { PredictedFits(e, k, xs, syms); }
    } else {
      var x := RuleAt(e.rule).rhs[e.dot - 1];
      assert Passed(e, x);
      if !IsTerminal(x) {
        var d :| d in c[k][..j] && Moves(c, c[k][..j], k, d, x, e);
        MovedFits(w, c, k, xs, syms, j, d, e, x);
      }
      assert Fits(e, k, xs, syms) by { MemberFits(e, k, xs, syms); }
    }
  }

  lemma MovedFits(w: Form, c: Chart, k: nat, xs: iset<Elem>, syms: set<Symbol>, j: nat, d: Elem, e: Elem, x: Symbol)
    requires Traced(w, c) && k < |w| && j < |c[k]| && c[k][j] == e && Passed(e, x) && !IsTerminal(x)
    requires Completes(c, k, xs, syms) && forall p :: p in c[k][..j] ==> Fits(p, k, xs, syms)
    requires d in c[k][..j] && Moves(c, c[k][..j], k, d, x, e)
    ensures e in xs
  {
    hide RuleAt, IsAnswered, Fits;
    PassedMeansWanted(e, x);
    assert Crosses(c, k, xs, syms, d, Retreat(e));
  }

  lemma PredictedFits(e: Elem, k: nat, xs: iset<Elem>, syms: set<Symbol>)
    requires e.rule < 49 && e.dot == 0 && e.start == k && Left(e) in syms
    ensures Fits(e, k, xs, syms)
  {
  }

  lemma MemberFits(e: Elem, k: nat, xs: iset<Elem>, syms: set<Symbol>)
    requires e in xs
    ensures Fits(e, k, xs, syms)
  {
  }

  lemma AllFit(w: Form, c: Chart, k: nat, xs: iset<Elem>, syms: set<Symbol>)
    requires Traced(w, c) && k < |w| && (k == 0 ==> Elem(0, 0, 0) in xs)
    requires ScansInto(c, k, xs) && Predicts(k, xs, syms) && Completes(c, k, xs, syms)
    ensures forall e :: e in c[k] ==> Fits(e, k, xs, syms)
  {
    PrefixFits(w, c, k, xs, syms, |c[k]|);
    assert c[k][..|c[k]|] == c[k];
  }

  // ----- the completed items of a list, in order -----

  function Completed(items: seq<Elem>): seq<Elem> {
    if items == [] then []
    else
      var e := items[|items| - 1];
      Completed(items[..|items| - 1]) + if IsDone(e) then [e] else []
  }

  lemma {:induction false} CompletedAre(items: seq<Elem>)
    ensures forall e :: e in Completed(items) <==> e in items && IsDone(e)
  {
    hide IsDone;
    if items != [] {
      CompletedAre(items[..|items| - 1]);
      assert items == items[..|items| - 1] + [items[|items| - 1]];
    }
  }

  /** The completed items of the list are those of line, each after the one before it. */
  ghost predicate IsLined(items: seq<Elem>, line: seq<Elem>) {
    && NoDuplicates(items)
    && NoDuplicates(line)
    && (forall e :: e in items && IsDone(e) <==> e in line)
    && forall j, i :: 0 <= j < |items| && 0 < i < |line| && items[j] == line[i] ==> line[i - 1] in items[..j]
  }

  lemma NextIndex(line: seq<Elem>, n: nat, i: nat)
    requires NoDuplicates(line) && n <= |line| && i < |line|
    requires line[i] !in line[..n] && (i > 0 ==> line[i - 1] in line[..n])
    ensures i == n
  {
    assert forall m :: 0 <= m < n ==> line[m] in line[..n];
  }

  lemma {:induction false} LinedPrefix(items: seq<Elem>, line: seq<Elem>, j: nat)
    requires IsLined(items, line) && j <= |items|
    ensures Completed(items[..j]) <= line
    decreases j
  {
    hide IsDone;
    if j > 0 {
      LinedPrefix(items, line, j - 1);
      var e, before := items[j - 1], Completed(items[..j - 1]);
      assert items[..j][..j - 1] == items[..j - 1];
      if IsDone(e) {
        NextIsLined(items, line, j - 1);
      }
    }
  }

  lemma NextIsLined(items: seq<Elem>, line: seq<Elem>, j: nat)
    requires IsLined(items, line) && j < |items| && Completed(items[..j]) <= line && IsDone(items[j])
    ensures Completed(items[..j]) + [items[j]] <= line
  {
    hide IsDone, Completed;
    var e, before := items[j], Completed(items[..j]);
    CompletedAre(items[..j]);
    assert e in items;
    var i :| 0 <= i < |line| && line[i] == e;
    assert e !in before && (i > 0 ==> line[i - 1] in before) by { hide NoDuplicates; LinedBefore(items, line, j, i); }
    NextIndex(line, |before|, i);
    assert line[..i + 1] == line[..i] + [e];
  }

  lemma LinedBefore(items: seq<Elem>, line: seq<Elem>, j: nat, i: nat)
    requires IsLined(items, line) && j < |items| && i < |line| && items[j] == line[i]
    ensures items[j] !in items[..j] && (i > 0 ==> line[i - 1] in items[..j] && IsDone(line[i - 1]))
  {
    hide IsDone;
    if i > 0 {
      assert line[i - 1] in line;
    }
  }

  lemma IndexBelow(line: seq<Elem>, n: nat, m: nat)
    requires NoDuplicates(line) && n <= |line| && m < |line| && line[m] in line[..n]
    ensures m < n
  {
  }

  lemma LinedUp(items: seq<Elem>, line: seq<Elem>)
    requires IsLined(items, line)
    ensures Completed(items) == line
  {
    LinedPrefix(items, line, |items|);
    assert items[..|items|] == items;
    CompletedAre(items);
    assert forall m :: 0 <= m < |line| ==> line[m] in Completed(items);
    if line != [] {
      IndexBelow(line, |Completed(items)|, |line| - 1);
    }
  }

  lemma NoneCompleted(items: seq<Elem>)
    requires forall e :: e in items ==> !IsDone(e)
    ensures Completed(items) == []
  {
    CompletedAre(items);
    if Completed(items) != [] {
      assert Completed(items)[0] in Completed(items);
    }
  }

  // ----- what waits for a symbol -----

  /** The items of a list that await a symbol: at most one that the symbol completes, with what waits for that one's
      left side where it starts, and others, which go on. */
  datatype Demand = Open(others: set<Elem>) | Closing(next: Elem, others: set<Elem>, above: Demand)

  ghost predicate Demands(c: Chart, s: nat, a: Symbol, x: Demand)
    decreases x
  {
    && s < |c|
    && (forall p :: p in c[s] && Wants(p, a) <==> p in x.others || (x.Closing? && p == x.next))
    && (forall p :: p in x.others ==> !IsDone(Advance(p)))
    && (x.Closing? ==> IsDone(Advance(x.next)) && x.next.start <= s && Demands(c, x.next.start, Left(x.next), x.above))
  }

  /** The items that are completed in turn. */
  function Chain(x: Demand): seq<Elem> {
    match x
    case Open(_) => []
    case Closing(q, _, above) => [Advance(q)] + Chain(above)
  }

  /** The items that go on. */
  predicate Pends(x: Demand, e: Elem) {
    (e.dot > 0 && Retreat(e) in x.others) || (x.Closing? && Pends(x.above, e))
  }

  lemma {:induction false} SameChain(c: Chart, s: nat, a: Symbol, x: Demand, y: Demand)
    requires Demands(c, s, a, x) && Demands(c, s, a, y)
    ensures Chain(x) == Chain(y)
    decreases x
  {
    hide RuleAt, Wants;
    if x.Closing? {
      assert x.next in c[s] && Wants(x.next, a);
      assert y.Closing? && y.next == x.next;
      SameChain(c, x.next.start, Left(x.next), x.above, y.above);
    } else {
      assert y.Open?;
    }
  }

  /** The line of completions that item d of a later list starts. */
  function Line(d: Elem, x: Demand): seq<Elem> {
    [d] + Chain(x)
  }

  lemma FirstInLine(d: Elem, x: Demand)
    ensures d in Line(d, x)
  {
    assert Line(d, x)[0] == d;
  }

  /** Element i of the line with what waits for it. */
  lemma {:induction false} DemandAt(c: Chart, d: Elem, x: Demand, i: nat) returns (y: Demand)
    requires IsDone(d) && Demands(c, d.start, Left(d), x) && i < |Line(d, x)|
    ensures var e := Line(d, x)[i];
            && IsDone(e) && e.start <= d.start && Demands(c, e.start, Left(e), y) && Line(e, y) == Line(d, x)[i..]
            && forall p :: Pends(y, p) ==> Pends(x, p)
    decreases x
  {
    hide RuleAt, Wants;
    if i == 0 {
      y := x;
    } else {
      assert Line(d, x)[1..] == Line(Advance(x.next), x.above);
      y := DemandAt(c, Advance(x.next), x.above, i - 1);
      assert Line(d, x)[i..] == Line(d, x)[1..][i - 1..];
    }
  }

  lemma LineIsDistinct(c: Chart, d: Elem, x: Demand)
    requires IsDone(d) && Demands(c, d.start, Left(d), x)
    ensures NoDuplicates(Line(d, x))
  {
    hide Demands, Chain, Pends, RuleAt;
    var line := Line(d, x);
    forall i, j | 0 <= i < j < |line|
      ensures line[i] != line[j]
    {
      var y := DemandAt(c, d, x, i);
      var z := DemandAt(c, d, x, j);
      if line[i] == line[j] {
        SameChain(c, line[i].start, Left(line[i]), y, z);
        assert false;
      }
    }
  }

  /** An item over what element i completes is the next of the line, or goes on. */
  lemma AdvanceInLine(c: Chart, d: Elem, x: Demand, i: nat, p: Elem)
    requires IsDone(d) && Demands(c, d.start, Left(d), x) && i < |Line(d, x)|
    requires var e := Line(d, x)[i]; IsDone(e) && e.start < |c| && p in c[e.start] && Wants(p, Left(e))
    ensures (i + 1 < |Line(d, x)| && Advance(p) == Line(d, x)[i + 1]) || Pends(x, Advance(p))
    ensures IsDone(Advance(p)) ==> i + 1 < |Line(d, x)| && Advance(p) == Line(d, x)[i + 1]
  {
    hide RuleAt, Wants;
    var y := DemandAt(c, d, x, i);
    assert Retreat(Advance(p)) == p;
    if p !in y.others {
      assert Line(d, x)[i..][1] == Advance(p);
    }
  }

  /** What element i + 1 of the line is moved over, and where from. */
  lemma NextInLine(c: Chart, d: Elem, x: Demand, i: nat)
    requires IsDone(d) && Demands(c, d.start, Left(d), x) && i + 1 < |Line(d, x)|
    ensures var e, f := Line(d, x)[i], Line(d, x)[i + 1];
            && IsDone(e) && e.start <= d.start < |c| && f.dot > 0 && Retreat(f) in c[e.start] && Passed(f, Left(e)) &&
               Wants(Retreat(f), Left(e))
  {
    hide RuleAt, Wants;
    var y := DemandAt(c, d, x, i);
    assert Line(d, x)[i..][1] == Advance(y.next);
    assert y.next in c[Line(d, x)[i].start];
    WantedThenPassed(y.next, Left(Line(d, x)[i]));
  }

  // ----- a list where something is completed -----

  /** Rules for these symbols are not empty and start with a terminal or one of them. */
  ghost predicate IsTidy(syms: set<Symbol>) {
    forall r: nat :: r < 49 && RuleAt(r).lhs in syms ==>
                       RuleAt(r).rhs != [] && (IsTerminal(RuleAt(r).rhs[0]) || RuleAt(r).rhs[0] in syms)
  }

  /** The items of the line that d starts, those that go on, and ys. */
  ghost function Around(d: Elem, x: Demand, ys: set<Elem>): iset<Elem> {
    iset e | e in Line(d, x) || e in ys || Pends(x, e)
  }

  /** Item d is completed by the token just scanned, ys are the others scanned, and x waits where d starts. */
  ghost predicate IsClosed(c: Chart, m: nat, d: Elem, x: Demand, ys: set<Elem>) {
    && m < |c|
    && d in c[m]
    && IsDone(d)
    && d.start < m
    && Demands(c, d.start, Left(d), x)
    && (forall e :: e in ys ==> !IsDone(e))
    && ScansInto(c, m, iset e | e == d || e in ys)
  }

  /** What goes on after m, or has been scanned, awaits a token or one of the symbols. */
  ghost predicate GoesOn(x: Demand, ys: set<Elem>, syms: set<Symbol>) {
    forall e, t :: (e in ys || Pends(x, e)) && Wants(e, t) ==> IsTerminal(t) || t in syms
  }

  lemma PendingItem(c: Chart, d: Elem, x: Demand, e: Elem) returns (i: nat)
    requires IsDone(d) && Demands(c, d.start, Left(d), x) && Pends(x, e)
    ensures i < |Line(d, x)|
    ensures var f := Line(d, x)[i];
            IsDone(f) && f.start <= d.start < |c| && e.dot > 0 && Retreat(e) in c[f.start] &&
              Wants(Retreat(e), Left(f)) && !IsDone(e)
    decreases x
  {
    hide RuleAt, Wants;
    if e.dot > 0 && Retreat(e) in x.others {
      i := 0;
      assert Advance(Retreat(e)) == e;
    } else {
      assert Line(d, x)[1..] == Line(Advance(x.next), x.above);
      i := PendingItem(c, Advance(x.next), x.above, e);
      i := i + 1;
    }
  }

  lemma InList(c: Chart, m: nat, e: Elem) returns (j: nat)
    requires m < |c| && e in c[m]
    ensures j < |c[m]| && c[m][j] == e
  {
    j :| j < |c[m]| && c[m][j] == e;
  }

  lemma AnsweredIn(w: Form, c: Chart, m: nat, e: Elem)
    requires Traced(w, c) && m < |w| && e in c[m]
    ensures IsAnswered(w, c, m, e)
  {
    hide IsAnswered, IsBrought, Passed;
    var j := InList(c, m, e);
    assert IsTraced(w, c, m, j);
  }

  lemma {:induction false} LineIsIn(w: Form, c: Chart, m: nat, d: Elem, x: Demand, ys: set<Elem>, i: nat)
    requires Traced(w, c) && m < |w| && IsClosed(c, m, d, x, ys) && i < |Line(d, x)|
    ensures Line(d, x)[i] in c[m]
    decreases i
  {
    hide RuleAt, Traced, Demands, Chain, Passed, Wants, IsDone, ScansInto;
    if i > 0 {
      LineIsIn(w, c, m, d, x, ys, i - 1);
      NextInLine(c, d, x, i - 1);
      AnsweredIn(w, c, m, Line(d, x)[i - 1]);
    }
  }

  lemma PendingIsIn(w: Form, c: Chart, m: nat, d: Elem, x: Demand, ys: set<Elem>, e: Elem)
    requires Traced(w, c) && m < |w| && IsClosed(c, m, d, x, ys) && Pends(x, e)
    ensures e in c[m] && !IsDone(e)
  {
    hide RuleAt, Traced, Demands, Chain, Passed, Wants, IsDone, ScansInto, Pends;
    var i := PendingItem(c, d, x, e);
    LineIsIn(w, c, m, d, x, ys, i);
    AnsweredIn(w, c, m, Line(d, x)[i]);
  }

  lemma ClosedCompletes(w: Form, c: Chart, m: nat, d: Elem, x: Demand, ys: set<Elem>, syms: set<Symbol>)
    requires Traced(w, c) && m < |w| && IsClosed(c, m, d, x, ys) && IsTidy(syms)
    ensures Completes(c, m, Around(d, x, ys), syms)
  {
    hide RuleAt, Traced, Demands, Passed, Wants, Line, ScansInto, Pends;
    forall e, p | e in c[m] && Fits(e, m, Around(d, x, ys), syms) && IsDone(e) &&
      Crosses(c, m, Around(d, x, ys), syms, e, p)
      ensures Advance(p) in Around(d, x, ys)
    {
      DoneInLine(w, c, m, d, x, ys, syms, e);
      var i :| 0 <= i < |Line(d, x)| && Line(d, x)[i] == e;
      AdvanceInLine(c, d, x, i, p);
    }
  }

  lemma DoneInLine(w: Form, c: Chart, m: nat, d: Elem, x: Demand, ys: set<Elem>, syms: set<Symbol>, e: Elem)
    requires Traced(w, c) && m < |w| && IsClosed(c, m, d, x, ys) && IsTidy(syms)
    requires e in c[m] && IsDone(e) && Fits(e, m, Around(d, x, ys), syms)
    ensures e in Line(d, x)
  {
    hide Traced, Demands, Passed, Wants, Line, ScansInto, Pends, RuleAt;
    if Pends(x, e) {
      PendingIsIn(w, c, m, d, x, ys, e);
    }
  }

  lemma ClosedPredicts(m: nat, d: Elem, x: Demand, ys: set<Elem>, syms: set<Symbol>)
    requires GoesOn(x, ys, syms) && IsTidy(syms) && forall e :: e in Line(d, x) ==> IsDone(e)
    ensures Predicts(m, Around(d, x, ys), syms)
  {
    hide Line, Pends, RuleAt;
  }

  /** Where an item is completed by a token, the list completes its line, in order, and holds what goes on, what was
      scanned besides, and what that predicts. */
  lemma ClosedList(w: Form, c: Chart, m: nat, d: Elem, x: Demand, ys: set<Elem>, syms: set<Symbol>)
    requires Traced(w, c) && 0 < m < |w| && IsClosed(c, m, d, x, ys) && GoesOn(x, ys, syms) && IsTidy(syms)
    ensures Completed(c[m]) == Line(d, x)
    ensures forall e :: e in c[m] ==> Fits(e, m, Around(d, x, ys), syms)
    ensures forall e :: Pends(x, e) ==> e in c[m] && !IsDone(e)
  {
    hide RuleAt, Traced, Demands, Passed, Wants, Line, Pends, IsTraced, GoesOn, IsTidy, Fits, Predicts, Completes;
    var line := Line(d, x);
    forall e | e in line
      ensures IsDone(e) && e in c[m]
    {
      var i :| 0 <= i < |line| && line[i] == e;
      var y := DemandAt(c, d, x, i);
      LineIsIn(w, c, m, d, x, ys, i);
    }
    forall e | Pends(x, e)
      ensures e in c[m] && !IsDone(e)
    {
      PendingIsIn(w, c, m, d, x, ys, e);
    }
    ClosedPredicts(m, d, x, ys, syms);
    ClosedCompletes(w, c, m, d, x, ys, syms);
    FirstInLine(d, x);
    AllFit(w, c, m, Around(d, x, ys), syms);
    assert IsLined(c[m], line) by { LineIsLined(w, c, m, d, x, ys, syms); }
    LinedUp(c[m], line);
  }

  lemma LineIsLined(w: Form, c: Chart, m: nat, d: Elem, x: Demand, ys: set<Elem>, syms: set<Symbol>)
    requires Traced(w, c) && 0 < m < |w| && IsClosed(c, m, d, x, ys) && IsTidy(syms)
    requires forall e :: e in c[m] ==> Fits(e, m, Around(d, x, ys), syms)
    requires forall e :: e in Line(d, x) ==> IsDone(e) && e in c[m]
    ensures IsLined(c[m], Line(d, x))
  {
    hide RuleAt, Demands, Passed, Wants, Line, Pends, IsTraced, IsTidy, Fits, IsDone;
    var line := Line(d, x);
    LineIsDistinct(c, d, x);
    forall e | e in c[m] && IsDone(e)
      ensures e in line
    {
      DoneInLine(w, c, m, d, x, ys, syms, e);
    }
    forall j, i | 0 <= j < |c[m]| && 0 < i < |line| && c[m][j] == line[i]
      ensures line[i - 1] in c[m][..j]
    {
      BroughtByPrevious(w, c, m, d, x, j, i);
    }
  }

  lemma BroughtByPrevious(w: Form, c: Chart, m: nat, d: Elem, x: Demand, j: nat, i: nat)
    requires Traced(w, c) && m < |w| && IsDone(d) && Demands(c, d.start, Left(d), x)
    requires j < |c[m]| && 0 < i < |Line(d, x)| && c[m][j] == Line(d, x)[i]
    requires forall e :: e in c[m] && IsDone(e) ==> e in Line(d, x)
    ensures Line(d, x)[i - 1] in c[m][..j]
  {
    hide RuleAt, Demands, Passed, Wants, Line, Pends, IsAnswered;
    var line := Line(d, x);
    var y := DemandAt(c, d, x, i);
    NextInLine(c, d, x, i - 1);
    LineIsDistinct(c, d, x);
    assert IsTraced(w, c, m, j);
    var a := Left(line[i - 1]);
    NonterminalLeft(line[i - 1].rule);
    var e :| e in c[m][..j] && Moves(c, c[m][..j], m, e, a, line[i]);
    assert e in c[m];
    var n :| 0 <= n < |line| && line[n] == e;
    assert Advance(Retreat(line[i])) == line[i];
    assert Wants(Retreat(line[i]), Left(e));
    AdvanceInLine(c, d, x, n, Retreat(line[i]));
  }
}
