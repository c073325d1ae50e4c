/** Whatever is read from the items of a statement stays in them: the reader goes no further left than where they start,
    even when the tree it gives is not the one they come from. */
module Staying {
  import opened Options
  import opened Symbols
  import opened Earley
  import opened Wlp4Grammar
  import opened Ast
  import opened Types
  import opened Yields
  import opened Items
  import opened Reading
  import opened ReadBack
  import opened ReadStatements
  import opened Tidy

  lemma SideIsLhs(r: nat)
    requires 22 <= r < 49
    ensures RuleAt(r).lhs == Side(r) && Side(r) !in {STATEMENTS, STATEMENT}
  {
  }

  // ----- reading from tidy items -----

  /** The chart holds the tidy items z from item g on. */
  ghost predicate InZone(c: Context, g: nat, z: seq<Elem>) {
    IsChart(c.chart) && g + |z| <= |c.chart| && c.chart[g..g + |z|] == z && IsTidy(z)
  }

  /** Among the items of z up to the one after item j of the chart there is one that starts at s or later. */
  ghost predicate Reaches(g: nat, z: seq<Elem>, j: int, s: nat) {
    exists n: nat :: n < |z| && n <= j - g + 1 && z[n].start >= s
  }

  lemma ReachesMore(g: nat, z: seq<Elem>, j: int, s: nat, s': nat)
    requires Reaches(g, z, j, s) && s' <= s
    ensures Reaches(g, z, j, s')
  {
    var n: nat :| n < |z| && n <= j - g + 1 && z[n].start >= s;
    assert z[n].start >= s';
  }

  lemma ItemOfZone(c: Context, g: nat, z: seq<Elem>, k: nat)
    requires InZone(c, g, z) && g <= k < g + |z|
    ensures Ready(c, k) && Ready(c, k - 1) && c.chart[k] == z[k - g] && 22 <= c.chart[k].rule < 49
    ensures Lhs(c.chart, k) == Side(z[k - g].rule)
    ensures Find(c.chart, Side(z[k - g].rule), k) == k
  {
    assert c.chart[g..g + |z|][k - g] == c.chart[k];
    assert IsTidyAt(z, k - g);
    SideIsLhs(c.chart[k].rule);
    hide RuleAt;
    FindHere(c.chart, Side(z[k - g].rule), k);
  }

  /** The last part of an item is right below it. */
  lemma PartOfZone(c: Context, g: nat, z: seq<Elem>, k: nat)
    requires InZone(c, g, z) && g <= k < g + |z| && !IsBare(z[k - g].rule)
    ensures g < k && Side(z[k - 1 - g].rule) == LastPart(z[k - g].rule) && z[k - 1 - g].start >= z[k - g].start
  {
    assert IsTidyAt(z, k - g);
  }

  lemma {:induction false} FindNoLower(chart: seq<Elem>, sym: Symbol, i: int, k: nat)
    requires IsChart(chart) && k <= i < |chart| && Lhs(chart, k) == sym
    ensures k <= Find(chart, sym, i) && Find(chart, sym, Find(chart, sym, i)) == Find(chart, sym, i)
    decreases i
  {
    hide RuleAt;
    if Lhs(chart, i) != sym {
      FindNoLower(chart, sym, i - 1, k);
    }
  }

  /** The left part of an item, looked for from where its last part was left. */
  lemma LeftOfZone(c: Context, g: nat, z: seq<Elem>, k: nat, j: int) returns (m: nat)
    requires InZone(c, g, z) && g < k < g + |z| && 22 <= z[k - g].rule < 49 && HasLeft(z[k - g].rule)
    requires -1 <= j < k - 1 && Reaches(g, z, j, z[k - 1 - g].start)
    ensures Ready(c, j) && Ready(c, m)
    ensures m == Find(c.chart, LeftPart(z[k - g].rule), j) == Find(c.chart, LeftPart(z[k - g].rule), m)
    ensures g <= m <= j && Side(z[m - g].rule) == LeftPart(z[k - g].rule) && z[m - g].start >= z[k - g].start
  {
    var x, y := z[k - g], z[..k - g];
    assert IsTidyAt(z, k - g);
    var l: nat :| IsLeftOf(y, l, z[k - 1 - g].start, x);
    var n: nat :| n < |z| && n <= j - g + 1 && z[n].start >= z[k - 1 - g].start;
    assert y[n] == z[n] && l < n;
    ItemOfZone(c, g, z, g + l);
    hide RuleAt, IsTidy;
    FindNoLower(c.chart, LeftPart(x.rule), j, g + l);
    m := Find(c.chart, LeftPart(x.rule), j);
    ItemOfZone(c, g, z, m);
    assert y[m - g] == z[m - g];
  }

  lemma SameExpr(c: Context, j: int, m: int)
    requires Ready(c, j) && Ready(c, m) && Find(c.chart, EXPR, j) == Find(c.chart, EXPR, m)
    ensures ReadExpr(c, j) == ReadExpr(c, m)
  {
    hide RuleAt, ReadTerm, ExprType;
  }

  lemma {:induction false} ExprStays(c: Context, g: nat, z: seq<Elem>, k: nat)
    requires InZone(c, g, z) && g <= k < g + |z| && Side(z[k - g].rule) == EXPR && ReadExpr(c, k).Ok?
    ensures Reaches(g, z, ReadExpr(c, k).value.1, z[k - g].start)
    decreases k
  {
    hide RuleAt, InZone, ReadTerm, ExprType, Reaches;
    var x := z[k - g];
    ItemOfZone(c, g, z, k);
    PartOfZone(c, g, z, k);
    TermStays(c, g, z, k - 1);
    var j := ReadTerm(c, k - 1).value.1;
    ReachesMore(g, z, j, z[k - 1 - g].start, x.start);
    if x.rule > 28 {
      var m := LeftOfZone(c, g, z, k, j);
      SumOps(x.rule);
      ExprStays(c, g, z, m);
      ReachesMore(g, z, ReadExpr(c, m).value.1, z[m - g].start, x.start);
    } else {
      SumOps(x.rule);
    }
  }

  lemma SumOps(r: nat)
    requires 28 <= r < 31
    ensures var rhs := RuleAt(r).rhs; if r == 28 then |rhs| == 1 else |rhs| == 3 && (rhs[1] == PLUS || rhs[1] == MINUS)
  {
  }

  lemma ProductOps(r: nat)
    requires 31 <= r < 35
    ensures |RuleAt(r).rhs| == if r == 31 then 1 else 3
  {
  }

  lemma {:induction false} TermStays(c: Context, g: nat, z: seq<Elem>, k: nat)
    requires InZone(c, g, z) && g <= k < g + |z| && Side(z[k - g].rule) == TERM && ReadTerm(c, k).Ok?
    ensures Reaches(g, z, ReadTerm(c, k).value.1, z[k - g].start)
    decreases k
  {
    hide RuleAt, InZone, ReadFactor, TermType, Reaches;
    var x := z[k - g];
    ItemOfZone(c, g, z, k);
    PartOfZone(c, g, z, k);
    FactorStays(c, g, z, k - 1);
    var j := ReadFactor(c, k - 1).value.1;
    ReachesMore(g, z, j, z[k - 1 - g].start, x.start);
    ProductOps(x.rule);
    if x.rule > 31 {
      var m := LeftOfZone(c, g, z, k, j);
      TermStays(c, g, z, m);
      ReachesMore(g, z, ReadTerm(c, m).value.1, z[m - g].start, x.start);
    }
  }

  lemma LeafReaches(g: nat, z: seq<Elem>, k: nat)
    requires g <= k < g + |z|
    ensures Reaches(g, z, k - 1, z[k - g].start)
  {
    var n: nat := k - g;
    assert z[n].start >= z[k - g].start;
  }

  lemma FactorOps(r: nat)
    requires 35 <= r < 44
    ensures var rhs := RuleAt(r).rhs;
            && rhs != [] && (35 <= r <= 37 <==> |rhs| == 1) && (42 <= r ==> rhs[0] == ID)
            && (|rhs| == 3 && rhs[0] == ID <==> r == 42)
            && (r == 38 ==> rhs[0] == LPAREN) && (r == 39 ==> rhs[0] == AMP) && (r == 40 ==> rhs[0] == STAR)
            && (r == 41 ==> rhs[0] == NEW)
  {
  }

  lemma {:induction false} FactorStays(c: Context, g: nat, z: seq<Elem>, k: nat)
    requires InZone(c, g, z) && g <= k < g + |z| && Side(z[k - g].rule) == FACTOR && ReadFactor(c, k).Ok?
    ensures Reaches(g, z, ReadFactor(c, k).value.1, z[k - g].start)
    decreases k
  {
    hide RuleAt, InZone, ReadExpr, ReadLvalue, ReadArglist, FactorType, LvalueType, ExprType, Reaches, DeclaredInTime;
    var x := z[k - g];
    ItemOfZone(c, g, z, k);
    FactorOps(x.rule);
    if IsBare(x.rule) {
      LeafReaches(g, z, k);
    } else {
      PartOfZone(c, g, z, k);
      if x.rule == 39 {
        LvalueStays(c, g, z, k - 1);
      } else if x.rule == 40 {
        FactorStays(c, g, z, k - 1);
      } else if x.rule == 43 {
        ArgsStay(c, g, z, k - 1);
      } else {
        ExprStays(c, g, z, k - 1);
      }
      ReachesMore(g, z, ReadFactor(c, k).value.1, z[k - 1 - g].start, x.start);
    }
  }

  lemma {:induction false} ArgsStay(c: Context, g: nat, z: seq<Elem>, k: nat)
    requires InZone(c, g, z) && g <= k < g + |z| && Side(z[k - g].rule) == ARGLIST && ReadArglist(c, k).Ok?
    ensures Reaches(g, z, ReadArglist(c, k).value.1, z[k - g].start)
    decreases k
  {
    hide RuleAt, InZone, ReadExpr, Reaches;
    var x := z[k - g];
    ItemOfZone(c, g, z, k);
    PartOfZone(c, g, z, k);
    assert |RuleAt(44).rhs| == 1 && |RuleAt(45).rhs| == 3 by { ArgOps(); }
    if x.rule == 44 {
      ExprStays(c, g, z, k - 1);
      ReachesMore(g, z, ReadExpr(c, k - 1).value.1, z[k - 1 - g].start, x.start);
    } else {
      ArgsStay(c, g, z, k - 1);
      var j := ReadArglist(c, k - 1).value.1;
      var m := LeftOfZone(c, g, z, k, j);
      SameExpr(c, j, m);
      ExprStays(c, g, z, m);
      ReachesMore(g, z, ReadExpr(c, m).value.1, z[m - g].start, x.start);
    }
  }

  lemma ArgOps()
    ensures |RuleAt(44).rhs| == 1 && |RuleAt(45).rhs| == 3
  {
  }

  lemma {:induction false} LvalueStays(c: Context, g: nat, z: seq<Elem>, k: nat)
    requires InZone(c, g, z) && g <= k < g + |z| && Side(z[k - g].rule) == LVALUE && ReadLvalue(c, k).Ok?
    ensures Reaches(g, z, ReadLvalue(c, k).value.1, z[k - g].start)
    decreases k
  {
    hide RuleAt, InZone, ReadFactor, FactorType, Reaches;
    var x := z[k - g];
    ItemOfZone(c, g, z, k);
    TheLvalueRules();
    if x.rule == 46 {
      LeafReaches(g, z, k);
    } else {
      PartOfZone(c, g, z, k);
      if x.rule == 47 {
        FactorStays(c, g, z, k - 1);
      } else {
        LvalueStays(c, g, z, k - 1);
      }
      ReachesMore(g, z, ReadLvalue(c, k).value.1, z[k - 1 - g].start, x.start);
    }
  }

  lemma {:induction false} TestStays(c: Context, g: nat, z: seq<Elem>, k: nat)
    requires InZone(c, g, z) && g <= k < g + |z| && Side(z[k - g].rule) == TEST && ReadTest(c, k).Ok?
    ensures Reaches(g, z, ReadTest(c, k).value.1, z[k - g].start)
  {
    hide RuleAt, InZone, ReadExpr, ExprType, Reaches;
    var x := z[k - g];
    ItemOfZone(c, g, z, k);
    PartOfZone(c, g, z, k);
    ExprStays(c, g, z, k - 1);
    var j := ReadExpr(c, k - 1).value.1;
    var m := LeftOfZone(c, g, z, k, j);
    SameExpr(c, j, m);
    ExprStays(c, g, z, m);
    ReachesMore(g, z, ReadExpr(c, m).value.1, z[m - g].start, x.start);
  }

  // ----- reading a statement, whatever is made of it -----

  /** The reader has stopped at item j, with nothing left of xs but items of expressions. */
  predicate StopsAbove(c: Context, j: int, xs: seq<Elem>) {
    && Ready(c, j) && |xs| <= j + 1 && Shows(c, |xs| - 1, xs)
    && forall m :: |xs| <= m <= j ==> 22 <= c.chart[m].rule
  }

  lemma StoppedAbove(c: Context, i: int, xs: seq<Elem>, z: seq<Elem>, j: int, s: nat)
    requires Shows(c, i, xs + z) && InZone(c, |xs|, z) && -1 <= j <= i && Reaches(|xs|, z, j, s)
    ensures StopsAbove(c, j, xs)
  {
    assert c.chart[..i + 1][..|xs|] == c.chart[..|xs|] == xs;
    forall m | |xs| <= m <= j
      ensures 22 <= c.chart[m].rule
    {
      ItemOfZone(c, |xs|, z, m);
    }
  }

  lemma ZoneShown(c: Context, i: int, xs: seq<Elem>, z: seq<Elem>)
    requires Shows(c, i, xs + z) && IsTidy(z)
    ensures InZone(c, |xs|, z) && Ready(c, i)
  {
    assert c.chart[|xs|..i + 1] == c.chart[..i + 1][|xs|..] == z;
  }

  lemma TopOfZone(c: Context, i: int, xs: seq<Elem>, z: seq<Elem>)
    requires Shows(c, i, xs + z) && z != []
    ensures i == |xs| + |z| - 1
  {
  }

  lemma LoneExprTidy(e: Expr, s: nat)
    ensures IsTidy(ExprItems(e, s, [])) && EndsAs(ExprItems(e, s, []), EXPR, s)
  {
    hide IsTidy, ExprItems;
    assert IsReadyFor([], s, EXPR, []) by { NoneReady(s); }
    ExprTidy([], e, s, []);
    ExprEnds(e, s, []);
    assert [] + ExprItems(e, s, []) == ExprItems(e, s, []);
  }

  /** An expression in a place of its own. */
  lemma ExprStopsAbove(c: Context, i: int, xs: seq<Elem>, e: Expr, s: nat)
    requires Shows(c, i, xs + ExprItems(e, s, []))
    ensures Ready(c, i) && (ReadExpr(c, i).Ok? ==> StopsAbove(c, ReadExpr(c, i).value.1, xs))
  {
    hide RuleAt, IsTidy, ReadExpr, InZone, Reaches, StopsAbove, ExprItems, Shows;
    var z := ExprItems(e, s, []);
    LoneExprTidy(e, s);
    ZoneShown(c, i, xs, z);
    TopOfZone(c, i, xs, z);
    if ReadExpr(c, i).Ok? {
      ExprStays(c, |xs|, z, i);
      StoppedAbove(c, i, xs, z, ReadExpr(c, i).value.1, z[|z| - 1].start);
    }
  }

  lemma TestStopsAbove(c: Context, i: int, xs: seq<Elem>, t: Test, s: nat)
    requires Shows(c, i, xs + TestItems(t, s))
    ensures Ready(c, i) && (ReadTest(c, i).Ok? ==> StopsAbove(c, ReadTest(c, i).value.1, xs))
  {
    hide RuleAt, IsTidy, ReadTest, InZone, Reaches, StopsAbove, ExprItems, ExprYield;
    var z := TestItems(t, s);
    TestTidy(t, s);
    ZoneShown(c, i, xs, z);
    if ReadTest(c, i).Ok? {
      TestStays(c, |xs|, z, i);
      StoppedAbove(c, i, xs, z, ReadTest(c, i).value.1, z[|z| - 1].start);
    }
  }

  lemma AssignTidy(l: Lvalue, e: Expr, s: nat)
    ensures var s', x := s + |LvalueYield(l)| + 1, LvalueItems(l, s, []);
            && IsTidy(x + ExprItems(e, s', [])) && EndsAs(x, LVALUE, s) && AllBefore(x, s')
            && EndsAs(x + ExprItems(e, s', []), EXPR, s')
  {
    hide RuleAt, IsTidy, ExprItems, LvalueItems;
    var s', x := s + |LvalueYield(l)| + 1, LvalueItems(l, s, []);
    assert IsReadyFor([], s, LVALUE, []) by { NoneReady(s); }
    LvalueTidy([], l, s, []);
    LvalueEnds(l, s, []);
    LvaluePlaced(l, s, []);
    assert [] + x == x;
    NothingFits(x, s', EXPR);
    ExprTidy(x, e, s', []);
    ExprEnds(e, s', []);
  }

  /** Right and left side of an assignment, read one after the other. */
  lemma AssignStopsAbove(c: Context, i: int, xs: seq<Elem>, l: Lvalue, e: Expr, s: nat)
    requires Shows(c, i, (xs + LvalueItems(l, s, [])) + ExprItems(e, s + |LvalueYield(l)| + 1, []))
    ensures Ready(c, i)
    ensures ReadExpr(c, i).Ok? && ReadLvalue(c, ReadExpr(c, i).value.1).Ok? ==>
              StopsAbove(c, ReadLvalue(c, ReadExpr(c, i).value.1).value.1, xs)
  {
    hide RuleAt, IsTidy, ReadExpr, ReadLvalue, InZone, Reaches, StopsAbove, ExprItems, LvalueItems, AllBefore,
         LvalueYield;
    var s' := s + |LvalueYield(l)| + 1;
    var x, y := LvalueItems(l, s, []), ExprItems(e, s', []);
    AssignTidy(l, e, s);
    assert (xs + x) + y == xs + (x + y);
    ZoneShown(c, i, xs, x + y);
    if ReadExpr(c, i).Ok? && ReadLvalue(c, ReadExpr(c, i).value.1).Ok? {
      ExprStays(c, |xs|, x + y, i);
      var j := ReadExpr(c, i).value.1;
      var m := LvalueBelow(c, |xs|, x, y, s, s', j);
      LvalueStays(c, |xs|, x + y, m);
      StoppedAbove(c, i, xs, x + y, ReadLvalue(c, m).value.1, (x + y)[m - |xs|].start);
    }
  }

  /** From what an expression right of an lvalue leaves, some lvalue is found. */
  lemma LvalueBelow(c: Context, g: nat, x: seq<Elem>, y: seq<Elem>, s: nat, s': nat, j: int) returns (m: nat)
    requires InZone(c, g, x + y) && EndsAs(x, LVALUE, s) && AllBefore(x, s')
    requires -1 <= j < g + |x + y| && Reaches(g, x + y, j, s')
    ensures Ready(c, j) && Ready(c, m) && ReadLvalue(c, j) == ReadLvalue(c, m)
    ensures g <= m <= j && Side((x + y)[m - g].rule) == LVALUE
  {
    hide RuleAt, IsTidy, ReadFactor, FactorType;
    var n: nat :| n < |x + y| && n <= j - g + 1 && (x + y)[n].start >= s';
    assert forall i :: 0 <= i < |x| ==> (x + y)[i] == x[i];
    assert n >= |x|;
    var at := g + |x| - 1;
    assert (x + y)[|x| - 1] == x[|x| - 1];
    ItemOfZone(c, g, x + y, at);
    FindNoLower(c.chart, LVALUE, j, at);
    m := Find(c.chart, LVALUE, j);
    ItemOfZone(c, g, x + y, m);
  }
}
