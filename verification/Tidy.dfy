/** The items of expressions are tidy: every completed item stands right above the last part it was completed from, and
    its left part, if it has one, is below with nothing that could be taken for it from further left in between. */
module Tidy {
  import opened Symbols
  import opened Grammar
  import opened Earley
  import opened Wlp4Grammar
  import opened Ast
  import opened Yields
  import opened Items

  /** The left-hand side of a rule from tests on. */
  function Side(r: nat): Symbol {
    if r < 22 then STATEMENT else if r < 28 then TEST else if r < 31 then EXPR else if r < 35 then TERM
    else if r < 44 then FACTOR else if r < 46 then ARGLIST else LVALUE
  }

  /** Completed from one token, or as a call without arguments. */
  predicate IsBare(r: nat) {
    35 <= r <= 37 || r == 42 || r == 46
  }

  /** The last nonterminal of the rule, which is read first. */
  function LastPart(r: nat): Symbol {
    if r < 28 || r == 38 || r == 41 || r == 44 then EXPR
    else if r < 31 then TERM
    else if r < 35 || r == 40 || r == 47 then FACTOR
    else if r == 39 || r == 48 then LVALUE
    else ARGLIST
  }

  /** The rule has another nonterminal further left. */
  predicate HasLeft(r: nat) {
    22 <= r < 28 || 29 <= r < 31 || 32 <= r < 35 || r == 45
  }

  function LeftPart(r: nat): Symbol {
    if 32 <= r < 35 then TERM else EXPR
  }

  /** Item l is the left part of x, above whose other part from s on nothing else is. */
  predicate IsLeftOf(z: seq<Elem>, l: nat, s: nat, x: Elem) {
    && l < |z| && Side(z[l].rule) == LeftPart(x.rule)
    && (forall i :: 0 <= i < |z| && z[i].start >= s ==> l < i)
    && (forall i :: l <= i < |z| && Side(z[i].rule) == LeftPart(x.rule) ==> z[i].start >= x.start)
  }

  /** x can be completed by a part of the given kind from s on that comes after z. */
  ghost predicate Sits(z: seq<Elem>, s: nat, sym: Symbol, x: Elem) {
    && 22 <= x.rule < 49 && !IsBare(x.rule) && LastPart(x.rule) == sym && x.start <= s
    && (HasLeft(x.rule) ==> exists l: nat :: IsLeftOf(z, l, s, x))
  }

  ghost predicate IsTidyAt(z: seq<Elem>, m: nat)
    requires m < |z|
  {
    && 22 <= z[m].rule < 49
    && (IsBare(z[m].rule) || (m > 0 && Sits(z[..m], z[m - 1].start, Side(z[m - 1].rule), z[m])))
  }

  ghost predicate IsTidy(z: seq<Elem>) {
    forall m :: 0 <= m < |z| ==> IsTidyAt(z, m)
  }

  // ----- what a part completes in turn -----

  /** The items k come in turn after a part of the given kind from s on, each by the one before. */
  ghost predicate Fits(z: seq<Elem>, s: nat, sym: Symbol, k: seq<Elem>) {
    forall n :: 0 <= n < |k| ==> FitsAt(z, s, sym, k, n)
  }

  ghost predicate FitsAt(z: seq<Elem>, s: nat, sym: Symbol, k: seq<Elem>, n: nat)
    requires n < |k|
  {
    && Sits(z, if n == 0 then s else k[n - 1].start, if n == 0 then sym else Side(k[n - 1].rule), k[n])
    && k[n].start <= s
    && (HasLeft(k[n].rule) ==> NoneBefore(k, LeftPart(k[n].rule), k[n].start))
  }

  /** The items of this kind start no earlier than s. */
  predicate NoneBefore(xs: seq<Elem>, sym: Symbol, s: nat) {
    forall i :: 0 <= i < |xs| && Side(xs[i].rule) == sym ==> xs[i].start >= s
  }

  predicate Without(xs: seq<Elem>, sym: Symbol) {
    forall i :: 0 <= i < |xs| ==> Side(xs[i].rule) != sym
  }

  predicate AllBefore(xs: seq<Elem>, s: nat) {
    forall i :: 0 <= i < |xs| ==> xs[i].start < s
  }

  /** Every item starts at s or later, or is one of k. */
  predicate IsOwn(xs: seq<Elem>, s: nat, k: seq<Elem>) {
    forall i :: 0 <= i < |xs| ==> xs[i].start >= s || xs[i] in k
  }

  lemma SitsLonger(z: seq<Elem>, w: seq<Elem>, s: nat, sym: Symbol, x: Elem)
    requires Sits(z, s, sym, x) && (HasLeft(x.rule) ==> NoneBefore(w, LeftPart(x.rule), x.start))
    ensures Sits(z + w, s, sym, x)
  {
    if HasLeft(x.rule) {
      var l: nat :| IsLeftOf(z, l, s, x);
      forall i | l <= i < |z + w| && Side((z + w)[i].rule) == LeftPart(x.rule)
        ensures (z + w)[i].start >= x.start
      {
        if i >= |z| {
          assert (z + w)[i] == w[i - |z|];
        }
      }
      assert IsLeftOf(z + w, l, s, x);
    }
  }

  lemma FitsLonger(z: seq<Elem>, w: seq<Elem>, s: nat, sym: Symbol, k: seq<Elem>)
    requires Fits(z, s, sym, k) && IsOwn(w, s, k)
    ensures Fits(z + w, s, sym, k)
  {
    forall n | 0 <= n < |k|
      ensures FitsAt(z + w, s, sym, k, n)
    {
      assert FitsAt(z, s, sym, k, n);
      if HasLeft(k[n].rule) {
        forall i | 0 <= i < |w| && Side(w[i].rule) == LeftPart(k[n].rule)
          ensures w[i].start >= k[n].start
        {
        }
      }
      SitsLonger(z, w, if n == 0 then s else k[n - 1].start, if n == 0 then sym else Side(k[n - 1].rule), k[n]);
    }
  }

  /** One more item in between. */
  lemma FitsMore(z: seq<Elem>, s: nat, sym: Symbol, x: Elem, k: seq<Elem>)
    requires Sits(z, s, sym, x) && Fits(z, x.start, Side(x.rule), k)
    requires HasLeft(x.rule) ==> Without(k, LeftPart(x.rule))
    ensures Fits(z, s, sym, [x] + k)
  {
    var k' := [x] + k;
    forall n | 0 <= n < |k'|
      ensures FitsAt(z, s, sym, k', n)
    {
      if n > 0 {
        assert FitsAt(z, x.start, Side(x.rule), k, n - 1);
        assert k'[n] == k[n - 1] && (n > 1 ==> k'[n - 1] == k[n - 2]);
        if HasLeft(k'[n].rule) {
          assert NoneBefore(k, LeftPart(k'[n].rule), k'[n].start);
          assert NoneBefore(k', LeftPart(k'[n].rule), k'[n].start);
        }
      } else if HasLeft(x.rule) {
        assert NoneBefore(k', LeftPart(x.rule), x.start);
      }
    }
  }

  lemma NothingFits(z: seq<Elem>, s: nat, sym: Symbol)
    ensures Fits(z, s, sym, [])
  {
  }

  lemma TidyOne(z: seq<Elem>, x: Elem)
    requires IsTidy(z) && 22 <= x.rule < 49
    requires IsBare(x.rule) || (z != [] && Sits(z, z[|z| - 1].start, Side(z[|z| - 1].rule), x))
    ensures IsTidy(z + [x])
  {
    var y := z + [x];
    forall m | 0 <= m < |y|
      ensures IsTidyAt(y, m)
    {
      assert y[..m] == z[..m];
      if m < |z| {
        assert IsTidyAt(z, m) && y[m] == z[m] && (m > 0 ==> y[m - 1] == z[m - 1]);
      } else {
        assert z[..m] == z;
      }
    }
  }

  /** The items a part completes in turn, right after it. */
  lemma {:induction false} TidyChain(z: seq<Elem>, s: nat, sym: Symbol, k: seq<Elem>, n: nat)
    requires IsTidy(z) && z != [] && z[|z| - 1].start == s && Side(z[|z| - 1].rule) == sym
    requires n <= |k| && Fits(z, s, sym, k)
    ensures IsTidy(z + k[..n])
    decreases n
  {
    hide IsTidy, Sits;
    if n == 0 {
      assert z + k[..0] == z;
    } else {
      TidyChain(z, s, sym, k, n - 1);
      assert FitsAt(z, s, sym, k, n - 1);
      var w, x := k[..n - 1], k[n - 1];
      SitsLonger(z, w, if n == 1 then s else k[n - 2].start, if n == 1 then sym else Side(k[n - 2].rule), x);
      assert Sits(z + w, (z + w)[|z + w| - 1].start, Side((z + w)[|z + w| - 1].rule), x);
      assert 22 <= x.rule < 49 by { SitsRule(z + w, (z + w)[|z + w| - 1].start, Side((z + w)[|z + w| - 1].rule), x); }
      TidyOne(z + w, x);
      assert (z + w) + [x] == z + k[..n];
    }
  }

  lemma SitsRule(z: seq<Elem>, s: nat, sym: Symbol, x: Elem)
    requires Sits(z, s, sym, x)
    ensures 22 <= x.rule < 49
  {
  }

  // ----- where the items of a tree start -----

  predicate IsPlaced(xs: seq<Elem>, s: nat, k: seq<Elem>, n: nat) {
    IsOwn(xs, s, k) && AllBefore(xs, s + n)
  }

  lemma {:induction false} ExprPlaced(e: Expr, s: nat, k: seq<Elem>)
    requires AllBefore(k, s + 1)
    ensures IsPlaced(ExprItems(e, s, k), s, k, |ExprYield(e)|) && |ExprYield(e)| > 0
    decreases e
  {
    hide TermItems, TermYield, RuleAt;
    match e
    case JustTerm(t) => TermPlaced(t, s, [Done(28, s)] + k);
    case _ =>
      var s' := s + |ExprYield(e.left)| + 1;
      ExprPlaced(e.left, s, k);
      TermPlaced(e.term, s', [Done(ExprRule(e), s)] + k);
  }

  lemma {:induction false} TermPlaced(t: Term, s: nat, k: seq<Elem>)
    requires AllBefore(k, s + 1)
    ensures IsPlaced(TermItems(t, s, k), s, k, |TermYield(t)|) && |TermYield(t)| > 0
    decreases t
  {
    hide FactorItems, FactorYield, RuleAt;
    match t
    case JustFactor(f) => FactorPlaced(f, s, [Done(31, s)] + k);
    case _ =>
      var s' := s + |TermYield(t.left)| + 1;
      TermPlaced(t.left, s, k);
      FactorPlaced(t.factor, s', [Done(TermRule(t), s)] + k);
  }

  lemma {:induction false} FactorPlaced(f: Factor, s: nat, k: seq<Elem>)
    requires AllBefore(k, s + 1)
    ensures IsPlaced(FactorItems(f, s, k), s, k, |FactorYield(f)|) && |FactorYield(f)| > 0
    decreases f
  {
    hide ExprItems, LvalueItems, ArgsItems, ExprYield, LvalueYield, ArgsYield, RuleAt;
    match f
    case Paren(e) => ExprPlaced(e, s + 1, []);
    case NewArray(e) => ExprPlaced(e, s + 3, []);
    case AddressOf(l) => LvaluePlaced(l, s + 1, [Done(39, s)] + k);
    case Deref(g) => FactorPlaced(g, s + 1, [Done(40, s)] + k);
    case Call(_, args) =>
      if args.Args? {
        ArgsPlaced(args, s + 2, []);
      }
    case _ =>
  }

  lemma {:induction false} ArgsPlaced(args: Arglist, s: nat, k: seq<Elem>)
    requires args.Args? && AllBefore(k, s + 1)
    ensures IsPlaced(ArgsItems(args, s, k), s, k, |ArgsYield(args)|) && |ArgsYield(args)| > 0
    decreases args
  {
    hide ExprItems, ExprYield, RuleAt;
    ExprPlaced(args.expr, s, [Done(44, s)] + k);
    if args.rest.Args? {
      ArgsPlaced(args.rest, s + |ExprYield(args.expr)| + 1, [Done(45, s)] + k);
    }
  }

  lemma {:induction false} LvaluePlaced(l: Lvalue, s: nat, k: seq<Elem>)
    requires AllBefore(k, s + 1)
    ensures IsPlaced(LvalueItems(l, s, k), s, k, |LvalueYield(l)|) && |LvalueYield(l)| > 0
    decreases l
  {
    hide FactorItems, FactorYield, RuleAt;
    match l
    case Var(_) =>
    case Target(f) => FactorPlaced(f, s + 1, [Done(47, s)] + k);
    case Enclosed(inner) => LvaluePlaced(inner, s + 1, []);
  }

  // ----- the items of a tree are tidy -----

  /** Everything before the tree has ended. */
  ghost predicate IsReadyFor(z: seq<Elem>, s: nat, sym: Symbol, k: seq<Elem>) {
    IsTidy(z) && AllBefore(z, s) && Fits(z, s, sym, k) && AllBefore(k, s + 1)
  }

  /** One rule without a left part: the tree inside completes x and then k. */
  lemma ReadyInside(z: seq<Elem>, s: nat, s': nat, sym: Symbol, x: Elem, k: seq<Elem>)
    requires IsReadyFor(z, s, Side(x.rule), k) && s <= s' && x.start == s
    requires 22 <= x.rule < 49 && !IsBare(x.rule) && LastPart(x.rule) == sym && !HasLeft(x.rule)
    ensures IsReadyFor(z, s', sym, [x] + k)
  {
    FitsMore(z, s', sym, x, k);
  }

  lemma ReadyEmpty(z: seq<Elem>, s: nat, s': nat, sym: Symbol, k: seq<Elem>, sym': Symbol)
    requires IsReadyFor(z, s, sym, k) && s <= s'
    ensures IsReadyFor(z, s', sym', [])
  {
    NothingFits(z, s', sym');
  }

  /** The item that ends a tree, on its last part. */
  lemma TidyTop(z: seq<Elem>, y: seq<Elem>, x: Elem)
    requires IsTidy(z + y) && y != [] && 22 <= x.rule < 49 && !IsBare(x.rule)
    requires Side(y[|y| - 1].rule) == LastPart(x.rule) && x.start <= y[|y| - 1].start
    requires !HasLeft(x.rule)
    ensures IsTidy(z + (y + [x]))
  {
    hide IsTidy;
    assert (z + y)[|z + y| - 1] == y[|y| - 1];
    TidyOne(z + y, x);
    assert (z + y) + [x] == z + (y + [x]);
  }

  /** A left part l at s, what it completes in turn, and where the right part of x starts. */
  lemma ReadyRight(z: seq<Elem>, l: seq<Elem>, s: nat, s': nat, own: seq<Elem>, x: Elem, k: seq<Elem>)
    requires IsReadyFor(z, s, Side(x.rule), k) && IsReadyFor(z, s, LeftPart(x.rule), own) && IsOwn(own, s, k)
    requires IsTidy(z + l) && IsOwn(l, s, own) && AllBefore(l, s') && s < s'
    requires l != [] && l[|l| - 1].start == s && Side(l[|l| - 1].rule) == LeftPart(x.rule)
    requires Without(k, LeftPart(x.rule)) && Without(own, LeftPart(x.rule))
    requires 22 <= x.rule < 49 && !IsBare(x.rule) && HasLeft(x.rule) && x.start == s
    ensures IsReadyFor(z + (l + own), s', LastPart(x.rule), [x] + k)
  {
    hide IsTidy;
    var w := l + own;
    FitsLonger(z, l, s, LeftPart(x.rule), own);
    assert (z + l)[|z + l| - 1] == l[|l| - 1];
    TidyChain(z + l, s, LeftPart(x.rule), own, |own|);
    assert own[..|own|] == own && (z + l) + own == z + w;
    FitsLonger(z, w, s, Side(x.rule), k);
    LeftStands(z, l, own, s, s', x);
    FitsMore(z + w, s', LastPart(x.rule), x, k);
  }

  lemma LeftStands(z: seq<Elem>, l: seq<Elem>, own: seq<Elem>, s: nat, s': nat, x: Elem)
    requires AllBefore(z, s) && AllBefore(own, s + 1) && AllBefore(l, s') && s < s'
    requires l != [] && l[|l| - 1].start == s && Side(l[|l| - 1].rule) == LeftPart(x.rule)
    requires Without(own, LeftPart(x.rule)) && x.start == s
    requires 22 <= x.rule < 49 && !IsBare(x.rule) && HasLeft(x.rule)
    ensures Sits(z + (l + own), s', LastPart(x.rule), x) && AllBefore(z + (l + own), s')
  {
    var y, at := z + (l + own), |z + l| - 1;
    forall i | 0 <= i < |y|
      ensures y[i].start < s' && (at <= i && Side(y[i].rule) == LeftPart(x.rule) ==> y[i].start >= x.start)
    {
      if i < |z| {
        assert y[i] == z[i];
      } else if i < |z + l| {
        assert y[i] == l[i - |z|];
      } else {
        assert y[i] == own[i - |z + l|];
      }
    }
    assert y[at] == l[|l| - 1];
    assert IsLeftOf(y, at, s', x);
  }

  /** The item that ends a tree with a left part, on its right part y from s' on. */
  lemma TidyWhole(z: seq<Elem>, l: seq<Elem>, s': nat, x: Elem, k: seq<Elem>, y: seq<Elem>)
    requires IsReadyFor(z + l, s', LastPart(x.rule), [x] + k) && IsTidy((z + l) + y) && IsOwn(y, s', [x] + k)
    requires y != [] && y[|y| - 1].start == s' && Side(y[|y| - 1].rule) == LastPart(x.rule)
    requires HasLeft(x.rule) ==> Without(k, LeftPart(x.rule))
    ensures IsTidy(z + (l + y + [x]))
  {
    hide IsTidy;
    FitsLonger(z + l, y, s', LastPart(x.rule), [x] + k);
    assert FitsAt((z + l) + y, s', LastPart(x.rule), [x] + k, 0);
    assert ((z + l) + y)[|(z + l) + y| - 1] == y[|y| - 1];
    SitsRule((z + l) + y, s', LastPart(x.rule), x);
    TidyOne((z + l) + y, x);
    assert ((z + l) + y) + [x] == z + (l + y + [x]);
  }

  lemma {:induction false} ExprTidy(z: seq<Elem>, e: Expr, s: nat, k: seq<Elem>)
    requires IsReadyFor(z, s, EXPR, k) && Without(k, EXPR) && Without(k, TERM)
    ensures IsTidy(z + ExprItems(e, s, k))
    decreases e
  {
    hide IsTidy, Fits, TermItems, TermYield, RuleAt;
    match e
    case JustTerm(t) =>
      var x := Done(28, s);
      ReadyInside(z, s, s, TERM, x, k);
      TermTidy(z, t, s, [x] + k);
      TermEnds(t, s, [x] + k);
      TidyTop(z, TermItems(t, s, [x] + k), x);
    case _ =>
      var x, s', l := Done(ExprRule(e), s), s + |ExprYield(e.left)| + 1, ExprItems(e.left, s, k);
      ExprTidy(z, e.left, s, k);
      ExprPlaced(e.left, s, k);
      ExprEnds(e.left, s, k);
      ReadyRight(z, l, s, s', k, x, k);
      TermTidy(z + (l + k), e.term, s', [x] + k);
      TermPlaced(e.term, s', [x] + k);
      TermEnds(e.term, s', [x] + k);
      TidyWhole(z, l + k, s', x, k, TermItems(e.term, s', [x] + k));
  }

  lemma ExprEnds(e: Expr, s: nat, k: seq<Elem>)
    ensures EndsAs(ExprItems(e, s, k), EXPR, s)
  {
    hide TermItems, ExprYield, RuleAt;
  }

  lemma TermEnds(t: Term, s: nat, k: seq<Elem>)
    ensures EndsAs(TermItems(t, s, k), TERM, s)
  {
    hide FactorItems, TermYield, RuleAt;
  }

  lemma FactorEnds(f: Factor, s: nat, k: seq<Elem>)
    ensures EndsAs(FactorItems(f, s, k), FACTOR, s)
  {
    hide ExprItems, LvalueItems, ArgsItems, RuleAt;
  }

  lemma ArgsEnd(args: Arglist, s: nat, k: seq<Elem>)
    requires args.Args?
    ensures EndsAs(ArgsItems(args, s, k), ARGLIST, s)
  {
    hide ExprItems, ExprYield, RuleAt;
  }

  lemma LvalueEnds(l: Lvalue, s: nat, k: seq<Elem>)
    ensures EndsAs(LvalueItems(l, s, k), LVALUE, s)
  {
    hide FactorItems, RuleAt;
  }

  /** The last item is of this kind and starts at s. */
  predicate EndsAs(xs: seq<Elem>, sym: Symbol, s: nat) {
    xs != [] && xs[|xs| - 1].start == s && Side(xs[|xs| - 1].rule) == sym
  }

  lemma {:induction false} TermTidy(z: seq<Elem>, t: Term, s: nat, k: seq<Elem>)
    requires IsReadyFor(z, s, TERM, k) && Without(k, TERM)
    ensures IsTidy(z + TermItems(t, s, k))
    decreases t
  {
    hide IsTidy, Fits, FactorItems, FactorYield, RuleAt;
    match t
    case JustFactor(f) =>
      var x := Done(31, s);
      ReadyInside(z, s, s, FACTOR, x, k);
      FactorTidy(z, f, s, [x] + k);
      FactorEnds(f, s, [x] + k);
      TidyTop(z, FactorItems(f, s, [x] + k), x);
    case _ =>
      var x, s', l := Done(TermRule(t), s), s + |TermYield(t.left)| + 1, TermItems(t.left, s, k);
      TermTidy(z, t.left, s, k);
      TermPlaced(t.left, s, k);
      TermEnds(t.left, s, k);
      ReadyRight(z, l, s, s', k, x, k);
      FactorTidy(z + (l + k), t.factor, s', [x] + k);
      FactorPlaced(t.factor, s', [x] + k);
      FactorEnds(t.factor, s', [x] + k);
      TidyWhole(z, l + k, s', x, k, FactorItems(t.factor, s', [x] + k));
  }

  lemma {:induction false} FactorTidy(z: seq<Elem>, f: Factor, s: nat, k: seq<Elem>)
    requires IsReadyFor(z, s, FACTOR, k)
    ensures IsTidy(z + FactorItems(f, s, k))
    decreases f
  {
    hide IsTidy, Fits, ExprItems, LvalueItems, ArgsItems, RuleAt;
    match f
    case Id(_) => TidyOne(z, Done(35, s));
    case Num(_) => TidyOne(z, Done(36, s));
    case NullValue => TidyOne(z, Done(37, s));
    case Paren(e) =>
      ReadyEmpty(z, s, s + 1, FACTOR, k, EXPR);
      ExprTidy(z, e, s + 1, []);
      ExprEnds(e, s + 1, []);
      TidyTop(z, ExprItems(e, s + 1, []), Done(38, s));
    case NewArray(e) =>
      ReadyEmpty(z, s, s + 3, FACTOR, k, EXPR);
      ExprTidy(z, e, s + 3, []);
      ExprEnds(e, s + 3, []);
      TidyTop(z, ExprItems(e, s + 3, []), Done(41, s));
    case AddressOf(l) =>
      var x := Done(39, s);
      ReadyInside(z, s, s + 1, LVALUE, x, k);
      LvalueTidy(z, l, s + 1, [x] + k);
      LvalueEnds(l, s + 1, [x] + k);
      TidyTop(z, LvalueItems(l, s + 1, [x] + k), x);
    case Deref(g) =>
      var x := Done(40, s);
      ReadyInside(z, s, s + 1, FACTOR, x, k);
      FactorTidy(z, g, s + 1, [x] + k);
      FactorEnds(g, s + 1, [x] + k);
      TidyTop(z, FactorItems(g, s + 1, [x] + k), x);
    case Call(_, args) => CallTidy(z, args, s, k);
  }

  lemma {:induction false} CallTidy(z: seq<Elem>, args: Arglist, s: nat, k: seq<Elem>)
    requires IsReadyFor(z, s, FACTOR, k)
    ensures args.NoArgs? ==> IsTidy(z + ([Done(35, s)] + k + [Done(42, s)]))
    ensures args.Args? ==> IsTidy(z + ([Done(35, s)] + k + ArgsItems(args, s + 2, []) + [Done(43, s)]))
    decreases args, 1
  {
    hide IsTidy, ArgsItems, RuleAt;
    var name := [Done(35, s)];
    TidyOne(z, Done(35, s));
    FitsLonger(z, name, s, FACTOR, k);
    TidyChain(z + name, s, FACTOR, k, |k|);
    assert k[..|k|] == k && (z + name) + k == z + (name + k);
    var z' := z + (name + k);
    if args.NoArgs? {
      TidyOne(z', Done(42, s));
      assert z' + [Done(42, s)] == z + (name + k + [Done(42, s)]);
    } else {
      var y := ArgsItems(args, s + 2, []);
      NothingFits(z', s + 2, ARGLIST);
      ArgsTidy(z', args, s + 2, []);
      ArgsEnd(args, s + 2, []);
      TidyTop(z', y, Done(43, s));
      assert z' + (y + [Done(43, s)]) == z + (name + k + y + [Done(43, s)]);
    }
  }

  lemma {:induction false} ArgsTidy(z: seq<Elem>, args: Arglist, s: nat, k: seq<Elem>)
    requires args.Args? && IsReadyFor(z, s, ARGLIST, k) && Without(k, EXPR) && Without(k, TERM)
    ensures IsTidy(z + ArgsItems(args, s, k))
    decreases args, 0
  {
    hide IsTidy, Fits, ExprItems, ExprYield, RuleAt;
    var e, one := args.expr, Done(44, s);
    var own := [one] + k;
    var l := ExprItems(e, s, own);
    ReadyInside(z, s, s, EXPR, one, k);
    ExprTidy(z, e, s, own);
    ExprEnds(e, s, own);
    if args.rest.NoArgs? {
      TidyTop(z, l, one);
    } else {
      var x, s' := Done(45, s), s + |ExprYield(e)| + 1;
      ExprPlaced(e, s, own);
      ReadyRight(z, l, s, s', own, x, k);
      var y := ArgsItems(args.rest, s', [x] + k);
      ArgsTidy(z + (l + own), args.rest, s', [x] + k);
      ArgsPlaced(args.rest, s', [x] + k);
      ArgsEnd(args.rest, s', [x] + k);
      TidyWhole(z, l + own, s', x, k, y);
      assert l + own + y + [x] == l + [one] + k + y + [x];
    }
  }

  lemma {:induction false} LvalueTidy(z: seq<Elem>, l: Lvalue, s: nat, k: seq<Elem>)
    requires IsReadyFor(z, s, LVALUE, k)
    ensures IsTidy(z + LvalueItems(l, s, k))
    decreases l
  {
    hide IsTidy, Fits, FactorItems, RuleAt;
    match l
    case Var(_) => TidyOne(z, Done(46, s));
    case Target(f) =>
      var x := Done(47, s);
      ReadyInside(z, s, s + 1, FACTOR, x, k);
      FactorTidy(z, f, s + 1, [x] + k);
      FactorEnds(f, s + 1, [x] + k);
      TidyTop(z, FactorItems(f, s + 1, [x] + k), x);
    case Enclosed(inner) =>
      ReadyEmpty(z, s, s + 1, LVALUE, k, LVALUE);
      LvalueTidy(z, inner, s + 1, []);
      LvalueEnds(inner, s + 1, []);
      TidyTop(z, LvalueItems(inner, s + 1, []), Done(48, s));
  }

  lemma TestTidy(t: Test, s: nat)
    ensures IsTidy(TestItems(t, s)) && IsPlaced(TestItems(t, s), s, [], |TestYield(t)|)
  {
    hide IsTidy, Fits, ExprItems, ExprYield, RuleAt;
    var x, s', l := Done(TestRule(t.op), s), s + |ExprYield(t.left)| + 1, ExprItems(t.left, s, []);
    assert IsReadyFor([], s, EXPR, []) && IsReadyFor([], s, TEST, []) by { NoneReady(s); }
    ExprTidy([], t.left, s, []);
    ExprPlaced(t.left, s, []);
    ExprEnds(t.left, s, []);
    ReadyRight([], l, s, s', [], x, []);
    assert [x] + [] == [x] && [] + (l + []) == l;
    var y := ExprItems(t.right, s', [x]);
    ExprTidy(l, t.right, s', [x]);
    ExprPlaced(t.right, s', [x]);
    ExprEnds(t.right, s', [x]);
    assert [] + l == l && [x] + [] == [x];
    TidyWhole([], l, s', x, [], y);
    assert [] + (l + y + [x]) == TestItems(t, s);
  }

  lemma NoneReady(s: nat)
    ensures forall sym :: IsReadyFor([], s, sym, [])
  {
  }
}
