/** The lists of an expression complete exactly its items. */
module ExprLists {
  import opened Symbols
  import opened Grammar
  import opened Earley
  import opened Charts
  import opened Wlp4Grammar
  import opened FinalChart
  import opened Ast
  import opened Yields
  import opened Traces
  import opened Lists
  import opened Openings
  import opened Operands
  import opened Items

  // ----- the text -----

  /** The tokens from s on are y, and there are more. */
  predicate Reads(w: Form, s: nat, y: Form) {
    s + |y| < |w| && w[s..s + |y|] == y
  }

  lemma ReadsBoth(w: Form, s: nat, y: Form, z: Form)
    requires Reads(w, s, y + z)
    ensures Reads(w, s, y) && Reads(w, s + |y|, z)
  {
    assert w[s..s + |y + z|][..|y|] == w[s..s + |y|] && (y + z)[..|y|] == y;
    assert w[s..s + |y + z|][|y|..] == w[s + |y|..s + |y| + |z|] && (y + z)[|y|..] == z;
  }

  lemma ReadsOne(w: Form, s: nat, y: Form, i: nat)
    requires Reads(w, s, y) && i < |y|
    ensures w[s + i] == y[i]
  {
    assert w[s..s + |y|][i] == y[i];
  }

  // ----- where an operand ends -----

  /** What goes on awaits tokens, and no opening parenthesis. */
  ghost predicate Calm(x: Demand) {
    forall e, t :: Pends(x, e) && Wants(e, t) ==> IsTerminal(t) && t != LPAREN
  }

  /** List m holds what goes on, and nothing else wants a token but those at which the operand itself goes on. */
  ghost predicate Ended(c: Chart, m: nat, x: Demand, own: set<Symbol>) {
    && m < |c|
    && (forall e :: Pends(x, e) ==> e in c[m])
    && forall e, t :: e in c[m] && Wants(e, t) && t !in own ==> Pends(x, e)
  }

  lemma NoneIsTidy()
    ensures IsTidy({})
  {
    hide RuleAt;
  }

  /** The token before m completes q's item; xs are moved over it as well. */
  lemma EndOperand(w: Form, c: Chart, m: nat, q: Elem, x: Demand, xs: set<Elem>)
    requires Traced(w, c) && 0 < m < |w| && Wanted(c, m - 1, w[m - 1], {q} + xs)
    requires q.rule != SHORT_TYPE && IsDone(Advance(q)) && q.start < m && Demands(c, q.start, Left(q), x) && Calm(x)
    requires forall p :: p in xs ==> Wants(Advance(p), LPAREN)
    ensures Span(c, m, m + 1) == [Advance(q)] + Chain(x) && Ended(c, m, x, {LPAREN})
    ensures Wanted(c, m, LPAREN, set p | p in xs :: Advance(p))
  {
    hide RuleAt, IsTraced, Demands, Chain, Pends, IsTidy, Span;
    NoneIsTidy();
    Scan(w, c, m - 1, {q} + xs);
    assert LeadsTo(xs, {});
    CloseList(w, c, m, q, x, xs, {});
    OnlyOpen(c, m, x, xs);
  }

  /** In a list of what x waits for and of xs, moved on, only these wait for an opening parenthesis. */
  lemma OnlyOpen(c: Chart, m: nat, x: Demand, xs: set<Elem>)
    requires m < |c| && Calm(x) && forall p :: p in xs ==> Wants(Advance(p), LPAREN) && Advance(p) in c[m]
    requires forall e :: Pends(x, e) ==> e in c[m]
    requires forall e, t :: e in c[m] && Wants(e, t) ==> Pends(x, e) || e in Moved(xs)
    ensures Ended(c, m, x, {LPAREN}) && Wanted(c, m, LPAREN, set p | p in xs :: Advance(p))
  {
    hide RuleAt, Pends;
    var ys := set p | p in xs :: Advance(p);
    forall e | e in c[m] && Wants(e, LPAREN)
      ensures e in ys
    {
      assert !Pends(x, e);
    }
    forall e, t | e in c[m] && Wants(e, t) && t != LPAREN
      ensures Pends(x, e)
    {
      if e in Moved(xs) {
        OneWant(e, t, LPAREN);
      }
    }
  }

  lemma OneWant(e: Elem, t: Symbol, u: Symbol)
    requires Wants(e, t) && Wants(e, u)
    ensures t == u
  {
  }

  lemma LeafRules()
    ensures RuleAt(35) == Rule(FACTOR, [ID]) && RuleAt(36) == Rule(FACTOR, [NUM]) && RuleAt(37) == Rule(FACTOR, [NULL])
  {
  }

  lemma CallRules()
    ensures RuleAt(42) == Rule(FACTOR, [ID, LPAREN, RPAREN])
    ensures RuleAt(43) == Rule(FACTOR, [ID, LPAREN, ARGLIST, RPAREN])
  {
  }

  lemma NestedRules()
    ensures RuleAt(38) == Rule(FACTOR, [LPAREN, EXPR, RPAREN])
    ensures RuleAt(41) == Rule(FACTOR, [NEW, INT, LBRACK, EXPR, RBRACK])
  {
  }

  lemma PointerRules()
    ensures RuleAt(39) == Rule(FACTOR, [AMP, LVALUE]) && RuleAt(40) == Rule(FACTOR, [STAR, FACTOR])
  {
  }

  lemma LvalueRules()
    ensures RuleAt(46) == Rule(LVALUE, [ID]) && RuleAt(47) == Rule(LVALUE, [STAR, FACTOR])
    ensures RuleAt(48) == Rule(LVALUE, [LPAREN, LVALUE, RPAREN])
  {
  }

  lemma SumRules()
    ensures RuleAt(28) == Rule(EXPR, [TERM]) && RuleAt(29) == Rule(EXPR, [EXPR, PLUS, TERM])
    ensures RuleAt(30) == Rule(EXPR, [EXPR, MINUS, TERM])
  {
  }

  lemma ProductRules()
    ensures RuleAt(31) == Rule(TERM, [FACTOR]) && RuleAt(32) == Rule(TERM, [TERM, STAR, FACTOR])
    ensures RuleAt(33) == Rule(TERM, [TERM, SLASH, FACTOR]) && RuleAt(34) == Rule(TERM, [TERM, PCT, FACTOR])
  {
  }

  lemma ArgRules()
    ensures RuleAt(44) == Rule(ARGLIST, [EXPR]) && RuleAt(45) == Rule(ARGLIST, [EXPR, COMMA, ARGLIST])
  {
  }

  /** Where a factor may start, a token that one rule for factors starts with is wanted by that rule alone. */
  lemma FactorToken(c: Chart, s: nat, r: nat)
    requires AtFactor(c, s) && 36 <= r <= 41
    ensures Wanted(c, s, FirstOf(r), {Elem(r, s, 0)})
  {
    hide RuleAt;
    forall e
      ensures e in c[s] && Wants(e, FirstOf(r)) <==> e == Elem(r, s, 0)
    {
      FirstIsWanted(r, s);
      if e.dot == 0 && 35 <= e.rule <= 43 {
        FirstIsWanted(e.rule, e.start);
      }
    }
  }

  lemma FactorName(c: Chart, s: nat)
    requires AtFactor(c, s)
    ensures Wanted(c, s, ID, {Elem(35, s, 0)} + {Elem(42, s, 0), Elem(43, s, 0)})
  {
    hide RuleAt;
    forall e
      ensures e in c[s] && Wants(e, ID) <==> e in {Elem(35, s, 0)} + {Elem(42, s, 0), Elem(43, s, 0)}
    {
      if e.dot == 0 && 35 <= e.rule <= 43 {
        FirstIsWanted(e.rule, e.start);
      }
    }
  }

  lemma LvalueToken(c: Chart, s: nat, r: nat)
    requires AtLvalue(c, s) && 46 <= r <= 48
    ensures Wanted(c, s, FirstOf(r), {Elem(r, s, 0)})
  {
    hide RuleAt;
    forall e
      ensures e in c[s] && Wants(e, FirstOf(r)) <==> e == Elem(r, s, 0)
    {
      FirstIsWanted(r, s);
      if e.dot == 0 && 46 <= e.rule <= 48 {
        FirstIsWanted(e.rule, e.start);
      }
    }
  }

  // ----- what the lists of a tree complete -----

  /** The lists of a tree of n tokens that starts at s hold its items and what its last token completes after it. */
  ghost predicate Listed(c: Chart, s: nat, n: nat, items: seq<Elem>, x: Demand, own: set<Symbol>) {
    && s + n + 1 < |c|
    && Span(c, s + 1, s + n + 1) == items + Chain(x)
    && Ended(c, s + n, x, own)
  }

  /** A number, NULL, or a name. */
  lemma LeafLists(w: Form, c: Chart, s: nat, r: nat, x: Demand)
    requires Traced(w, c) && s + 1 < |w| && AtFactor(c, s) && Demands(c, s, FACTOR, x) && Calm(x)
    requires 35 <= r <= 37 && w[s] == FirstOf(r)
    ensures Listed(c, s, 1, [Done(r, s)], x, {LPAREN})
    ensures r == 35 ==> Wanted(c, s + 1, LPAREN, {Elem(42, s, 1), Elem(43, s, 1)})
  {
    hide RuleAt, IsTraced, Demands, Calm, Chain, Pends, IsSilent, Ended, AtFactor;
    LeafRules();
    CallRules();
    var q, xs := Elem(r, s, 0), if r == 35 then {Elem(42, s, 0), Elem(43, s, 0)} else {};
    if r == 35 {
      FactorName(c, s);
    } else {
      FactorToken(c, s, r);
      assert {q} + xs == {q};
    }
    EndOperand(w, c, s + 1, q, x, xs);
    assert (set p | p in xs :: Advance(p)) == (if r == 35 then {Elem(42, s, 1), Elem(43, s, 1)} else {});
  }

  // ----- one waits, the rest follows -----

  /** Of what goes on, only e0 awaits t. */
  ghost predicate OnlyPending(x: Demand, t: Symbol, e0: Elem) {
    forall e :: Pends(x, e) && Wants(e, t) <==> e == e0
  }

  /** Of what goes on, nothing awaits t. */
  ghost predicate NonePending(x: Demand, t: Symbol) {
    forall e :: Pends(x, e) ==> !Wants(e, t)
  }

  /** What waits for a term at s goes on as products do, and otherwise not by their operators. */
  ghost predicate InProducts(x: Demand, s: nat) {
    OnlyPending(x, STAR, Elem(32, s, 1)) && OnlyPending(x, SLASH, Elem(33, s, 1)) && OnlyPending(x, PCT, Elem(34, s, 1))
  }

  /** What waits for an expression at s goes on as sums do, and otherwise not by operators. */
  ghost predicate InSums(x: Demand, s: nat) {
    && OnlyPending(x, PLUS, Elem(29, s, 1))
    && OnlyPending(x, MINUS, Elem(30, s, 1))
    && NonePending(x, STAR)
    && NonePending(x, SLASH)
    && NonePending(x, PCT)
  }

  lemma EndedWants(c: Chart, m: nat, x: Demand, own: set<Symbol>, t: Symbol, e0: Elem)
    requires Ended(c, m, x, own) && t !in own && OnlyPending(x, t, e0)
    ensures Wanted(c, m, t, {e0})
  {
    hide RuleAt, Pends;
  }

  /** A tree, one token, and a tree that ends the whole. */
  lemma ListedBoth(c: Chart, s: nat, n: nat, items: seq<Elem>, x: Demand, own: set<Symbol>, n': nat, items': seq<Elem>,
                   y: Demand,
                   own': set<Symbol>, whole: seq<Elem>, z: Demand, all: set<Symbol>)
    requires Listed(c, s, n, items, x, own) && Listed(c, s + n + 1, n', items', y, own') && IsSilent(c, s + n + 1)
    requires whole + Chain(z) == items + Chain(x) + items' + Chain(y)
    requires forall m :: Ended(c, m, y, own') ==> Ended(c, m, z, all)
    ensures Listed(c, s, n + n' + 1, whole, z, all)
  {
    hide Span, Ended, Chain;
    var s' := s + n + 1;
    SpanSplit(c, s + 1, s', s' + 1);
    SpanSplit(c, s + 1, s' + 1, s' + n' + 1);
    assert Span(c, s + 1, s' + 1) == items + Chain(x) + [] == items + Chain(x);
    assert items + Chain(x) + (items' + Chain(y)) == items + Chain(x) + items' + Chain(y);
  }

  // ----- terms -----

  function OperatorOf(r: nat): Symbol {
    if r == 29 then PLUS else if r == 30 then MINUS else if r == 32 then STAR else if r == 33 then SLASH else PCT
  }

  lemma OperatorRules(r: nat)
    requires r == 29 || r == 30 || 32 <= r <= 34
    ensures var a := if r <= 30 then EXPR else TERM;
            RuleAt(r) == Rule(a, [a, OperatorOf(r), if r <= 30 then TERM else FACTOR])
  {
    if r <= 30 {
      SumRules();
    } else {
      ProductRules();
    }
  }

  /** After an operator the right operand is awaited, and completes the whole. */
  lemma OperatorOpens(w: Form, c: Chart, m: nat, r: nat, s: nat)
    requires Traced(w, c) && s <= m && m + 1 < |w| && (r == 29 || r == 30 || 32 <= r <= 34)
    requires w[m] == OperatorOf(r) && Wanted(c, m, w[m], {Elem(r, s, 1)})
    ensures Starts(c, m + 1, {Elem(r, s, 1)}, if r <= 30 then TERM else FACTOR) && IsSilent(c, m + 1)
    ensures IsDone(Advance(Elem(r, s, 2))) && RuleAt(r).lhs == (if r <= 30 then EXPR else TERM)
  {
    hide RuleAt, IsTraced, Starts, Wanted, IsSilent;
    OperatorRules(r);
    var q := Elem(r, s, 1);
    assert Advance(q) == Elem(r, s, 2);
    assert {q} == {q} + {};
    Scan(w, c, m, {q});
    assert q in {q} && Wants(Advance(q), if r <= 30 then TERM else FACTOR);
    Start(w, c, m + 1, {q}, if r <= 30 then TERM else FACTOR);
  }

  ghost predicate AtTermStart(c: Chart, s: nat) {
    AtFactor(c, s) && Wanted(c, s, FACTOR, {Elem(31, s, 0)})
  }

  /** The demand for a factor at s, of which q is the rest, where x waits for what q is for. */
  lemma OneDemand(c: Chart, s: nat, a: Symbol, q: Elem, x: Demand)
    requires Wanted(c, s, a, {q}) && q.rule < 49 && IsDone(Advance(q)) && q.start <= s &&
             Demands(c, q.start, Left(q), x)
    ensures var y := Closing(q, {}, x);
            Demands(c, s, a, y) && Chain(y) == [Advance(q)] + Chain(x) && forall e :: Pends(y, e) <==> Pends(x, e)
  {
    hide RuleAt, Wants;
  }

  lemma SamePending(x: Demand, y: Demand)
    requires forall e :: Pends(y, e) <==> Pends(x, e)
    ensures Calm(y) <==> Calm(x)
    ensures forall c, m, own :: Ended(c, m, y, own) <==> Ended(c, m, x, own)
  {
    hide RuleAt, Pends, Wants;
  }

  /** After a term and an operator, a factor may start. */
  lemma FactorAfter(w: Form, c: Chart, m: nat, r: nat, s: nat, x: Demand) returns (y: Demand)
    requires Traced(w, c) && s <= m && m + 1 < |w| && 32 <= r <= 34 && w[m] == OperatorOf(r)
    requires Demands(c, s, TERM, x) && Calm(x) && InProducts(x, s) && Ended(c, m, x, {LPAREN})
    ensures AtFactor(c, m + 1) && Demands(c, m + 1, FACTOR, y) && Calm(y) && IsSilent(c, m + 1)
    ensures Chain(y) == [Done(r, s)] + Chain(x) && forall e :: Pends(y, e) <==> Pends(x, e)
  {
    hide RuleAt, IsTraced, Demands, Calm, Chain, Pends, IsSilent, Ended, AtFactor, Starts;
    EndedWants(c, m, x, {LPAREN}, OperatorOf(r), Elem(r, s, 1));
    OperatorOpens(w, c, m, r, s);
    StartsFactor(c, m + 1, {Elem(r, s, 1)}, FACTOR);
    OperatorRules(r);
    var q := Elem(r, s, 2);
    assert q == Advance(Elem(r, s, 1)) && Wants(q, FACTOR);
    OneIsWanted(c, m + 1, {Elem(r, s, 1)}, FACTOR, Elem(r, s, 1));
    OneDemand(c, m + 1, FACTOR, q, x);
    y := Closing(q, {}, x);
    SamePending(x, y);
  }

  /** Where a term starts, its first factor is awaited. */
  lemma FactorFirst(c: Chart, s: nat, x: Demand) returns (y: Demand)
    requires AtTermStart(c, s) && Demands(c, s, TERM, x) && Calm(x)
    ensures Demands(c, s, FACTOR, y) && Calm(y)
    ensures Chain(y) == [Done(31, s)] + Chain(x) && forall e :: Pends(y, e) <==> Pends(x, e)
  {
    hide RuleAt, Demands, Calm, Chain, Pends, AtFactor;
    var q := Elem(31, s, 0);
    ProductRules();
    OneDemand(c, s, FACTOR, q, x);
    y := Closing(q, {}, x);
    SamePending(x, y);
  }

  lemma ReadsSum(w: Form, s: nat, y: Form, op: Symbol, z: Form)
    requires Reads(w, s, y + [op] + z)
    ensures var m := s + |y|; Reads(w, s, y) && m + 1 < |w| && w[m] == op && Reads(w, m + 1, z)
  {
    ReadsBoth(w, s, y + [op], z);
    ReadsBoth(w, s, y, [op]);
    ReadsOne(w, s + |y|, [op], 0);
  }

  lemma {:induction false} TermLists(w: Form, c: Chart, t: Term, s: nat, x: Demand)
    requires Traced(w, c) && Reads(w, s, TermYield(t)) && AtTermStart(c, s)
    requires Demands(c, s, TERM, x) && Calm(x) && InProducts(x, s)
    ensures Listed(c, s, |TermYield(t)|, TermItems(t, s, Chain(x)), x, {LPAREN})
    decreases t, 0
  {
    hide RuleAt, IsTraced, Demands, Calm, Chain, Pends, IsSilent, Ended, AtFactor, FactorYield, FactorItems, InProducts,
         Reads, TermItems;
    match t
    case JustFactor(f) =>
      var y := FactorFirst(c, s, x);
      FactorLists(w, c, f, s, y);
      TermIsFactor(c, t, s, x, y);
    case _ =>
      var f, r, left := t.factor, TermRule(t), TermYield(t.left);
      var m := s + |left|;
      assert TermYield(t) == left + [OperatorOf(r)] + FactorYield(f);
      ReadsSum(w, s, left, OperatorOf(r), FactorYield(f));
      TermLists(w, c, t.left, s, x);
      var y := FactorAfter(w, c, m, r, s, x);
      FactorLists(w, c, f, m + 1, y);
      TermIsJoined(c, t, s, x, y);
  }

  lemma TermIsFactor(c: Chart, t: Term, s: nat, x: Demand, y: Demand)
    requires t.JustFactor? && Listed(c, s, |FactorYield(t.factor)|, FactorItems(t.factor, s, Chain(y)), y, {LPAREN})
    requires Chain(y) == [Done(31, s)] + Chain(x) && forall e :: Pends(y, e) <==> Pends(x, e)
    ensures Listed(c, s, |TermYield(t)|, TermItems(t, s, Chain(x)), x, {LPAREN})
  {
    hide RuleAt, Chain, Pends, Span, Ended, FactorYield, FactorItems;
    SamePending(x, y);
    assert FactorItems(t.factor, s, Chain(y)) + Chain(y) == TermItems(t, s, Chain(x)) + Chain(x);
  }

  lemma TermIsJoined(c: Chart, t: Term, s: nat, x: Demand, y: Demand)
    requires !t.JustFactor? && Listed(c, s, |TermYield(t.left)|, TermItems(t.left, s, Chain(x)), x, {LPAREN})
    requires var m := s + |TermYield(t.left)|;
             IsSilent(c, m + 1) &&
               Listed(c, m + 1, |FactorYield(t.factor)|, FactorItems(t.factor, m + 1, Chain(y)), y, {LPAREN})
    requires Chain(y) == [Done(TermRule(t), s)] + Chain(x) && forall e :: Pends(y, e) <==> Pends(x, e)
    ensures Listed(c, s, |TermYield(t)|, TermItems(t, s, Chain(x)), x, {LPAREN})
  {
    hide RuleAt, Chain, Pends, Ended, FactorYield, FactorItems, TermItems, IsSilent, Listed, Done;
    var f, n := t.factor, |TermYield(t.left)|;
    var m := s + n;
    SamePending(x, y);
    TermItemsSum(t, s, Chain(x));
    ListedBoth(c, s, n, TermItems(t.left, s, Chain(x)), x, {LPAREN}, |FactorYield(f)|, FactorItems(f, m + 1, Chain(y)),
               y, {LPAREN},
               TermItems(t, s, Chain(x)), x, {LPAREN});
    assert |TermYield(t)| == n + |FactorYield(f)| + 1;
  }

  lemma TermItemsSum(t: Term, s: nat, k: seq<Elem>)
    requires !t.JustFactor?
    ensures var top := Done(TermRule(t), s); var items := FactorItems(t.factor, s + |TermYield(t.left)| + 1, [top] + k);
            TermItems(t, s, k) + k == TermItems(t.left, s, k) + k + items + ([top] + k)
  {
    hide FactorItems, TermYield;
    var top := [Done(TermRule(t), s)];
    var items := FactorItems(t.factor, s + |TermYield(t.left)| + 1, top + k);
    assert TermItems(t, s, k) == TermItems(t.left, s, k) + k + items + top;
    hide TermItems;
  }

  // ----- sums -----

  /** Where a term starts that completes an expression, what waits for it. */
  lemma TermDemand(c: Chart, p: nat, q: Elem, x: Demand) returns (y: Demand)
    requires AtTerm(c, p, q) && q.rule < 49 && IsDone(Advance(q)) && q.start <= p && Left(q) == EXPR
    requires Demands(c, q.start, EXPR, x) && Calm(x) && InSums(x, q.start)
    ensures AtTermStart(c, p) && Demands(c, p, TERM, y) && Calm(y) && InProducts(y, p)
    ensures Chain(y) == [Advance(q)] + Chain(x)
    ensures forall m :: Ended(c, m, y, {LPAREN}) ==> Ended(c, m, x, AFTER_EXPR)
  {
    hide RuleAt, AtFactor;
    ProductRules();
    y := Closing(q, Products(p), x);
  }

  const AFTER_EXPR: set<Symbol> := {LPAREN, STAR, SLASH, PCT}

  lemma {:induction false} ExprIsListed(w: Form, c: Chart, e: Expr, s: nat, x: Demand)
    requires Traced(w, c) && Reads(w, s, ExprYield(e)) && AtExpr(c, s)
    requires Demands(c, s, EXPR, x) && Calm(x) && InSums(x, s)
    ensures Listed(c, s, |ExprYield(e)|, ExprItems(e, s, Chain(x)), x, AFTER_EXPR)
    decreases e, 0
  {
    hide RuleAt, IsTraced, Demands, Calm, Chain, Pends, IsSilent, Ended, AtTerm, AtTermStart, TermYield, TermItems,
         InSums, InProducts, Reads, ExprItems;
    match e
    case JustTerm(t) =>
      SumRules();
      var y := TermDemand(c, s, Elem(28, s, 0), x);
      TermLists(w, c, t, s, y);
      ExprIsTerm(c, e, s, x, y);
    case _ =>
      var t, r, left := e.term, ExprRule(e), ExprYield(e.left);
      var m := s + |left|;
      assert ExprYield(e) == left + [OperatorOf(r)] + TermYield(t);
      ReadsSum(w, s, left, OperatorOf(r), TermYield(t));
      ExprIsListed(w, c, e.left, s, x);
      var y := TermAfter(w, c, m, r, s, x);
      TermLists(w, c, t, m + 1, y);
      ExprIsJoined(c, e, s, x, y);
  }

  /** After an expression and an operator, a term may start. */
  lemma TermAfter(w: Form, c: Chart, m: nat, r: nat, s: nat, x: Demand) returns (y: Demand)
    requires Traced(w, c) && s <= m && m + 1 < |w| && 29 <= r <= 30 && w[m] == OperatorOf(r)
    requires Demands(c, s, EXPR, x) && Calm(x) && InSums(x, s) && Ended(c, m, x, AFTER_EXPR)
    ensures IsSilent(c, m + 1) && AtTermStart(c, m + 1) && Demands(c, m + 1, TERM, y) && Calm(y) && InProducts(y, m + 1)
    ensures Chain(y) == [Done(r, s)] + Chain(x)
    ensures forall m :: Ended(c, m, y, {LPAREN}) ==> Ended(c, m, x, AFTER_EXPR)
  {
    hide RuleAt, IsTraced, Demands, Calm, Chain, Pends, IsSilent, Ended, AtTermStart, Starts, AtTerm;
    EndedWants(c, m, x, AFTER_EXPR, OperatorOf(r), Elem(r, s, 1));
    OperatorOpens(w, c, m, r, s);
    StartsTerm(c, m + 1, Elem(r, s, 1));
    OperatorRules(r);
    assert Advance(Elem(r, s, 1)) == Elem(r, s, 2);
    y := TermDemand(c, m + 1, Elem(r, s, 2), x);
  }

  lemma ExprIsTerm(c: Chart, e: Expr, s: nat, x: Demand, y: Demand)
    requires e.JustTerm? && Listed(c, s, |TermYield(e.term)|, TermItems(e.term, s, Chain(y)), y, {LPAREN})
    requires Chain(y) == [Done(28, s)] + Chain(x) && forall m :: Ended(c, m, y, {LPAREN}) ==> Ended(c, m, x, AFTER_EXPR)
    ensures Listed(c, s, |ExprYield(e)|, ExprItems(e, s, Chain(x)), x, AFTER_EXPR)
  {
    hide RuleAt, Chain, Pends, Span, Ended, TermYield, TermItems;
    assert TermItems(e.term, s, Chain(y)) + Chain(y) == ExprItems(e, s, Chain(x)) + Chain(x);
  }

  lemma ExprIsJoined(c: Chart, e: Expr, s: nat, x: Demand, y: Demand)
    requires !e.JustTerm? && Listed(c, s, |ExprYield(e.left)|, ExprItems(e.left, s, Chain(x)), x, AFTER_EXPR)
    requires var m := s + |ExprYield(e.left)|;
             IsSilent(c, m + 1) &&
               Listed(c, m + 1, |TermYield(e.term)|, TermItems(e.term, m + 1, Chain(y)), y, {LPAREN})
    requires Chain(y) == [Done(ExprRule(e), s)] + Chain(x) &&
             forall m :: Ended(c, m, y, {LPAREN}) ==> Ended(c, m, x, AFTER_EXPR)
    ensures Listed(c, s, |ExprYield(e)|, ExprItems(e, s, Chain(x)), x, AFTER_EXPR)
  {
    hide RuleAt, Chain, Pends, Ended, TermYield, TermItems, ExprItems, IsSilent, Listed, Done;
    var t, n := e.term, |ExprYield(e.left)|;
    var m := s + n;
    ExprItemsSum(e, s, Chain(x));
    ListedBoth(c, s, n, ExprItems(e.left, s, Chain(x)), x, AFTER_EXPR, |TermYield(t)|, TermItems(t, m + 1, Chain(y)), y,
               {LPAREN},
               ExprItems(e, s, Chain(x)), x, AFTER_EXPR);
    assert |ExprYield(e)| == n + |TermYield(t)| + 1;
  }

  lemma ExprItemsSum(e: Expr, s: nat, k: seq<Elem>)
    requires !e.JustTerm?
    ensures var top := Done(ExprRule(e), s); var items := TermItems(e.term, s + |ExprYield(e.left)| + 1, [top] + k);
            ExprItems(e, s, k) + k == ExprItems(e.left, s, k) + k + items + ([top] + k)
  {
    hide TermItems, ExprYield;
    var top := [Done(ExprRule(e), s)];
    var items := TermItems(e.term, s + |ExprYield(e.left)| + 1, top + k);
    assert ExprItems(e, s, k) == ExprItems(e.left, s, k) + k + items + top;
    hide *;
    EndJoins(ExprItems(e.left, s, k) + k + items, top, k);
  }

  lemma EndJoins(xs: seq<Elem>, top: seq<Elem>, k: seq<Elem>)
    ensures xs + top + k == xs + (top + k)
  {
  }

  // ----- nested expressions -----

  /** The token before m is q's, and is followed by another one in q's rule. */
  lemma TokenOpens(w: Form, c: Chart, m: nat, q: Elem, t: Symbol)
    requires Traced(w, c) && 0 < m < |w| && Wanted(c, m - 1, w[m - 1], {q}) && Wants(Advance(q), t) && IsTerminal(t)
    ensures IsSilent(c, m) && Wanted(c, m, t, {Advance(q)})
  {
    hide RuleAt, IsTraced, IsTidy, IsSilent;
    NoneIsTidy();
    Scan(w, c, m - 1, {q});
    assert q in {q};
    OpenList(w, c, m, {q}, {});
    forall e | e in c[m] && Wants(e, t)
      ensures e == Advance(q)
    {
      assert Advance(Retreat(e)) == e;
    }
  }

  /** The token before m is q's, and is followed by an expression and then another token. */
  lemma ExprOpens(w: Form, c: Chart, m: nat, q: Elem, t: Symbol) returns (x: Demand)
    requires Traced(w, c) && 0 < m < |w| && Wanted(c, m - 1, w[m - 1], {q}) && Wants(Advance(q), EXPR)
    requires Wants(Advance(Advance(q)), t) && IsTerminal(t) && t !in AFTER_EXPR && t != PLUS && t != MINUS
    ensures IsSilent(c, m) && AtExpr(c, m) && Demands(c, m, EXPR, x) && Calm(x) && InSums(x, m) && Chain(x) == []
    ensures OnlyPending(x, t, Advance(Advance(q)))
  {
    hide RuleAt, IsTraced, IsSilent, AtTerm, Demands, Calm, InSums, OnlyPending, Chain;
    Scan(w, c, m - 1, {q});
    assert q in {q};
    Start(w, c, m, {q}, EXPR);
    StartsExpr(c, m, {q}, EXPR);
    ExprIsWanted(c, m, q);
    hide Starts;
    x := OpenExpr(c, m, Advance(q), t);
  }

  /** What waits for an expression that a token t follows. */
  lemma OpenExpr(c: Chart, m: nat, q: Elem, t: Symbol) returns (x: Demand)
    requires Wanted(c, m, EXPR, {q} + Sums(m)) && Wants(q, EXPR)
    requires Wants(Advance(q), t) && IsTerminal(t) && t !in AFTER_EXPR && t != PLUS && t != MINUS
    ensures Demands(c, m, EXPR, x) && Calm(x) && InSums(x, m) && Chain(x) == []
    ensures OnlyPending(x, t, Advance(q))
  {
    hide RuleAt;
    SumRules();
    x := Open({q} + Sums(m));
    assert x.others == {q, Elem(29, m, 0), Elem(30, m, 0)};
    assert forall e :: Pends(x, e) ==> e == Advance(q) || e == Elem(29, m, 1) || e == Elem(30, m, 1) by {
      forall e | Pends(x, e)
        ensures e == Advance(q) || e == Elem(29, m, 1) || e == Elem(30, m, 1)
      {
        assert Advance(Retreat(e)) == e;
      }
    }
  }

  /** The same token silently up to m, a tree inside, and one more token that completes item d. */
  lemma ListedInside(c: Chart, s: nat, a: nat, n: nat, items: seq<Elem>, y: Demand, own: set<Symbol>, x: Demand,
                     d: Elem)
    requires s <= a && Listed(c, a, n, items, y, own) && Span(c, s + 1, a + 1) == [] && Chain(y) == []
    requires a + n + 2 < |c| && Span(c, a + n + 1, a + n + 2) == [d] + Chain(x) && Ended(c, a + n + 1, x, {LPAREN})
    ensures Listed(c, s, a - s + n + 1, items + [d], x, {LPAREN})
  {
    hide Span, Ended, Chain;
    SpanSplit(c, s + 1, a + 1, a + n + 1);
    SpanSplit(c, s + 1, a + n + 1, a + n + 2);
    assert Span(c, s + 1, a + n + 1) == [] + (items + []) == items;
    assert items + ([d] + Chain(x)) == items + [d] + Chain(x);
  }

  lemma {:induction false} ParenLists(w: Form, c: Chart, e: Expr, s: nat, x: Demand)
    requires Traced(w, c) && Reads(w, s, FactorYield(Paren(e))) && AtFactor(c, s) && Demands(c, s, FACTOR, x) && Calm(x)
    ensures Listed(c, s, |FactorYield(Paren(e))|, FactorItems(Paren(e), s, Chain(x)), x, {LPAREN})
    decreases e, 1
  {
    hide RuleAt, IsTraced, Demands, Calm, Chain, Pends, IsSilent, Ended, AtTerm, ExprYield, ExprItems, InSums, Reads,
         AtFactor, OnlyPending;
    NestedRules();
    ReadsWrapped(w, s, [LPAREN], ExprYield(e), [RPAREN]);
    var q, m := Elem(38, s, 0), s + 1 + |ExprYield(e)|;
    FactorToken(c, s, 38);
    var y := ExprOpens(w, c, s + 1, q, RPAREN);
    ExprIsListed(w, c, e, s + 1, y);
    EndedWants(c, m, y, AFTER_EXPR, RPAREN, Elem(38, s, 2));
    assert {Elem(38, s, 2)} == {Elem(38, s, 2)} + {};
    EndOperand(w, c, m + 1, Elem(38, s, 2), x, {});
    assert IsSilent(c, s + 1);
    SilentSpan(c, s + 1);
    ListedInside(c, s, s + 1, |ExprYield(e)|, ExprItems(e, s + 1, []), y, AFTER_EXPR, x, Done(38, s));
  }

  lemma SilentSpan(c: Chart, m: nat)
    requires IsSilent(c, m)
    ensures m + 1 < |c| && Span(c, m, m + 1) == []
  {
  }

  lemma ReadsWrapped(w: Form, s: nat, pre: Form, y: Form, post: Form)
    requires Reads(w, s, pre + y + post)
    ensures Reads(w, s, pre) && Reads(w, s + |pre|, y) && Reads(w, s + |pre| + |y|, post)
    ensures pre != [] ==> w[s] == pre[0]
    ensures post != [] ==> w[s + |pre| + |y|] == post[0]
  {
    ReadsBoth(w, s, pre + y, post);
    ReadsBoth(w, s, pre, y);
    if pre != [] {
      ReadsOne(w, s, pre, 0);
    }
    if post != [] {
      ReadsOne(w, s + |pre + y|, post, 0);
    }
  }

  lemma {:induction false} NewLists(w: Form, c: Chart, e: Expr, s: nat, x: Demand)
    requires Traced(w, c) && Reads(w, s, FactorYield(NewArray(e))) && AtFactor(c, s) && Demands(c, s, FACTOR, x) &&
             Calm(x)
    ensures Listed(c, s, |FactorYield(NewArray(e))|, FactorItems(NewArray(e), s, Chain(x)), x, {LPAREN})
    decreases e, 1
  {
    hide RuleAt, IsTraced, Demands, Calm, Chain, Pends, IsSilent, Ended, AtTerm, ExprYield, ExprItems, InSums, Reads,
         AtFactor, OnlyPending;
    NestedRules();
    ReadsWrapped(w, s, [NEW, INT, LBRACK], ExprYield(e), [RBRACK]);
    ReadsOne(w, s, [NEW, INT, LBRACK], 1);
    ReadsOne(w, s, [NEW, INT, LBRACK], 2);
    var m := s + 3 + |ExprYield(e)|;
    FactorToken(c, s, 41);
    TokenOpens(w, c, s + 1, Elem(41, s, 0), INT);
    TokenOpens(w, c, s + 2, Elem(41, s, 1), LBRACK);
    var y := ExprOpens(w, c, s + 3, Elem(41, s, 2), RBRACK);
    ExprIsListed(w, c, e, s + 3, y);
    EndedWants(c, m, y, AFTER_EXPR, RBRACK, Elem(41, s, 4));
    assert {Elem(41, s, 4)} == {Elem(41, s, 4)} + {};
    EndOperand(w, c, m + 1, Elem(41, s, 4), x, {});
    ThreeSilent(c, s + 1);
    ListedInside(c, s, s + 3, |ExprYield(e)|, ExprItems(e, s + 3, []), y, AFTER_EXPR, x, Done(41, s));
  }

  lemma ThreeSilent(c: Chart, m: nat)
    requires IsSilent(c, m) && IsSilent(c, m + 1) && IsSilent(c, m + 2)
    ensures Span(c, m, m + 3) == []
  {
    SpanSplit(c, m, m + 1, m + 2);
    SpanSplit(c, m, m + 2, m + 3);
  }

  /** The token before m is q's, and a factor ends q's rule. */
  lemma FactorOpens(w: Form, c: Chart, m: nat, q: Elem, x: Demand) returns (y: Demand)
    requires Traced(w, c) && 0 < m < |w| && Wanted(c, m - 1, w[m - 1], {q}) && Wants(Advance(q), FACTOR)
    requires IsDone(Advance(Advance(q))) && q.start <= m && Demands(c, q.start, Left(q), x) && Calm(x)
    ensures IsSilent(c, m) && AtFactor(c, m) && Demands(c, m, FACTOR, y) && Calm(y)
    ensures Chain(y) == [Advance(Advance(q))] + Chain(x) && forall e :: Pends(y, e) <==> Pends(x, e)
  {
    hide RuleAt, IsTraced, IsSilent, AtFactor, Starts, Demands, Chain, Pends, Calm;
    Scan(w, c, m - 1, {q});
    assert q in {q};
    Start(w, c, m, {q}, FACTOR);
    StartsFactor(c, m, {q}, FACTOR);
    OneIsWanted(c, m, {q}, FACTOR, q);
    OneDemand(c, m, FACTOR, Advance(q), x);
    y := Closing(Advance(q), {}, x);
    SamePending(x, y);
  }

  /** The token before m is q's, and an lvalue comes next. */
  lemma LvalueOpens(w: Form, c: Chart, m: nat, q: Elem)
    requires Traced(w, c) && 0 < m < |w| && Wanted(c, m - 1, w[m - 1], {q}) && Wants(Advance(q), LVALUE)
    ensures IsSilent(c, m) && AtLvalue(c, m) && Wanted(c, m, LVALUE, {Advance(q)})
  {
    hide RuleAt, IsTraced, IsSilent, AtLvalue, Starts;
    Scan(w, c, m - 1, {q});
    assert q in {q};
    Start(w, c, m, {q}, LVALUE);
    StartsLvalue(c, m, {q});
    OneIsWanted(c, m, {q}, LVALUE, q);
  }

  /** One token before a tree that ends the whole. */
  lemma ListedAfterToken(c: Chart, s: nat, n: nat, items: seq<Elem>, y: Demand, d: Elem, x: Demand)
    requires Listed(c, s + 1, n, items, y, {LPAREN}) && IsSilent(c, s + 1)
    requires Chain(y) == [d] + Chain(x) && forall e :: Pends(y, e) <==> Pends(x, e)
    ensures Listed(c, s, n + 1, items + [d], x, {LPAREN})
  {
    hide Span, Ended, Chain, Pends;
    SamePending(x, y);
    SpanSplit(c, s + 1, s + 2, s + n + 2);
    assert [] + (items + ([d] + Chain(x))) == items + [d] + Chain(x);
  }

  lemma AddressShape(l: Lvalue, s: nat, k: seq<Elem>)
    ensures FactorYield(AddressOf(l)) == [AMP] + LvalueYield(l) + []
    ensures FactorItems(AddressOf(l), s, k) == LvalueItems(l, s + 1, [Done(39, s)] + k) + [Done(39, s)]
  {
  }

  lemma DerefShape(f: Factor, s: nat, k: seq<Elem>)
    ensures FactorYield(Deref(f)) == [STAR] + FactorYield(f) + []
    ensures FactorItems(Deref(f), s, k) == FactorItems(f, s + 1, [Done(40, s)] + k) + [Done(40, s)]
  {
  }

  lemma TargetShape(f: Factor, s: nat, k: seq<Elem>)
    ensures LvalueYield(Target(f)) == [STAR] + FactorYield(f) + []
    ensures LvalueItems(Target(f), s, k) == FactorItems(f, s + 1, [Done(47, s)] + k) + [Done(47, s)]
  {
  }

  lemma EnclosedShape(l: Lvalue, s: nat, k: seq<Elem>)
    ensures LvalueYield(Enclosed(l)) == [LPAREN] + LvalueYield(l) + [RPAREN]
    ensures LvalueItems(Enclosed(l), s, k) == LvalueItems(l, s + 1, []) + [Done(48, s)]
  {
  }

  lemma {:induction false} DerefLists(w: Form, c: Chart, f: Factor, s: nat, x: Demand)
    requires Traced(w, c) && Reads(w, s, FactorYield(Deref(f))) && AtFactor(c, s) && Demands(c, s, FACTOR, x) && Calm(x)
    ensures Listed(c, s, |FactorYield(Deref(f))|, FactorItems(Deref(f), s, Chain(x)), x, {LPAREN})
    decreases f, 1
  {
    var y := FactorYield(f);
    DerefShape(f, s, Chain(x));
    hide RuleAt, IsTraced, Demands, Calm, Chain, Pends, IsSilent, Ended, FactorYield, FactorItems, Reads, AtFactor,
         Listed;
    PointerRules();
    ReadsWrapped(w, s, [STAR], y, []);
    FactorToken(c, s, 40);
    var z := FactorOpens(w, c, s + 1, Elem(40, s, 0), x);
    FactorLists(w, c, f, s + 1, z);
    ListedAfterToken(c, s, |y|, FactorItems(f, s + 1, Chain(z)), z, Done(40, s), x);
  }

  lemma {:induction false} AddressLists(w: Form, c: Chart, l: Lvalue, s: nat, x: Demand)
    requires Traced(w, c) && Reads(w, s, FactorYield(AddressOf(l))) && AtFactor(c, s) && Demands(c, s, FACTOR, x) &&
             Calm(x)
    ensures Listed(c, s, |FactorYield(AddressOf(l))|, FactorItems(AddressOf(l), s, Chain(x)), x, {LPAREN})
    decreases l, 1
  {
    var y := LvalueYield(l);
    AddressShape(l, s, Chain(x));
    hide RuleAt, Traced, Demands, Calm, Chain, Pends, IsSilent, Ended, FactorYield, FactorItems, LvalueYield, Reads,
         AtFactor, Listed, AtLvalue, LvalueItems;
    PointerRules();
    ReadsWrapped(w, s, [AMP], y, []);
    FactorToken(c, s, 39);
    LvalueOpens(w, c, s + 1, Elem(39, s, 0));
    OneDemand(c, s + 1, LVALUE, Elem(39, s, 1), x);
    var z := Closing(Elem(39, s, 1), {}, x);
    SamePending(x, z);
    LvalueIsListed(w, c, l, s + 1, z);
    ListedAfterToken(c, s, |y|, LvalueItems(l, s + 1, Chain(z)), z, Done(39, s), x);
  }

  // ----- lvalues -----

  lemma {:induction false} LvalueIsListed(w: Form, c: Chart, l: Lvalue, s: nat, x: Demand)
    requires Traced(w, c) && Reads(w, s, LvalueYield(l)) && AtLvalue(c, s) && Demands(c, s, LVALUE, x) && Calm(x)
    ensures Listed(c, s, |LvalueYield(l)|, LvalueItems(l, s, Chain(x)), x, {LPAREN})
    decreases l, 0
  {
    match l
    case Var(_) => VarLists(w, c, l, s, x);
    case Target(f) => TargetLists(w, c, f, s, x);
    case Enclosed(inner) => EnclosedLists(w, c, inner, s, x);
  }

  lemma VarLists(w: Form, c: Chart, l: Lvalue, s: nat, x: Demand)
    requires l.Var? && Traced(w, c) && Reads(w, s, LvalueYield(l)) && AtLvalue(c, s) && Demands(c, s, LVALUE, x) &&
             Calm(x)
    ensures Listed(c, s, |LvalueYield(l)|, LvalueItems(l, s, Chain(x)), x, {LPAREN})
  {
    hide RuleAt, IsTraced, Demands, Calm, Chain, Pends, Ended, AtLvalue, Span;
    LvalueRules();
    ReadsOne(w, s, [ID], 0);
    LvalueToken(c, s, 46);
    assert {Elem(46, s, 0)} + {} == {Elem(46, s, 0)};
    EndOperand(w, c, s + 1, Elem(46, s, 0), x, {});
  }

  lemma {:induction false} TargetLists(w: Form, c: Chart, f: Factor, s: nat, x: Demand)
    requires Traced(w, c) && Reads(w, s, LvalueYield(Target(f))) && AtLvalue(c, s) && Demands(c, s, LVALUE, x) &&
             Calm(x)
    ensures Listed(c, s, |LvalueYield(Target(f))|, LvalueItems(Target(f), s, Chain(x)), x, {LPAREN})
    decreases f, 1
  {
    var y := FactorYield(f);
    TargetShape(f, s, Chain(x));
    hide LvalueItems, RuleAt, IsTraced, Demands, Calm, Chain, Pends, IsSilent, Ended, FactorYield, FactorItems,
         LvalueYield, Reads, AtLvalue, AtFactor, Listed;
    LvalueRules();
    ReadsWrapped(w, s, [STAR], y, []);
    LvalueToken(c, s, 47);
    var z := FactorOpens(w, c, s + 1, Elem(47, s, 0), x);
    FactorLists(w, c, f, s + 1, z);
    ListedAfterToken(c, s, |y|, FactorItems(f, s + 1, Chain(z)), z, Done(47, s), x);
  }

  /** What waits for an lvalue that token t follows. */
  lemma OpenLvalue(c: Chart, m: nat, q: Elem, t: Symbol) returns (x: Demand)
    requires Wanted(c, m, LVALUE, {q}) && Wants(q, LVALUE) && Wants(Advance(q), t) && IsTerminal(t) && t != LPAREN
    ensures Demands(c, m, LVALUE, x) && Calm(x) && Chain(x) == [] && OnlyPending(x, t, Advance(q))
  {
    hide RuleAt;
    x := Open({q});
    assert forall e: Elem :: e.dot > 0 && Retreat(e) == q ==> e == Advance(q);
  }

  lemma {:induction false} EnclosedLists(w: Form, c: Chart, l: Lvalue, s: nat, x: Demand)
    requires Traced(w, c) && Reads(w, s, LvalueYield(Enclosed(l))) && AtLvalue(c, s) && Demands(c, s, LVALUE, x) &&
             Calm(x)
    ensures Listed(c, s, |LvalueYield(Enclosed(l))|, LvalueItems(Enclosed(l), s, Chain(x)), x, {LPAREN})
    decreases l, 1
  {
    var y := LvalueYield(l);
    EnclosedShape(l, s, Chain(x));
    var m := s + 1 + |y|;
    hide RuleAt, IsTraced, Demands, Calm, Chain, Pends, IsSilent, Ended, LvalueYield, Reads, AtLvalue, OnlyPending,
         LvalueItems;
    LvalueRules();
    ReadsWrapped(w, s, [LPAREN], y, [RPAREN]);
    LvalueToken(c, s, 48);
    LvalueOpens(w, c, s + 1, Elem(48, s, 0));
    var z := OpenLvalue(c, s + 1, Elem(48, s, 1), RPAREN);
    LvalueIsListed(w, c, l, s + 1, z);
    EndedWants(c, m, z, {LPAREN}, RPAREN, Elem(48, s, 2));
    assert {Elem(48, s, 2)} == {Elem(48, s, 2)} + {};
    EndOperand(w, c, m + 1, Elem(48, s, 2), x, {});
    SilentSpan(c, s + 1);
    ListedInside(c, s, s + 1, |y|, LvalueItems(l, s + 1, []), z, {LPAREN}, x, Done(48, s));
  }

  // ----- calls -----

  const AFTER_ARGS: set<Symbol> := {LPAREN, STAR, SLASH, PCT, PLUS, MINUS, COMMA}

  /** Arguments may start at s. */
  ghost predicate AtArgs(c: Chart, s: nat) {
    AtExpr(c, s) && Wanted(c, s, EXPR, {Elem(44, s, 0), Elem(45, s, 0)} + Sums(s))
  }

  /** Nothing but a closing parenthesis is awaited. */
  ghost predicate OnlyCloses(x: Demand) {
    forall e, t :: Pends(x, e) && Wants(e, t) ==> t == RPAREN
  }

  /** What waits for the next argument. */
  lemma ArgDemand(c: Chart, s: nat, x: Demand) returns (y: Demand)
    requires AtArgs(c, s) && Demands(c, s, ARGLIST, x) && OnlyCloses(x)
    ensures Demands(c, s, EXPR, y) && Calm(y) && InSums(y, s) && OnlyPending(y, COMMA, Elem(45, s, 1))
    ensures Chain(y) == [Done(44, s)] + Chain(x)
    ensures forall m :: Ended(c, m, y, AFTER_EXPR) ==> Ended(c, m, x, AFTER_ARGS)
  {
    hide RuleAt, AtTerm, Pends, OnlyCloses;
    ArgRules();
    SumRules();
    y := Closing(Elem(44, s, 0), {Elem(45, s, 0), Elem(29, s, 0), Elem(30, s, 0)}, x);
    forall e
      ensures Pends(y, e) <==> Pends(x, e) || e == Elem(45, s, 1) || e == Elem(29, s, 1) || e == Elem(30, s, 1)
    {
      ArgPends(s, x, e);
    }
    ArgGoesOn(s, x, y);
  }

  lemma ArgPends(s: nat, x: Demand, e: Elem)
    ensures Pends(Closing(Elem(44, s, 0), {Elem(45, s, 0), Elem(29, s, 0), Elem(30, s, 0)}, x), e) <==>
            Pends(x, e) || e == Elem(45, s, 1) || e == Elem(29, s, 1) || e == Elem(30, s, 1)
  {
    assert e.dot > 0 ==> Advance(Retreat(e)) == e;
  }

  /** Besides what waits for the arguments, only a comma and the operators of sums are awaited. */
  lemma ArgGoesOn(s: nat, x: Demand, y: Demand)
    requires OnlyCloses(x)
    requires forall e :: Pends(y, e) <==>
               Pends(x, e) || e == Elem(45, s, 1) || e == Elem(29, s, 1) || e == Elem(30, s, 1)
    ensures Calm(y) && InSums(y, s) && OnlyPending(y, COMMA, Elem(45, s, 1))
    ensures forall c, m :: Ended(c, m, y, AFTER_EXPR) ==> Ended(c, m, x, AFTER_ARGS)
  {
    hide RuleAt, Pends;
    ArgRules();
    SumRules();
  }

  lemma {:induction false} ArgsAreListed(w: Form, c: Chart, args: Arglist, s: nat, x: Demand)
    requires args.Args? && Traced(w, c) && Reads(w, s, ArgsYield(args)) && AtArgs(c, s) && Demands(c, s, ARGLIST, x) &&
             OnlyCloses(x)
    ensures Listed(c, s, |ArgsYield(args)|, ArgsItems(args, s, Chain(x)), x, AFTER_ARGS)
    decreases args, 0
  {
    hide RuleAt, IsTraced, Demands, Calm, Chain, Pends, IsSilent, Ended, AtArgs, ExprYield, ExprItems, InSums,
         OnlyCloses, Reads, OnlyPending, ArgsItems;
    var e, rest, n := args.expr, args.rest, |ExprYield(args.expr)|;
    var y := ArgDemand(c, s, x);
    AtArgsExpr(c, s);
    if rest.NoArgs? {
      ExprIsListed(w, c, e, s, y);
      LastArg(c, args, s, x, y);
    } else {
      var m := s + n;
      ReadsSum(w, s, ExprYield(e), COMMA, ArgsYield(rest));
      ExprIsListed(w, c, e, s, y);
      EndedWants(c, m, y, AFTER_EXPR, COMMA, Elem(45, s, 1));
      var z := ArgsAfter(w, c, m, s, x);
      ArgsAreListed(w, c, rest, m + 1, z);
      MoreArgs(c, args, s, x, y, z);
    }
  }

  lemma AtArgsExpr(c: Chart, s: nat)
    requires AtArgs(c, s)
    ensures AtExpr(c, s)
  {
    hide AtTerm;
  }

  /** After a comma, more arguments are awaited. */
  lemma ArgsAfter(w: Form, c: Chart, m: nat, s: nat, x: Demand) returns (z: Demand)
    requires Traced(w, c) && s <= m && m + 1 < |w| && w[m] == COMMA && Wanted(c, m, COMMA, {Elem(45, s, 1)})
    requires Demands(c, s, ARGLIST, x) && OnlyCloses(x)
    ensures IsSilent(c, m + 1) && AtArgs(c, m + 1) && Demands(c, m + 1, ARGLIST, z) && OnlyCloses(z)
    ensures Chain(z) == [Done(45, s)] + Chain(x) && forall e :: Pends(z, e) <==> Pends(x, e)
  {
    hide RuleAt, IsTraced, IsSilent, Starts, Demands, Chain, Pends, AtTerm;
    ArgRules();
    var q := Elem(45, s, 1);
    Scan(w, c, m, {q});
    assert q in {q};
    Start(w, c, m + 1, {q}, ARGLIST);
    StartsExpr(c, m + 1, {q}, ARGLIST);
    ArgsWantExpr(c, m + 1, {q});
    OneIsWanted(c, m + 1, {q}, ARGLIST, q);
    OneDemand(c, m + 1, ARGLIST, Elem(45, s, 2), x);
    z := Closing(Elem(45, s, 2), {}, x);
  }

  lemma LastArg(c: Chart, args: Arglist, s: nat, x: Demand, y: Demand)
    requires args.Args? && args.rest.NoArgs? && Chain(y) == [Done(44, s)] + Chain(x)
    requires Listed(c, s, |ExprYield(args.expr)|, ExprItems(args.expr, s, Chain(y)), y, AFTER_EXPR)
    requires forall m :: Ended(c, m, y, AFTER_EXPR) ==> Ended(c, m, x, AFTER_ARGS)
    ensures Listed(c, s, |ArgsYield(args)|, ArgsItems(args, s, Chain(x)), x, AFTER_ARGS)
  {
    hide Ended, Chain, Span, ExprYield, ExprItems, Done;
    assert ExprItems(args.expr, s, Chain(y)) + Chain(y) == ArgsItems(args, s, Chain(x)) + Chain(x);
  }

  lemma MoreArgs(c: Chart, args: Arglist, s: nat, x: Demand, y: Demand, z: Demand)
    requires args.Args? && args.rest.Args? && Chain(y) == [Done(44, s)] + Chain(x) &&
             Chain(z) == [Done(45, s)] + Chain(x)
    requires Listed(c, s, |ExprYield(args.expr)|, ExprItems(args.expr, s, Chain(y)), y, AFTER_EXPR)
    requires var m := s + |ExprYield(args.expr)|;
             IsSilent(c, m + 1) &&
               Listed(c, m + 1, |ArgsYield(args.rest)|, ArgsItems(args.rest, m + 1, Chain(z)), z, AFTER_ARGS)
    requires forall e :: Pends(z, e) <==> Pends(x, e)
    ensures Listed(c, s, |ArgsYield(args)|, ArgsItems(args, s, Chain(x)), x, AFTER_ARGS)
  {
    hide Ended, Chain, Span, ExprYield, ExprItems, Done, IsSilent, Listed, Pends, ArgsItems;
    var n, m := |ExprYield(args.expr)|, s + |ExprYield(args.expr)| + 1;
    SamePending(x, z);
    MoreArgsItems(args, s, Chain(x));
    ListedBoth(c, s, n, ExprItems(args.expr, s, Chain(y)), y, AFTER_EXPR, |ArgsYield(args.rest)|,
               ArgsItems(args.rest, m, Chain(z)), z,
               AFTER_ARGS, ArgsItems(args, s, Chain(x)), x, AFTER_ARGS);
    assert |ArgsYield(args)| == n + |ArgsYield(args.rest)| + 1;
  }

  lemma MoreArgsItems(args: Arglist, s: nat, k: seq<Elem>)
    requires args.Args? && args.rest.Args?
    ensures var first, last := [Done(44, s)] + k, [Done(45, s)] + k;
            ArgsItems(args, s, k) + k ==
            ExprItems(args.expr, s, first) + first + ArgsItems(args.rest, s + |ExprYield(args.expr)| + 1, last) + last
  {
    hide ExprYield, ExprItems;
    var first, last := [Done(44, s)] + k, [Done(45, s)] + k;
    var x, y := ExprItems(args.expr, s, first), ArgsItems(args.rest, s + |ExprYield(args.expr)| + 1, last);
    assert ArgsItems(args, s, k) == x + [Done(44, s)] + k + y + [Done(45, s)];
    hide ArgsItems;
    assert x + [Done(44, s)] + k == x + first;
  }

  /** After a name and an opening parenthesis. */
  lemma CallOpens(w: Form, c: Chart, m: nat, s: nat)
    requires Traced(w, c) && 0 < m < |w| && w[m - 1] == LPAREN &&
             Wanted(c, m - 1, LPAREN, {Elem(42, s, 1), Elem(43, s, 1)})
    ensures IsSilent(c, m) && AtArgs(c, m) && Wanted(c, m, ARGLIST, {Elem(43, s, 2)}) &&
            Wanted(c, m, RPAREN, {Elem(42, s, 2)})
  {
    hide RuleAt, IsTraced, IsSilent, AtTerm;
    CallRules();
    var xs := {Elem(42, s, 1), Elem(43, s, 1)};
    var q := Elem(43, s, 1);
    Scan(w, c, m - 1, xs);
    assert q in xs && Wants(Advance(q), ARGLIST);
    Start(w, c, m, xs, ARGLIST);
    StartsExpr(c, m, xs, ARGLIST);
    ArgsWantExpr(c, m, xs);
    OneIsWanted(c, m, xs, ARGLIST, q);
    assert Elem(42, s, 1) in xs && Advance(Elem(42, s, 1)) in c[m];
    forall e | e in c[m] && Wants(e, RPAREN)
      ensures e == Elem(42, s, 2)
    {
      if e in Moved(xs) {
        assert Advance(Retreat(e)) == e;
      } else {
        FirstIsWanted(e.rule, e.start);
      }
    }
  }

  lemma OpenArgs(c: Chart, m: nat, s: nat) returns (y: Demand)
    requires Wanted(c, m, ARGLIST, {Elem(43, s, 2)})
    ensures Demands(c, m, ARGLIST, y) && OnlyCloses(y) && Chain(y) == [] && OnlyPending(y, RPAREN, Elem(43, s, 3))
  {
    hide RuleAt;
    CallRules();
    y := Open({Elem(43, s, 2)});
    assert forall e: Elem :: e.dot > 0 && Retreat(e) == Elem(43, s, 2) ==> e == Elem(43, s, 3);
  }

  lemma {:induction false} CallLists(w: Form, c: Chart, callee: string, args: Arglist, s: nat, x: Demand)
    requires Traced(w, c) && Reads(w, s, FactorYield(Call(callee, args))) && AtFactor(c, s) &&
             Demands(c, s, FACTOR, x) && Calm(x)
    ensures Listed(c, s, |FactorYield(Call(callee, args))|, FactorItems(Call(callee, args), s, Chain(x)), x, {LPAREN})
    decreases args, 1
  {
    hide RuleAt, IsTraced, Demands, Calm, Chain, Pends, IsSilent, Ended, AtFactor, AtArgs, ArgsYield, ArgsItems, Reads,
         OnlyPending, OnlyCloses, Listed, FactorItems;
    var n := |ArgsYield(args)|;
    ReadsWrapped(w, s, [ID, LPAREN], ArgsYield(args), [RPAREN]);
    ReadsOne(w, s, [ID, LPAREN], 1);
    LeafLists(w, c, s, 35, x);
    CallOpens(w, c, s + 2, s);
    CallRules();
    if args.NoArgs? {
      NoArgsYield();
      assert {Elem(42, s, 2)} + {} == {Elem(42, s, 2)};
      EndOperand(w, c, s + 3, Elem(42, s, 2), x, {});
      CallWithoutArgs(c, callee, s, x);
    } else {
      var m := s + 2 + n;
      var y := OpenArgs(c, s + 2, s);
      ArgsAreListed(w, c, args, s + 2, y);
      assert Ended(c, m, y, AFTER_ARGS) by { ListedEnds(c, s + 2, n, ArgsItems(args, s + 2, []), y, AFTER_ARGS); }
      EndedWants(c, m, y, AFTER_ARGS, RPAREN, Elem(43, s, 3));
      assert {Elem(43, s, 3)} + {} == {Elem(43, s, 3)};
      EndOperand(w, c, m + 1, Elem(43, s, 3), x, {});
      CallWithArgs(c, callee, args, s, x, y);
    }
  }

  lemma NoArgsYield()
    ensures ArgsYield(NoArgs) == []
  {
  }

  lemma ListedEnds(c: Chart, s: nat, n: nat, items: seq<Elem>, x: Demand, own: set<Symbol>)
    requires Listed(c, s, n, items, x, own)
    ensures Ended(c, s + n, x, own)
  {
    hide Ended, Span;
  }

  lemma CallWithoutArgs(c: Chart, callee: string, s: nat, x: Demand)
    requires Listed(c, s, 1, [Done(35, s)], x, {LPAREN}) && IsSilent(c, s + 2)
    requires s + 4 < |c| && Span(c, s + 3, s + 4) == [Done(42, s)] + Chain(x) && Ended(c, s + 3, x, {LPAREN})
    ensures Listed(c, s, |FactorYield(Call(callee, NoArgs))|, FactorItems(Call(callee, NoArgs), s, Chain(x)), x,
                   {LPAREN})
  {
    hide Ended, Chain, Span, Done;
    SilentSpan(c, s + 2);
    SpanSplit(c, s + 1, s + 2, s + 3);
    SpanSplit(c, s + 1, s + 3, s + 4);
    var k := Chain(x);
    assert [Done(35, s)] + k + [] + ([Done(42, s)] + k) == [Done(35, s)] + k + [Done(42, s)] + k;
    NoArgsYield();
  }

  lemma CallWithArgs(c: Chart, callee: string, args: Arglist, s: nat, x: Demand, y: Demand)
    requires args.Args? && Listed(c, s, 1, [Done(35, s)], x, {LPAREN}) && IsSilent(c, s + 2)
    requires Listed(c, s + 2, |ArgsYield(args)|, ArgsItems(args, s + 2, []), y, AFTER_ARGS) && Chain(y) == []
    requires var m := s + 3 + |ArgsYield(args)|;
             m + 1 < |c| && Span(c, m, m + 1) == [Done(43, s)] + Chain(x) && Ended(c, m, x, {LPAREN})
    ensures Listed(c, s, |FactorYield(Call(callee, args))|, FactorItems(Call(callee, args), s, Chain(x)), x, {LPAREN})
  {
    hide Ended, Chain, Span, Done, ArgsItems, ArgsYield;
    var k, items, m := Chain(x), ArgsItems(args, s + 2, []), s + 3 + |ArgsYield(args)|;
    SilentSpan(c, s + 2);
    SpanSplit(c, s + 1, s + 2, s + 3);
    SpanSplit(c, s + 1, s + 3, m);
    SpanSplit(c, s + 1, m, m + 1);
    assert [Done(35, s)] + k + [] + (items + []) + ([Done(43, s)] + k) == [Done(35, s)] + k + items + [Done(43, s)] + k;
  }

  lemma {:induction false} FactorLists(w: Form, c: Chart, f: Factor, s: nat, x: Demand)
    requires Traced(w, c) && Reads(w, s, FactorYield(f)) && AtFactor(c, s) && Demands(c, s, FACTOR, x) && Calm(x)
    ensures Listed(c, s, |FactorYield(f)|, FactorItems(f, s, Chain(x)), x, {LPAREN})
    decreases f, 0
  {
    hide RuleAt, IsTraced, Demands, Calm, Chain, Pends, IsSilent, Ended, AtFactor, Listed;
    ReadsOne(w, s, FactorYield(f), 0);
    match f
    case Id(_) => LeafLists(w, c, s, 35, x);
    case Num(_) => LeafLists(w, c, s, 36, x);
    case NullValue => LeafLists(w, c, s, 37, x);
    case Paren(e) => ParenLists(w, c, e, s, x);
    case NewArray(e) => NewLists(w, c, e, s, x);
    case AddressOf(l) => AddressLists(w, c, l, s, x);
    case Deref(g) => DerefLists(w, c, g, s, x);
    case Call(callee, args) => CallLists(w, c, callee, args, s, x);
  }
}
