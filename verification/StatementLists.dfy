/** The lists of statements complete exactly their items. */
module StatementLists {
  import opened Symbols
  import opened Grammar
  import opened Earley
  import opened Charts
  import opened Wlp4Grammar
  import opened FinalChart
  import opened Tokens
  import opened Ast
  import opened Yields
  import opened Traces
  import opened Lists
  import opened Openings
  import opened Operands
  import opened ExprLists
  import opened Items

  // ----- places among statements -----

  /** A statement may start at s. */
  ghost predicate AtStatement(c: Chart, s: nat) {
    && AtLvalue(c, s)
    && Wanted(c, s, LVALUE, {Elem(17, s, 0)})
    && forall r: nat :: 18 <= r <= 21 ==> Wanted(c, s, FirstOf(r), {Elem(r, s, 0)})
  }

  /** Among the statements of the body that started at b, which item z asked for; token t ends it. */
  ghost predicate InBody(c: Chart, m: nat, b: nat, z: Elem, t: Symbol) {
    AtStatement(c, m) && Wanted(c, m, STATEMENT, {Elem(16, b, 1)}) && Wanted(c, m, t, {Advance(z)})
  }

  /** What a body that started at b waits for. */
  ghost predicate BodyIsWanted(c: Chart, b: nat, z: Elem, t: Symbol) {
    && Wanted(c, b, STATEMENTS, {z, Elem(16, b, 0)})
    && Wants(z, STATEMENTS)
    && Wants(Advance(z), t)
    && (t == RETURN || t == RBRACE)
  }

  /** What waits for a statement. */
  function StatementDemand(b: nat, z: Elem): Demand {
    Closing(Elem(16, b, 1), {}, Open({z, Elem(16, b, 0)}))
  }

  lemma BodyRules()
    ensures RuleAt(15) == Rule(STATEMENTS, []) && RuleAt(16) == Rule(STATEMENTS, [STATEMENTS, STATEMENT])
  {
  }

  lemma DemandsStatement(c: Chart, m: nat, b: nat, z: Elem, t: Symbol)
    requires b <= m && BodyIsWanted(c, b, z, t) && Wanted(c, m, STATEMENT, {Elem(16, b, 1)})
    ensures Demands(c, m, STATEMENT, StatementDemand(b, z)) && Chain(StatementDemand(b, z)) == [Done(16, b)]
    ensures forall e :: Pends(StatementDemand(b, z), e) <==> e == Elem(16, b, 1) || e == Advance(z)
  {
    hide RuleAt;
    BodyRules();
    var x := StatementDemand(b, z);
    assert Chain(x) == [Elem(16, b, 2)] + [];
    forall e
      ensures Pends(x, e) <==> e == Elem(16, b, 1) || e == Advance(z)
    {
      assert e.dot > 0 ==> Advance(Retreat(e)) == e;
      assert Retreat(Advance(z)) == z;
    }
    assert Demands(c, b, STATEMENTS, x.above);
  }

  lemma StatementSymbolsAreTidy()
    ensures IsTidy({STATEMENT, LVALUE})
  {
    hide RuleAt;
    forall r: nat | r < 49 && RuleAt(r).lhs in {STATEMENT, LVALUE}
      ensures RuleAt(r).rhs != [] && (IsTerminal(RuleAt(r).rhs[0]) || RuleAt(r).rhs[0] in {STATEMENT, LVALUE})
    {
      LeftSides(r);
      FirstSymbols(r);
    }
  }

  /** A predicted item at m for a statement or an lvalue. */
  predicate IsStatementStart(e: Elem, m: nat) {
    e.dot == 0 && e.start == m && (17 <= e.rule <= 21 || 46 <= e.rule <= 48)
  }

  /** All that wants anything, besides what may start here, is among xs. */
  ghost predicate StatementsStart(c: Chart, m: nat, xs: set<Elem>) {
    && m < |c|
    && (forall e, t :: e in c[m] && Wants(e, t) ==> e in xs || IsStatementStart(e, m))
    && (forall e :: IsStatementStart(e, m) ==> e in c[m])
    && (forall e, t :: e in xs && Wants(e, t) ==> t in {STATEMENT, STATEMENTS, DCL, DCLS, TYPE, INT, RETURN, RBRACE})
  }

  lemma StatementPlace(c: Chart, m: nat, xs: set<Elem>)
    requires StatementsStart(c, m, xs)
    ensures AtStatement(c, m)
  {
    hide RuleAt;
    forall e, t | e in c[m] && Wants(e, t) && (IsTerminal(t) || t == LVALUE) && t !in {INT, RETURN, RBRACE}
      ensures IsStatementStart(e, m) && t == FirstOf(e.rule)
    {
      FirstIsWanted(e.rule, m);
    }
    forall e, t | IsStatementStart(e, m) && t == FirstOf(e.rule)
      ensures e in c[m] && Wants(e, t)
    {
      FirstIsWanted(e.rule, m);
    }
  }

  lemma BodyPlace(c: Chart, m: nat, xs: set<Elem>, b: nat, z: Elem, t: Symbol)
    requires StatementsStart(c, m, xs) && (t == RETURN || t == RBRACE)
    requires Elem(16, b, 1) in c[m] && Wants(Elem(16, b, 1), STATEMENT) && Advance(z) in c[m] && Wants(Advance(z), t)
    requires forall e :: e in xs && Wants(e, STATEMENT) ==> e == Elem(16, b, 1)
    requires forall e :: e in xs && Wants(e, t) ==> e == Advance(z)
    ensures InBody(c, m, b, z, t)
  {
    hide RuleAt;
    StatementPlace(c, m, xs);
    forall e | e in c[m] && (Wants(e, STATEMENT) || Wants(e, t))
      ensures e in xs
    {
      if IsStatementStart(e, m) {
        FirstIsWanted(e.rule, m);
      }
    }
  }

  lemma StatementsArePredicted(w: Form, c: Chart, m: nat, e: Elem)
    requires Traced(w, c) && m < |w| && e in c[m] && Wants(e, STATEMENT)
    ensures forall p :: IsStatementStart(p, m) ==> p in c[m]
  {
    hide RuleAt, IsTraced, Wants;
    PredictedRules(w, c, m, e, STATEMENT);
    FirstIsWanted(17, m);
    PredictedRules(w, c, m, Elem(17, m, 0), LVALUE);
    forall p | IsStatementStart(p, m)
      ensures p in c[m]
    {
      assert p == Elem(p.rule, m, 0);
    }
  }

  /** The token before m ends a statement of the body. */
  lemma StatementEnds(w: Form, c: Chart, m: nat, q: Elem, b: nat, z: Elem, t: Symbol)
    requires Traced(w, c) && 0 < m < |w| && Wanted(c, m - 1, w[m - 1], {q}) && 17 <= q.rule <= 21 && IsDone(Advance(q))
    requires b <= q.start < m && Wanted(c, q.start, STATEMENT, {Elem(16, b, 1)}) && BodyIsWanted(c, b, z, t)
    ensures Span(c, m, m + 1) == [Advance(q), Done(16, b)] && InBody(c, m, b, z, t)
  {
    hide RuleAt, IsTraced, Chain, Pends, Demands, Span, IsTidy;
    var x, xs := StatementDemand(b, z), {Elem(16, b, 1), Advance(z)};
    LeftSides(q.rule);
    DemandsStatement(c, q.start, b, z, t);
    StatementSymbolsAreTidy();
    BodyRules();
    assert {q} == {q} + {};
    Scan(w, c, m - 1, {q});
    CloseList(w, c, m, q, x, {}, {STATEMENT, LVALUE});
    assert [Advance(q)] + [Done(16, b)] == [Advance(q), Done(16, b)];
    StatementsArePredicted(w, c, m, Elem(16, b, 1));
    forall e, s | e in c[m] && Wants(e, s)
      ensures e in xs || IsStatementStart(e, m)
    {
      LeftSides(e.rule);
    }
    BodyPlace(c, m, xs, b, z, t);
  }

  // ----- an empty list of statements -----

  const BODY_SYMBOLS: set<Symbol> := {STATEMENTS, STATEMENT, LVALUE}

  /** The first list of a body. */
  ghost function BodyItemsAt(b: nat, z: Elem): iset<Elem> {
    iset{z, Advance(z), Elem(16, b, 1)}
  }

  lemma FitsInBody(b: nat, z: Elem, t: Symbol, e: Elem)
    requires Wants(z, STATEMENTS) && Wants(Advance(z), t) && (t == RETURN || t == RBRACE)
    requires Fits(e, b, BodyItemsAt(b, z), BODY_SYMBOLS)
    ensures IsDone(e) <==> e == Done(15, b)
    ensures forall s :: Wants(e, s) ==> IsTerminal(s) || s in BODY_SYMBOLS
    ensures Wants(e, STATEMENTS) ==> e == z || e == Elem(16, b, 0)
    ensures IsStatementStart(e, b) || e in BodyItemsAt(b, z) || e == Elem(16, b, 0) || e == Elem(15, b, 0)
  {
    hide RuleAt;
    BodyRules();
    if e !in BodyItemsAt(b, z) {
      LeftSides(e.rule);
      if e.rule >= 17 {
        FirstIsWanted(e.rule, b);
      }
    }
  }

  lemma BodyListFits(w: Form, c: Chart, b: nat, q: Elem, t: Symbol)
    requires Traced(w, c) && 0 < b < |w| && Wanted(c, b - 1, w[b - 1], {q})
    requires Wants(Advance(q), STATEMENTS) && Wants(Advance(Advance(q)), t) && (t == RETURN || t == RBRACE)
    ensures forall e :: e in c[b] ==> Fits(e, b, BodyItemsAt(b, Advance(q)), BODY_SYMBOLS)
  {
    hide RuleAt, IsTraced, Fits, Wants, IsDone;
    var z, xs := Advance(q), BodyItemsAt(b, Advance(q));
    Scan(w, c, b - 1, {q});
    forall e, s | e in c[b] && Passed(e, s) && IsTerminal(s)
      ensures e in xs
    {
      assert Advance(Retreat(e)) == e;
    }
    forall e, s | Fits(e, b, xs, BODY_SYMBOLS) && Wants(e, s)
      ensures IsTerminal(s) || s in BODY_SYMBOLS
    {
      FitsInBody(b, z, t, e);
    }
    forall d, p | d in c[b] && Fits(d, b, xs, BODY_SYMBOLS) && IsDone(d) && Crosses(c, b, xs, BODY_SYMBOLS, d, p)
      ensures Advance(p) in xs
    {
      FitsInBody(b, z, t, d);
      BodyRules();
      FitsInBody(b, z, t, p);
    }
    AllFit(w, c, b, xs, BODY_SYMBOLS);
  }

  /** An emptiable symbol may be passed over at once. */
  lemma Skips(w: Form, c: Chart, m: nat, e: Elem, a: Symbol)
    requires Traced(w, c) && m < |w| && e in c[m] && Wants(e, a) && IsEmptiable(a)
    ensures Advance(e) in c[m]
  {
    hide RuleAt, IsTraced;
    AnsweredIn(w, c, m, e);
  }

  /** The token before b opens a body: an empty list of statements is complete, and statements may start. */
  lemma BodyOpens(w: Form, c: Chart, b: nat, q: Elem, t: Symbol)
    requires Traced(w, c) && 0 < b < |w| && Wanted(c, b - 1, w[b - 1], {q})
    requires Wants(Advance(q), STATEMENTS) && Wants(Advance(Advance(q)), t) && (t == RETURN || t == RBRACE)
    ensures Span(c, b, b + 1) == [Done(15, b)] && BodyIsWanted(c, b, Advance(q), t) && InBody(c, b, b, Advance(q), t)
  {
    hide RuleAt, IsTraced, Fits, Wants, IsDone, IsEmptiable;
    var z := Advance(q);
    BodyListFits(w, c, b, q, t);
    Scan(w, c, b - 1, {q});
    StatementsAreEmptiable();
    assert q in {q} && z in c[b];
    PredictedRules(w, c, b, z, STATEMENTS);
    Skips(w, c, b, z, STATEMENTS);
    StatementsItem(b);
    Skips(w, c, b, Elem(16, b, 0), STATEMENTS);
    BodyIsOpen(w, c, b, z, t);
    EmptyIsCompleted(w, c, b, z, t);
  }

  lemma StatementsAreEmptiable()
    ensures IsEmptiable(STATEMENTS)
  {
  }

  lemma StatementsItem(b: nat)
    ensures Wants(Elem(16, b, 0), STATEMENTS) && Wants(Elem(16, b, 1), STATEMENT) &&
            Advance(Elem(16, b, 0)) == Elem(16, b, 1)
    ensures IsDone(Done(15, b)) && Done(15, b) == Elem(15, b, 0)
  {
    hide RuleAt;
    BodyRules();
  }

  lemma BodyIsOpen(w: Form, c: Chart, b: nat, z: Elem, t: Symbol)
    requires Traced(w, c) && b < |w| && Wants(z, STATEMENTS) && Wants(Advance(z), t) && (t == RETURN || t == RBRACE)
    requires forall e :: e in c[b] ==> Fits(e, b, BodyItemsAt(b, z), BODY_SYMBOLS)
    requires z in c[b] && Advance(z) in c[b] && Elem(16, b, 0) in c[b] && Elem(16, b, 1) in c[b]
    ensures BodyIsWanted(c, b, z, t) && InBody(c, b, b, z, t)
  {
    hide RuleAt, IsTraced, Fits;
    var xs := {z, Advance(z), Elem(16, b, 0), Elem(16, b, 1)};
    BodyRules();
    StatementsItem(b);
    StatementsArePredicted(w, c, b, Elem(16, b, 1));
    forall e | e in c[b]
      ensures Wants(e, STATEMENTS) ==> e == z || e == Elem(16, b, 0)
      ensures forall s :: Wants(e, s) ==> e in xs || IsStatementStart(e, b)
    {
      FitsInBody(b, z, t, e);
    }
    BodyPlace(c, b, xs, b, z, t);
  }

  lemma EmptyIsCompleted(w: Form, c: Chart, b: nat, z: Elem, t: Symbol)
    requires Traced(w, c) && b < |w| && Wants(z, STATEMENTS) && Wants(Advance(z), t) && (t == RETURN || t == RBRACE)
    requires forall e :: e in c[b] ==> Fits(e, b, BodyItemsAt(b, z), BODY_SYMBOLS)
    requires Elem(15, b, 0) in c[b]
    ensures Span(c, b, b + 1) == [Done(15, b)]
  {
    hide RuleAt, IsTraced, Fits, IsDone;
    var line := [Done(15, b)];
    StatementsItem(b);
    forall e | e in c[b]
      ensures IsDone(e) <==> e in line
    {
      FitsInBody(b, z, t, e);
    }
    LinedUp(c[b], line);
    SpanOfOne(c, b);
  }

  lemma TraceLength(w: Form, c: Chart)
    requires Traced(w, c)
    ensures |c| == |w| + 1
  {
    hide IsTraced;
  }

  // ----- tests -----

  function OperatorIn(r: nat): Symbol {
    if r == 22 then EQ else if r == 23 then NE else if r == 24 then LT else if r == 25 then LE
    else if r == 26 then GE else GT
  }

  lemma TestRules(r: nat)
    requires 22 <= r <= 27
    ensures RuleAt(r) == Rule(TEST, [EXPR, OperatorIn(r), EXPR])
  {
  }

  function Comparisons(m: nat): set<Elem> {
    set i: nat | 22 <= i <= 27 :: Elem(i, m, 0)
  }

  /** A comparison or a sum over its first part. */
  predicate IsLeftOver(e: Elem, m: nat) {
    e.dot == 1 && e.start == m && (22 <= e.rule <= 27 || e.rule == 29 || e.rule == 30)
  }

  lemma LeftOverWants(e: Elem, m: nat, t: Symbol)
    requires IsLeftOver(e, m)
    ensures !IsDone(e)
    ensures Wants(e, t) <==> t == if e.rule == 29 then PLUS else if e.rule == 30 then MINUS else OperatorIn(e.rule)
  {
    hide RuleAt;
    if e.rule <= 27 {
      TestRules(e.rule);
    } else {
      SumRules();
    }
  }

  lemma LeftPends(m: nat, e: Elem)
    ensures Pends(Open(Comparisons(m) + Sums(m)), e) <==> IsLeftOver(e, m)
  {
    if e.dot == 1 {
      assert Retreat(e) == Elem(e.rule, e.start, 0);
    }
  }

  /** What waits for the left side of a test. */
  lemma LeftDemand(c: Chart, m: nat, r: nat) returns (x: Demand)
    requires Wanted(c, m, EXPR, Comparisons(m) + Sums(m)) && 22 <= r <= 27
    ensures Demands(c, m, EXPR, x) && Calm(x) && InSums(x, m) && Chain(x) == [] &&
            OnlyPending(x, OperatorIn(r), Elem(r, m, 1))
  {
    x := Open(Comparisons(m) + Sums(m));
    hide RuleAt, Pends, Wants, Comparisons, Sums, IsDone;
    forall e
      ensures Pends(x, e) <==> IsLeftOver(e, m)
      ensures IsLeftOver(e, m) ==> !IsDone(e)
      ensures forall t :: IsLeftOver(e, m) ==>
                (Wants(e, t) <==>
                 t == if e.rule == 29 then PLUS else if e.rule == 30 then MINUS else OperatorIn(e.rule))
    {
      LeftPends(m, e);
      if IsLeftOver(e, m) {
        LeftOverWants(e, m, ID);
        forall t {
          LeftOverWants(e, m, t);
        }
      }
    }
    forall p | p in x.others
      ensures !IsDone(Advance(p))
    {
      OthersPend(x, p);
    }
  }

  lemma OthersPend(x: Demand, p: Elem)
    requires p in x.others
    ensures Pends(x, Advance(p))
  {
    assert Retreat(Advance(p)) == p;
  }

  /** What waits for the right side of a test that item q asked for. */
  lemma RightDemand(c: Chart, m: nat, r: nat, s: nat, q: Elem) returns (x: Demand)
    requires Wanted(c, m, EXPR, {Elem(r, s, 2)} + Sums(m)) && 22 <= r <= 27 && s <= m
    requires Wanted(c, s, TEST, {q}) && Wants(q, TEST) && Wants(Advance(q), RPAREN)
    ensures Demands(c, m, EXPR, x) && Calm(x) && InSums(x, m) && Chain(x) == [Done(r, s)] &&
            OnlyPending(x, RPAREN, Advance(q))
  {
    hide RuleAt;
    SumRules();
    TestRules(r);
    var y := Open({q});
    x := Closing(Elem(r, s, 2), Sums(m), y);
    assert Demands(c, s, TEST, y);
    assert Chain(x) == [Elem(r, s, 3)] + [];
    forall e
      ensures Pends(x, e) <==> e == Elem(29, m, 1) || e == Elem(30, m, 1) || e == Advance(q)
    {
      assert e.dot > 0 ==> Advance(Retreat(e)) == e;
      assert Retreat(Advance(q)) == q;
    }
  }

  /** After the operator, the right side of the test is awaited. */
  lemma RightOpens(w: Form, c: Chart, m: nat, r: nat, s: nat, q: Elem) returns (x: Demand)
    requires Traced(w, c) && s <= m && m + 1 < |w| && 22 <= r <= 27 && w[m] == OperatorIn(r) &&
             Wanted(c, m, w[m], {Elem(r, s, 1)})
    requires Wanted(c, s, TEST, {q}) && Wants(q, TEST) && Wants(Advance(q), RPAREN)
    ensures IsSilent(c, m + 1) && AtExpr(c, m + 1)
    ensures Demands(c, m + 1, EXPR, x) && Calm(x) && InSums(x, m + 1) && Chain(x) == [Done(r, s)] &&
            OnlyPending(x, RPAREN, Advance(q))
  {
    hide RuleAt, IsTraced, IsSilent, AtTerm, Demands, Calm, InSums, OnlyPending, Chain;
    TestRules(r);
    var p := Elem(r, s, 1);
    Scan(w, c, m, {p});
    assert p in {p};
    Start(w, c, m + 1, {p}, EXPR);
    StartsExpr(c, m + 1, {p}, EXPR);
    ExprIsWanted(c, m + 1, p);
    hide Starts;
    x := RightDemand(c, m + 1, r, s, q);
  }

  /** The token before m is q's, and a test comes next. */
  lemma TestOpens(w: Form, c: Chart, m: nat, q: Elem)
    requires Traced(w, c) && 0 < m < |w| && Wanted(c, m - 1, w[m - 1], {q}) && Wants(Advance(q), TEST)
    ensures IsSilent(c, m) && AtExpr(c, m) && Wanted(c, m, TEST, {Advance(q)})
    ensures Wanted(c, m, EXPR, Comparisons(m) + Sums(m))
  {
    hide RuleAt, IsTraced, IsSilent, AtTerm;
    Scan(w, c, m - 1, {q});
    assert q in {q};
    Start(w, c, m, {q}, TEST);
    StartsExpr(c, m, {q}, TEST);
    TestsWantExpr(c, m, {q});
    OneIsWanted(c, m, {q}, TEST, q);
  }

  /** The left side, up to the operator. */
  lemma LeftLists(w: Form, c: Chart, m: nat, e: Expr, r: nat) returns (x: Demand)
    requires Traced(w, c) && Reads(w, m, ExprYield(e)) && AtExpr(c, m) &&
             Wanted(c, m, EXPR, Comparisons(m) + Sums(m)) && 22 <= r <= 27
    ensures Listed(c, m, |ExprYield(e)|, ExprItems(e, m, []), x, AFTER_EXPR) && Chain(x) == []
    ensures Wanted(c, m + |ExprYield(e)|, OperatorIn(r), {Elem(r, m, 1)})
  {
    hide RuleAt, IsTraced, AtTerm, Demands, Calm, InSums, OnlyPending, Chain, ExprItems, ExprYield, Reads, Listed;
    x := LeftDemand(c, m, r);
    ExprIsListed(w, c, e, m, x);
    ListedEnds(c, m, |ExprYield(e)|, ExprItems(e, m, []), x, AFTER_EXPR);
    EndedWants(c, m + |ExprYield(e)|, x, AFTER_EXPR, OperatorIn(r), Elem(r, m, 1));
  }

  /** The right side, from the operator on. */
  lemma RightLists(w: Form, c: Chart, m: nat, e: Expr, r: nat, s: nat, q: Elem) returns (x: Demand)
    requires Traced(w, c) && s <= m && m + 1 < |w| && 22 <= r <= 27 && w[m] == OperatorIn(r) &&
             Wanted(c, m, w[m], {Elem(r, s, 1)})
    requires Wanted(c, s, TEST, {q}) && Wants(q, TEST) && Wants(Advance(q), RPAREN) && Reads(w, m + 1, ExprYield(e))
    ensures IsSilent(c, m + 1) && Listed(c, m + 1, |ExprYield(e)|, ExprItems(e, m + 1, [Done(r, s)]), x, AFTER_EXPR)
    ensures Chain(x) == [Done(r, s)] && Wanted(c, m + 1 + |ExprYield(e)|, RPAREN, {Advance(q)})
  {
    hide RuleAt, IsTraced, AtTerm, Demands, Calm, InSums, OnlyPending, Chain, ExprItems, ExprYield, Reads, Listed,
         IsSilent;
    x := RightOpens(w, c, m, r, s, q);
    ExprIsListed(w, c, e, m + 1, x);
    ListedEnds(c, m + 1, |ExprYield(e)|, ExprItems(e, m + 1, Chain(x)), x, AFTER_EXPR);
    EndedWants(c, m + 1 + |ExprYield(e)|, x, AFTER_EXPR, RPAREN, Advance(q));
  }

  lemma TestLists(w: Form, c: Chart, m: nat, q: Elem, t: Test)
    requires Traced(w, c) && 0 < m < |w| && Wanted(c, m - 1, w[m - 1], {q}) && Wants(Advance(q), TEST)
    requires Wants(Advance(Advance(q)), RPAREN) && Reads(w, m, TestYield(t)) && IsComparison(t.op)
    ensures var n := |TestYield(t)|;
            m + n + 1 < |c| && Span(c, m, m + n + 1) == TestItems(t, m) &&
              Wanted(c, m + n, RPAREN, {Advance(Advance(q))})
  {
    hide RuleAt, IsTraced, IsSilent, AtTerm, Chain, ExprItems, ExprYield, Reads, Listed, Wanted, Wants, Traced,
         TestItems, Span;
    var r, left, right := TestRule(t.op), ExprYield(t.left), ExprYield(t.right);
    var i := m + |left|;
    ReadsSum(w, m, left, t.op, right);
    TestOpens(w, c, m, q);
    var x := LeftLists(w, c, m, t.left, r);
    var y := RightLists(w, c, i, t.right, r, m, Advance(q));
    TestIsListed(c, m, t, x, y);
  }

  lemma TestIsListed(c: Chart, m: nat, t: Test, x: Demand, y: Demand)
    requires Listed(c, m, |ExprYield(t.left)|, ExprItems(t.left, m, []), x, AFTER_EXPR) && Chain(x) == []
    requires var i := m + |ExprYield(t.left)| + 1;
             && IsSilent(c, i)
             && Listed(c, i, |ExprYield(t.right)|, ExprItems(t.right, i, [Done(TestRule(t.op), m)]), y, AFTER_EXPR)
    requires Chain(y) == [Done(TestRule(t.op), m)] && IsSilent(c, m)
    ensures m + |TestYield(t)| + 1 < |c| && Span(c, m, m + |TestYield(t)| + 1) == TestItems(t, m)
  {
    hide Chain, Ended, Done, ExprYield, ExprItems, Span;
    var i, n := m + |ExprYield(t.left)| + 1, m + |TestYield(t)| + 1;
    SilentSpan(c, m);
    SilentSpan(c, i);
    SpanSplit(c, m, m + 1, i);
    SpanSplit(c, m, i, i + 1);
    SpanSplit(c, m, i + 1, n);
  }

  // ----- statements -----

  lemma SimpleRules()
    ensures RuleAt(17) == Rule(STATEMENT, [LVALUE, BECOMES, EXPR, SEMI])
    ensures RuleAt(20) == Rule(STATEMENT, [PRINTLN, LPAREN, EXPR, RPAREN, SEMI])
    ensures RuleAt(21) == Rule(STATEMENT, [DELETE, LBRACK, RBRACK, EXPR, SEMI])
  {
  }

  lemma IfRule()
    ensures RuleAt(18) ==
            Rule(STATEMENT, [IF, LPAREN, TEST, RPAREN, LBRACE, STATEMENTS, RBRACE, ELSE, LBRACE, STATEMENTS, RBRACE])
  {
  }

  lemma WhileRule()
    ensures RuleAt(19) == Rule(STATEMENT, [WHILE, LPAREN, TEST, RPAREN, LBRACE, STATEMENTS, RBRACE])
  {
  }

  /** The lists of a statement of the body, from s on. */
  ghost predicate StatementListed(c: Chart, s: nat, st: Statement, b: nat, z: Elem, t: Symbol) {
    var n := |StatementYield(st)|;
    s + n + 1 < |c| && Span(c, s + 1, s + n + 1) == StatementItems(st, s) + [Done(16, b)] && InBody(c, s + n, b, z, t)
  }

  /** The place of a statement. */
  ghost predicate StatementHere(c: Chart, s: nat, b: nat, z: Elem, t: Symbol) {
    b <= s && InBody(c, s, b, z, t) && BodyIsWanted(c, b, z, t)
  }

  /** The token before m is q's; an expression and another token follow. */
  lemma ExprInside(w: Form, c: Chart, m: nat, q: Elem, t: Symbol, e: Expr)
    requires Traced(w, c) && 0 < m < |w| && Wanted(c, m - 1, w[m - 1], {q}) && Wants(Advance(q), EXPR)
    requires Wants(Advance(Advance(q)), t) && (t == SEMI || t == RPAREN) && Reads(w, m, ExprYield(e))
    ensures var n := |ExprYield(e)|;
            m + n + 1 < |c| && Span(c, m, m + n + 1) == ExprItems(e, m, []) &&
              Wanted(c, m + n, t, {Advance(Advance(q))})
  {
    hide RuleAt, IsTraced, AtTerm, Demands, Calm, InSums, OnlyPending, Chain, ExprItems, ExprYield, Reads, Listed,
         IsSilent;
    var n := |ExprYield(e)|;
    var x := ExprOpens(w, c, m, q, t);
    ExprIsListed(w, c, e, m, x);
    ListedEnds(c, m, n, ExprItems(e, m, []), x, AFTER_EXPR);
    EndedWants(c, m + n, x, AFTER_EXPR, t, Advance(Advance(q)));
    SilentlyListed(c, m, n, ExprItems(e, m, []), x, AFTER_EXPR);
  }

  lemma SilentlyListed(c: Chart, m: nat, n: nat, items: seq<Elem>, x: Demand, own: set<Symbol>)
    requires IsSilent(c, m) && Listed(c, m, n, items, x, own) && Chain(x) == []
    ensures m + n + 1 < |c| && Span(c, m, m + n + 1) == items
  {
    hide Chain, Ended;
    SpanSplit(c, m, m + 1, m + n + 1);
  }

  lemma PlainlyListed(c: Chart, s: nat, n: nat, items: seq<Elem>, x: Demand, own: set<Symbol>)
    requires Listed(c, s, n, items, x, own) && Chain(x) == []
    ensures s + n + 1 < |c| && Span(c, s + 1, s + n + 1) == items && Ended(c, s + n, x, own)
  {
    hide Ended, Span, Chain;
  }

  lemma TargetDemand(c: Chart, s: nat) returns (x: Demand)
    requires AtStatement(c, s)
    ensures AtLvalue(c, s) && Demands(c, s, LVALUE, x) && Calm(x) && Chain(x) == [] &&
            OnlyPending(x, BECOMES, Elem(17, s, 1))
  {
    hide RuleAt, AtLvalue, Demands, Calm, OnlyPending, Chain;
    SimpleRules();
    x := OpenLvalue(c, s, Elem(17, s, 0), BECOMES);
  }

  lemma LvalueInside(w: Form, c: Chart, s: nat, l: Lvalue)
    requires Traced(w, c) && AtStatement(c, s) && Reads(w, s, LvalueYield(l))
    ensures var n := |LvalueYield(l)|;
            s + n + 1 < |c| && Span(c, s + 1, s + n + 1) == LvalueItems(l, s, []) &&
              Wanted(c, s + n, BECOMES, {Elem(17, s, 1)})
  {
    hide RuleAt, IsTraced, AtLvalue, Demands, Calm, OnlyPending, LvalueItems, LvalueYield, Reads, Chain, Ended,
         AtStatement, Listed, Span, Wanted, Traced, Wants;
    var x := TargetDemand(c, s);
    LvalueIsListed(w, c, l, s, x);
    PlainlyListed(c, s, |LvalueYield(l)|, LvalueItems(l, s, []), x, {LPAREN});
    EndedWants(c, s + |LvalueYield(l)|, x, {LPAREN}, BECOMES, Elem(17, s, 1));
  }

  lemma AssignLists(w: Form, c: Chart, s: nat, l: Lvalue, e: Expr, b: nat, z: Elem, t: Symbol)
    requires Traced(w, c) && StatementHere(c, s, b, z, t) && Reads(w, s, StatementYield(Assign(l, e)))
    ensures StatementListed(c, s, Assign(l, e), b, z, t)
  {
    hide RuleAt, IsTraced, ExprItems, ExprYield, LvalueYield, LvalueItems, Reads, Wanted, BodyIsWanted, Span;
    var m, n := s + |LvalueYield(l)|, |ExprYield(e)|;
    SimpleRules();
    ReadsSum(w, s, LvalueYield(l), BECOMES, ExprYield(e) + [SEMI]) by {
      assert LvalueYield(l) + [BECOMES] + (ExprYield(e) + [SEMI]) == StatementYield(Assign(l, e));
    }
    ReadsSum(w, m + 1, ExprYield(e), SEMI, []) by {
      assert ExprYield(e) + [SEMI] + [] == ExprYield(e) + [SEMI];
    }
    LvalueInside(w, c, s, l);
    ExprInside(w, c, m + 1, Elem(17, s, 1), SEMI, e);
    var k := m + 1 + n + 1;
    StatementEnds(w, c, k, Elem(17, s, 3), b, z, t);
    SpanSplit(c, s + 1, m + 1, k);
    SpanSplit(c, s + 1, k, k + 1);
    assert StatementItems(Assign(l, e), s) + [Done(16, b)] ==
           LvalueItems(l, s, []) + ExprItems(e, m + 1, []) + [Done(17, s), Done(16, b)];
  }

  lemma PrintlnLists(w: Form, c: Chart, s: nat, e: Expr, b: nat, z: Elem, t: Symbol)
    requires Traced(w, c) && StatementHere(c, s, b, z, t) && Reads(w, s, StatementYield(Println(e)))
    ensures StatementListed(c, s, Println(e), b, z, t)
  {
    hide RuleAt, IsTraced, ExprItems, ExprYield, Reads, Wanted, BodyIsWanted, Span, IsSilent;
    var n := |ExprYield(e)|;
    SimpleRules();
    ReadsWrapped(w, s, [PRINTLN, LPAREN], ExprYield(e), [RPAREN, SEMI]);
    ReadsOne(w, s, [PRINTLN, LPAREN], 1);
    ReadsOne(w, s + 2 + n, [RPAREN, SEMI], 1);
    assert Wanted(c, s, PRINTLN, {Elem(20, s, 0)}) by { assert Wanted(c, s, FirstOf(20), {Elem(20, s, 0)}); }
    TokenOpens(w, c, s + 1, Elem(20, s, 0), LPAREN);
    ExprInside(w, c, s + 2, Elem(20, s, 1), RPAREN, e);
    TokenOpens(w, c, s + 3 + n, Elem(20, s, 3), SEMI);
    StatementEnds(w, c, s + 4 + n, Elem(20, s, 4), b, z, t);
    SilentSpan(c, s + 1);
    SilentSpan(c, s + 3 + n);
    SpanSplit(c, s + 1, s + 2, s + 3 + n);
    SpanSplit(c, s + 1, s + 3 + n, s + 4 + n);
    SpanSplit(c, s + 1, s + 4 + n, s + 5 + n);
    assert StatementItems(Println(e), s) + [Done(16, b)] == ExprItems(e, s + 2, []) + [Done(20, s), Done(16, b)];
  }

  lemma DeleteWants(s: nat)
    ensures Wants(Elem(21, s, 1), LBRACK) && Wants(Elem(21, s, 2), RBRACK) && Wants(Elem(21, s, 3), EXPR)
    ensures Wants(Elem(21, s, 4), SEMI) && IsDone(Elem(21, s, 5)) && Elem(21, s, 5) == Done(21, s)
  {
    hide RuleAt;
    SimpleRules();
  }

  lemma DeleteLists(w: Form, c: Chart, s: nat, e: Expr, b: nat, z: Elem, t: Symbol)
    requires Traced(w, c) && StatementHere(c, s, b, z, t) && Reads(w, s, StatementYield(Delete(e)))
    ensures StatementListed(c, s, Delete(e), b, z, t)
  {
    hide RuleAt, Traced, ExprItems, ExprYield, Reads, Wanted, Wants, IsDone, BodyIsWanted, Span, IsSilent, AtLvalue;
    var n := |ExprYield(e)|;
    TraceLength(w, c);
    DeleteWants(s);
    ReadsWrapped(w, s, [DELETE, LBRACK, RBRACK], ExprYield(e), [SEMI]);
    ReadsOne(w, s, [DELETE, LBRACK, RBRACK], 1);
    ReadsOne(w, s, [DELETE, LBRACK, RBRACK], 2);
    assert Wanted(c, s, DELETE, {Elem(21, s, 0)}) by { assert Wanted(c, s, FirstOf(21), {Elem(21, s, 0)}); }
    TokenOpens(w, c, s + 1, Elem(21, s, 0), LBRACK);
    TokenOpens(w, c, s + 2, Elem(21, s, 1), RBRACK);
    ExprInside(w, c, s + 3, Elem(21, s, 2), SEMI, e);
    StatementEnds(w, c, s + 4 + n, Elem(21, s, 4), b, z, t);
    SilentSpan(c, s + 1);
    SilentSpan(c, s + 2);
    SpanSplit(c, s + 1, s + 2, s + 3);
    SpanSplit(c, s + 1, s + 3, s + 4 + n);
    SpanSplit(c, s + 1, s + 4 + n, s + 5 + n);
    assert StatementItems(Delete(e), s) + [Done(16, b)] == ExprItems(e, s + 3, []) + [Done(21, s), Done(16, b)];
  }

  // ----- nested bodies -----

  /** The lists of a body after its first one. */
  ghost predicate BodyListed(c: Chart, b: nat, stmts: seq<Statement>, z: Elem, t: Symbol) {
    var n := |BodyYield(stmts)|;
    b + n + 1 < |c| && [Done(15, b)] + Span(c, b + 1, b + n + 1) == BodyItems(stmts, b) && InBody(c, b + n, b, z, t)
  }

  lemma {:induction false} BodyIsListed(w: Form, c: Chart, tokens: seq<Token>, stmts: seq<Statement>, b: nat, z: Elem,
                                        t: Symbol)
    requires Traced(w, c) && BodyIsWanted(c, b, z, t) && InBody(c, b, b, z, t)
    requires Reads(w, b, BodyYield(stmts)) && BodySpelled(tokens, b, stmts)
    ensures BodyListed(c, b, stmts, z, t)
    decreases stmts, 1
  {
    hide RuleAt, Traced, BodyIsWanted, InBody, StatementYield, StatementItems, StatementSpelled, Reads, Wanted,
         StatementListed;
    if stmts == [] {
      TraceLength(w, c);
      NoStatements(w, c, b);
    } else {
      var front, last := stmts[..|stmts| - 1], stmts[|stmts| - 1];
      var m := b + |BodyYield(front)|;
      ReadsBoth(w, b, BodyYield(front), StatementYield(last));
      BodyIsListed(w, c, tokens, front, b, z, t);
      StatementIsListed(w, c, tokens, last, m, b, z, t);
      MoreStatements(c, b, stmts, z, t);
    }
  }

  lemma NoStatements(w: Form, c: Chart, b: nat)
    requires |c| == |w| + 1 && Reads(w, b, BodyYield([]))
    ensures b + 1 < |c| && Span(c, b + 1, b + 1) == []
  {
  }

  lemma MoreStatements(c: Chart, b: nat, stmts: seq<Statement>, z: Elem, t: Symbol)
    requires stmts != [] && BodyListed(c, b, stmts[..|stmts| - 1], z, t)
    requires StatementListed(c, b + |BodyYield(stmts[..|stmts| - 1])|, stmts[|stmts| - 1], b, z, t)
    ensures BodyListed(c, b, stmts, z, t)
  {
    hide Done, InBody, StatementYield, StatementItems, Span;
    var front, last := stmts[..|stmts| - 1], stmts[|stmts| - 1];
    var m := b + |BodyYield(front)|;
    SpanSplit(c, b + 1, m + 1, m + |StatementYield(last)| + 1);
    assert BodyItems(stmts, b) == BodyItems(front, b) + StatementItems(last, m) + [Done(16, b)];
    hide BodyItems;
    assert |BodyYield(stmts)| == |BodyYield(front)| + |StatementYield(last)|;
  }

  /** The token before b is q's: a body follows, and the token that ends it. */
  lemma {:induction false} BodyInside(w: Form, c: Chart, tokens: seq<Token>, b: nat, q: Elem, t: Symbol,
                                      stmts: seq<Statement>)
    requires Traced(w, c) && 0 < b < |w| && Wanted(c, b - 1, w[b - 1], {q})
    requires Wants(Advance(q), STATEMENTS) && Wants(Advance(Advance(q)), t) && (t == RETURN || t == RBRACE)
    requires Reads(w, b, BodyYield(stmts)) && BodySpelled(tokens, b, stmts)
    ensures var n := |BodyYield(stmts)|;
            b + n + 1 < |c| && Span(c, b, b + n + 1) == BodyItems(stmts, b) &&
              Wanted(c, b + n, t, {Advance(Advance(q))})
    decreases stmts, 2
  {
    hide RuleAt, Traced, BodyIsWanted, Reads, Wanted, Wants, BodyYield, BodyItems, BodySpelled, AtStatement;
    BodyOpens(w, c, b, q, t);
    BodyIsListed(w, c, tokens, stmts, b, Advance(q), t);
    SpanSplit(c, b, b + 1, b + |BodyYield(stmts)| + 1);
  }

  lemma {:induction false} StatementIsListed(w: Form, c: Chart, tokens: seq<Token>, st: Statement, s: nat, b: nat,
                                             z: Elem, t: Symbol)
    requires Traced(w, c) && StatementHere(c, s, b, z, t) && Reads(w, s, StatementYield(st)) &&
             StatementSpelled(tokens, s, st)
    ensures StatementListed(c, s, st, b, z, t)
    decreases st, 0
  {
    hide RuleAt, Traced, StatementHere, StatementListed, StatementYield, Reads;
    match st
    case Assign(l, e) => AssignLists(w, c, s, l, e, b, z, t);
    case Println(e) => PrintlnLists(w, c, s, e, b, z, t);
    case Delete(e) => DeleteLists(w, c, s, e, b, z, t);
    case While(test, body) => WhileLists(w, c, tokens, st, s, b, z, t);
    case If(test, onTrue, onFalse) => IfLists(w, c, tokens, st, s, b, z, t);
  }

  lemma BranchWants(r: nat, s: nat)
    requires 18 <= r <= 19
    ensures Wants(Elem(r, s, 1), LPAREN) && Wants(Elem(r, s, 2), TEST) && Wants(Elem(r, s, 3), RPAREN)
    ensures Wants(Elem(r, s, 4), LBRACE)
  {
    hide RuleAt;
    IfRule();
    WhileRule();
  }

  /** Up to the opening brace after the test of an if or a while. */
  lemma TestInside(w: Form, c: Chart, s: nat, r: nat, test: Test)
    requires Traced(w, c) && AtStatement(c, s) && 18 <= r <= 19 &&
             Reads(w, s, [FirstOf(r), LPAREN] + TestYield(test) + [RPAREN, LBRACE])
    requires IsComparison(test.op)
    ensures var m := s + |TestYield(test)| + 3;
            m + 1 < |c| && Span(c, s + 1, m + 1) == TestItems(test, s + 2) && w[m] == LBRACE &&
              Wanted(c, m, LBRACE, {Elem(r, s, 4)})
  {
    hide RuleAt, Traced, TestYield, TestItems, Reads, Wanted, Wants, IsSilent, Span, AtLvalue;
    var n := |TestYield(test)|;
    TraceLength(w, c);
    BranchWants(r, s);
    ReadsWrapped(w, s, [FirstOf(r), LPAREN], TestYield(test), [RPAREN, LBRACE]);
    ReadsOne(w, s, [FirstOf(r), LPAREN], 1);
    ReadsOne(w, s + 2 + n, [RPAREN, LBRACE], 1);
    TokenOpens(w, c, s + 1, Elem(r, s, 0), LPAREN);
    TestLists(w, c, s + 2, Elem(r, s, 1), test);
    TokenOpens(w, c, s + 3 + n, Elem(r, s, 3), LBRACE);
    SilentSpan(c, s + 1);
    SilentSpan(c, s + 3 + n);
    SpanSplit(c, s + 1, s + 2, s + 3 + n);
    SpanSplit(c, s + 1, s + 3 + n, s + 4 + n);
  }

  lemma {:induction false} WhileLists(w: Form, c: Chart, tokens: seq<Token>, st: Statement, s: nat, b: nat, z: Elem,
                                      t: Symbol)
    requires st.While?
    requires Traced(w, c) && StatementHere(c, s, b, z, t) && Reads(w, s, StatementYield(st)) &&
             StatementSpelled(tokens, s, st)
    ensures StatementListed(c, s, st, b, z, t)
    decreases st, -1
  {
    hide RuleAt, IsTraced, TestYield, TestItems, BodyYield, BodyItems, Reads, Wanted, IsSilent, Span, BodySpelled,
         BodyIsWanted, AtStatement;
    var test, body := st.test, st.body;
    var b1 := s + |TestYield(test)| + 4;
    var m := b1 + |BodyYield(body)|;
    WhileRule();
    var pre := [WHILE, LPAREN] + TestYield(test) + [RPAREN, LBRACE];
    assert StatementYield(st) == pre + BodyYield(body) + [RBRACE];
    ReadsWrapped(w, s, pre, BodyYield(body), [RBRACE]);
    TestInside(w, c, s, 19, test);
    BodyInside(w, c, tokens, b1, Elem(19, s, 4), RBRACE, body);
    StatementEnds(w, c, m + 1, Elem(19, s, 6), b, z, t);
    SpanSplit(c, s + 1, b1, m + 1);
    SpanSplit(c, s + 1, m + 1, m + 2);
    assert StatementItems(st, s) + [Done(16, b)] ==
           TestItems(test, s + 2) + BodyItems(body, b1) + [Done(19, s), Done(16, b)];
  }

  lemma IfWants(s: nat)
    ensures Wants(Elem(18, s, 5), STATEMENTS) && Wants(Elem(18, s, 6), RBRACE) && Wants(Elem(18, s, 7), ELSE) &&
            Wants(Elem(18, s, 8), LBRACE)
    ensures Wants(Elem(18, s, 9), STATEMENTS) && Wants(Elem(18, s, 10), RBRACE) && IsDone(Elem(18, s, 11)) &&
            Elem(18, s, 11) == Done(18, s)
  {
    hide RuleAt;
    IfRule();
  }

  lemma StatementStarts(c: Chart, s: nat, b: nat, z: Elem, t: Symbol)
    requires StatementHere(c, s, b, z, t)
    ensures AtStatement(c, s) && Wanted(c, s, STATEMENT, {Elem(16, b, 1)}) && BodyIsWanted(c, b, z, t) && b <= s
  {
    hide RuleAt, AtStatement, BodyIsWanted, Wanted;
  }

  lemma {:induction false} IfLists(w: Form, c: Chart, tokens: seq<Token>, st: Statement, s: nat, b: nat, z: Elem,
                                   t: Symbol)
    requires st.If?
    requires Traced(w, c) && StatementHere(c, s, b, z, t) && Reads(w, s, StatementYield(st)) &&
             StatementSpelled(tokens, s, st)
    ensures StatementListed(c, s, st, b, z, t)
    decreases st, -1
  {
    hide RuleAt, Traced, Wants, IsDone, StatementListed, StatementHere, InBody, Done, TestYield, TestItems, BodyYield,
         BodyItems, Reads, Wanted, IsSilent, Span, BodySpelled, BodyIsWanted, AtStatement;
    var test, yes, no := st.test, st.onTrue, st.onFalse;
    var b1 := s + |TestYield(test)| + 4;
    var m1 := b1 + |BodyYield(yes)|;
    var b2 := m1 + 3;
    var m2 := b2 + |BodyYield(no)|;
    IfWants(s);
    StatementStarts(c, s, b, z, t);
    var pre, mid := [IF, LPAREN] + TestYield(test) + [RPAREN, LBRACE], [RBRACE, ELSE, LBRACE];
    assert StatementYield(st) == pre + BodyYield(yes) + (mid + BodyYield(no) + [RBRACE]);
    ReadsWrapped(w, s, pre, BodyYield(yes), mid + BodyYield(no) + [RBRACE]);
    ReadsWrapped(w, m1, mid, BodyYield(no), [RBRACE]);
    ReadsOne(w, m1, mid, 1);
    ReadsOne(w, m1, mid, 2);
    TestInside(w, c, s, 18, test);
    BodyInside(w, c, tokens, b1, Elem(18, s, 4), RBRACE, yes);
    TokenOpens(w, c, m1 + 1, Elem(18, s, 6), ELSE);
    TokenOpens(w, c, m1 + 2, Elem(18, s, 7), LBRACE);
    BodyInside(w, c, tokens, b2, Elem(18, s, 8), RBRACE, no);
    StatementEnds(w, c, m2 + 1, Elem(18, s, 10), b, z, t);
    TraceLength(w, c);
    IfIsListed(c, s, st, b, z, t);
  }

  lemma IfIsListed(c: Chart, s: nat, st: Statement, b: nat, z: Elem, t: Symbol)
    requires st.If?
    requires var b1 := s + |TestYield(st.test)| + 4; var m1 := b1 + |BodyYield(st.onTrue)|; var b2 := m1 + 3;
             var m2 := b2 + |BodyYield(st.onFalse)|;
             && m2 + 2 < |c| && Span(c, s + 1, b1) == TestItems(st.test, s + 2) &&
                Span(c, b1, m1 + 1) == BodyItems(st.onTrue, b1)
             && IsSilent(c, m1 + 1) && IsSilent(c, m1 + 2) && Span(c, b2, m2 + 1) == BodyItems(st.onFalse, b2)
             && Span(c, m2 + 1, m2 + 2) == [Done(18, s), Done(16, b)] && InBody(c, m2 + 1, b, z, t)
    ensures StatementListed(c, s, st, b, z, t)
  {
    hide RuleAt, Done, TestYield, TestItems, BodyYield, BodyItems, IsSilent, Span, InBody;
    var b1 := s + |TestYield(st.test)| + 4;
    var m1 := b1 + |BodyYield(st.onTrue)|;
    var b2 := m1 + 3;
    var m2 := b2 + |BodyYield(st.onFalse)|;
    SilentSpan(c, m1 + 1);
    SilentSpan(c, m1 + 2);
    SpanSplit(c, s + 1, b1, m1 + 1);
    SpanSplit(c, s + 1, m1 + 1, m1 + 2);
    SpanSplit(c, s + 1, m1 + 2, b2);
    SpanSplit(c, s + 1, b2, m2 + 1);
    SpanSplit(c, s + 1, m2 + 1, m2 + 2);
    IfItemsJoin(st, s, b);
  }

  lemma IfItemsJoin(st: Statement, s: nat, b: nat)
    requires st.If?
    ensures var b1 := s + |TestYield(st.test)| + 4; var b2 := b1 + |BodyYield(st.onTrue)| + 3;
            StatementItems(st, s) + [Done(16, b)] ==
            TestItems(st.test, s + 2) + BodyItems(st.onTrue, b1) + BodyItems(st.onFalse, b2) +
              [Done(18, s), Done(16, b)]
  {
    hide RuleAt, Done, TestYield, TestItems, BodyYield, BodyItems;
  }
}
