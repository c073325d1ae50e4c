/** Lists where an expression or a part of one is about to start. */
module Operands {
  import opened Symbols
  import opened Grammar
  import opened Earley
  import opened Charts
  import opened Wlp4Grammar
  import opened FinalChart
  import opened Traces
  import opened Lists
  import opened Openings
  import opened Items

  // ----- left sides and first symbols -----

  function LeftOf(r: nat): Symbol {
    if r == 0 then START else if r <= 2 then PROCEDURES else if r == 3 then PROCEDURE else if r == 4 then MAIN
    else if r <= 6 then PARAMS else if r <= 8 then PARAMLIST else if r <= 10 then TYPE else if r <= 13 then DCLS
    else if r == 14 then DCL else if r <= 16 then STATEMENTS else if r <= 21 then STATEMENT else if r <= 27 then TEST
    else if r <= 30 then EXPR else if r <= 34 then TERM else if r <= 43 then FACTOR
    else if r <= 45 then ARGLIST else LVALUE
  }

  /** The first symbol of a rule for a part of an expression, a statement or a test. */
  function FirstOf(r: nat): Symbol {
    if r == 17 then LVALUE else if r == 18 then IF else if r == 19 then WHILE else if r == 20 then PRINTLN
    else if r == 21 then DELETE else if r == 28 || 32 <= r <= 34 then TERM else if r == 31 then FACTOR
    else if r == 35 || r == 42 || r == 43 || r == 46 then ID else if r == 36 then NUM else if r == 37 then NULL
    else if r == 38 || r >= 48 then LPAREN else if r == 39 then AMP else if r == 40 || r == 47 then STAR
    else if r == 41 then NEW else EXPR
  }

  lemma LeftSides(r: nat)
    requires r < 49
    ensures RuleAt(r).lhs == LeftOf(r)
  {
  }

  lemma FirstSymbols(r: nat)
    requires 17 <= r < 49
    ensures RuleAt(r).rhs != [] && RuleAt(r).rhs[0] == FirstOf(r)
  {
  }

  // ----- what starts with a symbol -----

  /** The left sides of what is predicted where a symbol is wanted. */
  function Below(a: Symbol): set<Symbol> {
    if a == TERM then {TERM, FACTOR}
    else if a == EXPR then {EXPR, TERM, FACTOR}
    else if a == ARGLIST || a == TEST then {a, EXPR, TERM, FACTOR}
    else {a}
  }

  predicate IsOperand(a: Symbol) {
    a in {FACTOR, TERM, EXPR, ARGLIST, TEST, LVALUE}
  }

  lemma BelowIsTidy(a: Symbol)
    requires IsOperand(a)
    ensures IsTidy(Below(a))
  {
    hide RuleAt;
    forall r: nat | r < 49 && RuleAt(r).lhs in Below(a)
      ensures RuleAt(r).rhs != [] && (IsTerminal(RuleAt(r).rhs[0]) || RuleAt(r).rhs[0] in Below(a))
    {
      LeftSides(r);
      FirstSymbols(r);
    }
  }

  /** The items scanned from xs want a or a token that no operand starts with. */
  ghost predicate Await(xs: set<Elem>, a: Symbol) {
    && (forall q, t :: q in xs && Wants(Advance(q), t) ==> t == a || (IsTerminal(t) && !IsOperandToken(t)))
    && (forall q :: q in xs ==> !IsDone(Advance(q)))
    && exists q :: q in xs && Wants(Advance(q), a)
  }

  predicate IsOperandToken(t: Symbol) {
    t in {ID, NUM, NULL, LPAREN, AMP, STAR, NEW}
  }

  /** List m, scanned from xs, starts an a. */
  ghost predicate Starts(c: Chart, m: nat, xs: set<Elem>, a: Symbol) {
    && ScannedFrom(c, m, xs)
    && Await(xs, a)
    && (forall e, t :: e in c[m] && Wants(e, t) ==>
                         e in Moved(xs) || (e.dot == 0 && e.start == m && LeftOf(e.rule) in Below(a)))
    && (forall r: nat :: r < 49 && LeftOf(r) in Below(a) ==> Elem(r, m, 0) in c[m])
  }

  lemma PredictedRules(w: Form, c: Chart, m: nat, e: Elem, a: Symbol)
    requires Traced(w, c) && m < |w| && e in c[m] && Wants(e, a)
    ensures forall r: nat :: r < 49 && LeftOf(r) == a ==> Elem(r, m, 0) in c[m]
  {
    hide RuleAt, IsTraced;
    forall r: nat | r < 49 && LeftOf(r) == a
      ensures Elem(r, m, 0) in c[m]
    {
      LeftSides(r);
      Predicted(w, c, m, e, r);
    }
  }

  lemma FirstIsWanted(r: nat, m: nat)
    requires 17 <= r < 49
    ensures Wants(Elem(r, m, 0), FirstOf(r))
    ensures forall t :: Wants(Elem(r, m, 0), t) ==> t == FirstOf(r)
  {
    hide RuleAt;
    FirstSymbols(r);
  }

  lemma PredictedBelow(w: Form, c: Chart, m: nat, e: Elem, a: Symbol)
    requires Traced(w, c) && m < |w| && e in c[m] && Wants(e, a) && IsOperand(a)
    ensures forall r: nat :: r < 49 && LeftOf(r) in Below(a) ==> Elem(r, m, 0) in c[m]
  {
    hide RuleAt, IsTraced, Wants;
    PredictedRules(w, c, m, e, a);
    var first := if a == ARGLIST then 44 else if a == TEST then 22 else 28;
    if a == ARGLIST || a == TEST {
      FirstIsWanted(first, m);
      PredictedRules(w, c, m, Elem(first, m, 0), EXPR);
    }
    if a in {ARGLIST, TEST, EXPR} {
      FirstIsWanted(28, m);
      PredictedRules(w, c, m, Elem(28, m, 0), TERM);
    }
    if a in {ARGLIST, TEST, EXPR, TERM} {
      FirstIsWanted(31, m);
      PredictedRules(w, c, m, Elem(31, m, 0), FACTOR);
    }
  }

  lemma Start(w: Form, c: Chart, m: nat, xs: set<Elem>, a: Symbol)
    requires Traced(w, c) && 0 < m < |w| && ScannedFrom(c, m, xs) && Await(xs, a) && IsOperand(a)
    ensures Starts(c, m, xs, a) && IsSilent(c, m)
  {
    hide RuleAt, IsTraced, Wants, IsTidy, IsDone;
    BelowIsTidy(a);
    OpenList(w, c, m, xs, Below(a));
    var q :| q in xs && Wants(Advance(q), a);
    PredictedBelow(w, c, m, Advance(q), a);
    forall e, t | e in c[m] && Wants(e, t)
      ensures e in Moved(xs) || (e.dot == 0 && e.start == m && LeftOf(e.rule) in Below(a))
    {
      if e !in Moved(xs) {
        LeftSides(e.rule);
      }
    }
  }

  /** A predicted item at m, below a, whose first symbol is t. */
  predicate IsFirst(e: Elem, m: nat, a: Symbol, t: Symbol) {
    e.dot == 0 && e.start == m && 17 <= e.rule < 49 && LeftOf(e.rule) in Below(a) && FirstOf(e.rule) == t
  }

  lemma WantedFirst(c: Chart, m: nat, xs: set<Elem>, a: Symbol, t: Symbol)
    requires Starts(c, m, xs, a) && IsOperand(a) && t != a && (IsTerminal(t) ==> IsOperandToken(t))
    ensures m < |c| && forall e :: e in c[m] && Wants(e, t) <==> IsFirst(e, m, a, t)
  {
    hide RuleAt;
    forall e
      ensures e in c[m] && Wants(e, t) <==> IsFirst(e, m, a, t)
    {
      if e.dot == 0 && 17 <= e.rule < 49 {
        FirstIsWanted(e.rule, e.start);
      }
      assert e in Moved(xs) ==> Advance(Retreat(e)) == e;
    }
  }

  /** What wants a itself: the item that was scanned, and predicted ones. */
  lemma WantedItself(c: Chart, m: nat, xs: set<Elem>, a: Symbol, q: Elem)
    requires Starts(c, m, xs, a) && IsOperand(a) && q in xs && Wants(Advance(q), a)
    requires forall p :: p in xs && Wants(Advance(p), a) ==> p == q
    ensures m < |c| && forall e :: e in c[m] && Wants(e, a) <==> e == Advance(q) || IsFirst(e, m, a, a)
  {
    hide RuleAt;
    forall e
      ensures e in c[m] && Wants(e, a) <==> e == Advance(q) || IsFirst(e, m, a, a)
    {
      if e.dot == 0 && 17 <= e.rule < 49 {
        FirstIsWanted(e.rule, e.start);
      }
      assert e in Moved(xs) ==> Advance(Retreat(e)) == e;
    }
  }

  // ----- places in expressions -----

  /** A factor may start at s: nothing but rules for factors wants a token that one starts with. */
  ghost predicate AtFactor(c: Chart, s: nat) {
    && s < |c|
    && (forall e, t :: e in c[s] && Wants(e, t) && IsOperandToken(t) ==>
                         e.dot == 0 && e.start == s && 35 <= e.rule <= 43)
    && (forall r: nat :: 35 <= r <= 43 ==> Elem(r, s, 0) in c[s])
  }

  /** The rules by which a term goes on. */
  function Products(s: nat): set<Elem> {
    {Elem(32, s, 0), Elem(33, s, 0), Elem(34, s, 0)}
  }

  /** The rules by which an expression goes on. */
  function Sums(s: nat): set<Elem> {
    {Elem(29, s, 0), Elem(30, s, 0)}
  }

  /** A term may start at s, and q or rules by which terms go on are what waits for it. */
  ghost predicate AtTerm(c: Chart, s: nat, q: Elem) {
    AtFactor(c, s) && Wanted(c, s, TERM, {q} + Products(s)) && Wanted(c, s, FACTOR, {Elem(31, s, 0)})
  }

  /** An expression may start at s. */
  ghost predicate AtExpr(c: Chart, s: nat) {
    AtTerm(c, s, Elem(28, s, 0))
  }

  ghost predicate AtLvalue(c: Chart, s: nat) {
    && s < |c|
    && (forall e, t :: e in c[s] && Wants(e, t) && t in {ID, STAR, LPAREN} ==>
                         e.dot == 0 && e.start == s && 46 <= e.rule <= 48)
    && (forall r: nat :: 46 <= r <= 48 ==> Elem(r, s, 0) in c[s])
  }

  lemma StartsFactor(c: Chart, m: nat, xs: set<Elem>, a: Symbol)
    requires Starts(c, m, xs, a) && IsOperand(a) && a != LVALUE
    ensures AtFactor(c, m)
  {
    hide RuleAt;
    forall e, t | e in c[m] && Wants(e, t) && IsOperandToken(t)
      ensures e.dot == 0 && e.start == m && 35 <= e.rule <= 43
    {
      WantedFirst(c, m, xs, a, t);
    }
  }

  lemma StartsLvalue(c: Chart, m: nat, xs: set<Elem>)
    requires Starts(c, m, xs, LVALUE)
    ensures AtLvalue(c, m)
  {
    hide RuleAt;
    forall e, t | e in c[m] && Wants(e, t) && t in {ID, STAR, LPAREN}
      ensures e.dot == 0 && e.start == m && 46 <= e.rule <= 48
    {
      WantedFirst(c, m, xs, LVALUE, t);
    }
  }

  lemma StartsExpr(c: Chart, m: nat, xs: set<Elem>, a: Symbol)
    requires Starts(c, m, xs, a) && a in {EXPR, ARGLIST, TEST}
    ensures AtExpr(c, m)
  {
    hide RuleAt, Starts, AtFactor;
    StartsFactor(c, m, xs, a);
    WantedFirst(c, m, xs, a, TERM);
    WantedFirst(c, m, xs, a, FACTOR);
  }

  lemma StartsTerm(c: Chart, m: nat, q: Elem)
    requires Starts(c, m, {q}, TERM)
    ensures AtTerm(c, m, Advance(q))
  {
    hide RuleAt, AtFactor;
    StartsFactor(c, m, {q}, TERM);
    WantedItself(c, m, {q}, TERM, q);
    WantedFirst(c, m, {q}, TERM, FACTOR);
  }

  lemma ExprIsWanted(c: Chart, m: nat, q: Elem)
    requires Starts(c, m, {q}, EXPR)
    ensures Wanted(c, m, EXPR, {Advance(q)} + Sums(m))
  {
    hide RuleAt;
    WantedItself(c, m, {q}, EXPR, q);
  }

  lemma ArgsWantExpr(c: Chart, m: nat, xs: set<Elem>)
    requires Starts(c, m, xs, ARGLIST)
    ensures Wanted(c, m, EXPR, {Elem(44, m, 0), Elem(45, m, 0)} + Sums(m))
  {
    hide RuleAt, Starts, Wants;
    WantedFirst(c, m, xs, ARGLIST, EXPR);
  }

  lemma TestsWantExpr(c: Chart, m: nat, xs: set<Elem>)
    requires Starts(c, m, xs, TEST)
    ensures Wanted(c, m, EXPR, (set r: nat | 22 <= r <= 27 :: Elem(r, m, 0)) + Sums(m))
  {
    hide RuleAt, Starts, Wants;
    WantedFirst(c, m, xs, TEST, EXPR);
  }

  /** What wants a symbol that no predicted rule starts with. */
  lemma OneIsWanted(c: Chart, m: nat, xs: set<Elem>, a: Symbol, q: Elem)
    requires Starts(c, m, xs, a) && a in {FACTOR, ARGLIST, TEST, LVALUE} && q in xs && Wants(Advance(q), a)
    requires forall p :: p in xs && Wants(Advance(p), a) ==> p == q
    ensures Wanted(c, m, a, {Advance(q)})
  {
    hide RuleAt, Starts, Wants;
    WantedItself(c, m, xs, a, q);
  }
}
