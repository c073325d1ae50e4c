/** What an Earley chart should hold, and why a chart closed under the recogniser's steps holds all of it. */
module Earley {
  import opened Symbols
  import opened Grammar

  /** A rule, the input position where its match began, and the position reached in its right-hand side. */
  datatype Elem = Elem(rule: nat, start: nat, dot: nat)

  type Chart = seq<seq<Elem>>

  predicate InGrammar(g: Cfg, e: Elem) {
    e.rule < |g| && e.dot <= |g[e.rule].rhs|
  }

  predicate IsComplete(g: Cfg, e: Elem) {
    e.rule < |g| && e.dot == |g[e.rule].rhs|
  }

  function NextSymbol(g: Cfg, e: Elem): Symbol
    requires InGrammar(g, e) && !IsComplete(g, e)
  {
    g[e.rule].rhs[e.dot]
  }

  predicate Awaits(g: Cfg, e: Elem, x: Symbol) {
    InGrammar(g, e) && !IsComplete(g, e) && NextSymbol(g, e) == x
  }

  function Advance(e: Elem): Elem {
    e.(dot := e.dot + 1)
  }

  /** The hypotheses on the rule table: rule 0 is the only start rule, and nullability is visible in one rule. */
  ghost predicate Admissible(g: Cfg) {
    && |g| > 0
    && TerminalsAreFixed(g)
    && (forall r: nat :: 0 < r < |g| ==> g[r].lhs != g[0].lhs)
    && (forall a: Symbol :: Derives(g, [a], []) ==> HasEmptyRule(g, a))
  }

  /** The words from which a sentential form can still be reached. */
  ghost predicate Viable(g: Cfg, w: Form)
    requires |g| > 0
  {
    exists rest: Form :: Derives(g, [g[0].lhs], w + rest)
  }

  lemma ViablePrefix(g: Cfg, w: Form, i: nat)
    requires |g| > 0 && i <= |w| && Viable(g, w)
    ensures Viable(g, w[..i])
  {
    var rest: Form :| Derives(g, [g[0].lhs], w + rest);
    assert w[..i] + (w[i..] + rest) == w + rest;
  }

  /** Symbol a can follow the first s tokens. */
  ghost predicate CanFollow(g: Cfg, input: Form, a: Symbol, s: nat)
    requires |g| > 0 && s <= |input|
  {
    exists rest: Form :: Derives(g, [g[0].lhs], input[..s] + [a] + rest)
  }

  /** The declarative meaning of "e belongs in list k". */
  ghost predicate Belongs(g: Cfg, input: Form, e: Elem, k: nat)
    requires |g| > 0
  {
    && InGrammar(g, e)
    && e.start <= k <= |input|
    && Derives(g, g[e.rule].rhs[..e.dot], input[e.start..k])
    && CanFollow(g, input, g[e.rule].lhs, e.start)
  }

  // ----- soundness: each way of adding an item keeps it true -----

  lemma InitialIsValid(g: Cfg, input: Form)
    requires |g| > 0
    ensures Belongs(g, input, Elem(0, 0, 0), 0)
  {
    DerivesRefl(g, []);
    DerivesRefl(g, [g[0].lhs]);
    assert input[..0] + [g[0].lhs] + [] == [g[0].lhs];
    assert g[0].rhs[..0] == [] == input[0..0];
  }

  /** What follows the start of a valid item, with the item's rule applied and its matched part rewritten. */
  lemma ValidContext(g: Cfg, input: Form, e: Elem, k: nat) returns (rest: Form)
    requires |g| > 0 && Belongs(g, input, e, k)
    ensures Derives(g, [g[0].lhs], input[..k] + g[e.rule].rhs[e.dot..] + rest)
  {
    var s, rhs := e.start, g[e.rule].rhs;
    rest :| Derives(g, [g[0].lhs], input[..s] + [g[e.rule].lhs] + rest);
    DerivesByRule(g, e.rule);
    DerivesContext(g, input[..s], [g[e.rule].lhs], rhs, rest);
    DerivesTrans(g, [g[0].lhs], input[..s] + [g[e.rule].lhs] + rest, input[..s] + rhs + rest);
    DerivesContext(g, input[..s], rhs[..e.dot], input[s..k], rhs[e.dot..] + rest);
    assert input[..s] + rhs[..e.dot] + (rhs[e.dot..] + rest) == input[..s] + rhs + rest;
    assert input[..s] + input[s..k] + (rhs[e.dot..] + rest) == input[..k] + rhs[e.dot..] + rest;
    DerivesTrans(g, [g[0].lhs], input[..s] + rhs + rest, input[..k] + rhs[e.dot..] + rest);
  }

  lemma ValidMeansViable(g: Cfg, input: Form, e: Elem, k: nat)
    requires |g| > 0 && Belongs(g, input, e, k)
    ensures Viable(g, input[..k])
  {
    var rest := ValidContext(g, input, e, k);
    assert input[..k] + (g[e.rule].rhs[e.dot..] + rest) == input[..k] + g[e.rule].rhs[e.dot..] + rest;
  }

  lemma PredictedIsValid(g: Cfg, input: Form, e: Elem, k: nat, r: nat)
    requires |g| > 0 && Belongs(g, input, e, k) && r < |g| && Awaits(g, e, g[r].lhs)
    ensures Belongs(g, input, Elem(r, k, 0), k)
  {
    var rest := ValidContext(g, input, e, k);
    var rhs := g[e.rule].rhs;
    assert input[..k] + [g[r].lhs] + (rhs[e.dot + 1..] + rest) == input[..k] + rhs[e.dot..] + rest;
    DerivesRefl(g, []);
    assert g[r].rhs[..0] == [] == input[k..k];
  }

  /** Moving over a symbol that derives the tokens from j to k. */
  lemma AdvancedIsValid(g: Cfg, input: Form, e: Elem, j: nat, x: Symbol, k: nat)
    requires |g| > 0 && Belongs(g, input, e, j) && Awaits(g, e, x)
    requires j <= k <= |input| && Derives(g, [x], input[j..k])
    ensures Belongs(g, input, Advance(e), k)
  {
    DerivesBeside(g, g[e.rule].rhs[..e.dot], input[e.start..j], [x], input[j..k]);
    assert g[e.rule].rhs[..e.dot] + [x] == g[e.rule].rhs[..e.dot + 1];
    assert input[e.start..j] + input[j..k] == input[e.start..k];
  }

  lemma ScannedIsValid(g: Cfg, input: Form, e: Elem, k: nat)
    requires |g| > 0 && Belongs(g, input, e, k) && k < |input| && Awaits(g, e, input[k])
    ensures Belongs(g, input, Advance(e), k + 1)
  {
    DerivesRefl(g, [input[k]]);
    assert input[k..k + 1] == [input[k]];
    AdvancedIsValid(g, input, e, k, input[k], k + 1);
  }

  lemma SkippedIsValid(g: Cfg, input: Form, e: Elem, k: nat, x: Symbol)
    requires |g| > 0 && Belongs(g, input, e, k) && Awaits(g, e, x) && HasEmptyRule(g, x)
    ensures Belongs(g, input, Advance(e), k)
  {
    var r: nat :| r < |g| && g[r].lhs == x && g[r].rhs == [];
    DerivesByRule(g, r);
    assert input[k..k] == [];
    AdvancedIsValid(g, input, e, k, x, k);
  }

  lemma CompletedIsValid(g: Cfg, input: Form, e: Elem, done: Elem, k: nat)
    requires |g| > 0 && Belongs(g, input, done, k) && IsComplete(g, done)
    requires Belongs(g, input, e, done.start) && Awaits(g, e, g[done.rule].lhs)
    ensures Belongs(g, input, Advance(e), k)
  {
    var x, rhs := g[done.rule].lhs, g[done.rule].rhs;
    DerivesByRule(g, done.rule);
    assert rhs[..done.dot] == rhs;
    DerivesTrans(g, [x], rhs, input[done.start..k]);
    AdvancedIsValid(g, input, e, done.start, x, k);
  }

  // ----- completeness: a closed chart holds every item that belongs -----

  /** Everything item e of list k calls for has been added to the chart. */
  ghost predicate Settled(g: Cfg, input: Form, c: Chart, k: nat, e: Elem)
    requires k < |c|
  {
    && InGrammar(g, e)
    && e.start <= k
    && if IsComplete(g, e) then
         e.start < k ==> forall p :: p in c[e.start] && Awaits(g, p, g[e.rule].lhs) ==> Advance(p) in c[k]
       else if IsTerminal(NextSymbol(g, e)) then
         k < |input| && NextSymbol(g, e) == input[k] ==> k + 1 < |c| && Advance(e) in c[k + 1]
       else
         && (forall r: nat :: r < |g| && g[r].lhs == NextSymbol(g, e) ==> Elem(r, k, 0) in c[k])
         && (HasEmptyRule(g, NextSymbol(g, e)) ==> Advance(e) in c[k])
  }

  ghost predicate ClosedBelow(g: Cfg, input: Form, c: Chart, n: nat) {
    && n <= |c|
    && (n > 0 ==> Elem(0, 0, 0) in c[0])
    && forall k: nat, e: Elem :: k < n && e in c[k] ==> Settled(g, input, c, k, e)
  }

  /** Cutting input[j..k] + tail after n symbols, inside the input or inside the tail. */
  lemma CutYield(input: Form, j: nat, k: nat, tail: Form, z1: Form, z2: Form)
    requires j <= k <= |input| && z1 + z2 == input[j..k] + tail
    ensures |z1| <= k - j ==> z1 == input[j..j + |z1|] && z2 == input[j + |z1|..k] + tail
    ensures |z1| > k - j ==> z1 == input[j..k] + tail[..|z1| - (k - j)]
  {
    var z := z1 + z2;
    assert z[..|z1|] == z1 && z[|z1|..] == z2;
    if |z1| <= k - j {
      assert z[..|z1|] == input[j..k][..|z1|] == input[j..j + |z1|];
      assert z[|z1|..] == input[j..k][|z1|..] + tail && input[j..k][|z1|..] == input[j + |z1|..k];
    } else {
      assert z[..|z1|] == input[j..k] + tail[..|z1| - (k - j)];
    }
  }

  /** Where the yield of x ends in a derivation of input[j..k] + tail from x and then y. */
  lemma SplitYield(g: Cfg, x: Symbol, y: Form, input: Form, j: nat, k: nat, tail: Form, steps: nat)
      returns (within: bool, mid: nat, tail': Form, n1: nat, n2: nat)
    requires j <= k <= |input| && DerivesIn(g, [x] + y, input[j..k] + tail, steps)
    ensures n1 + n2 == steps
    ensures within ==> j <= mid <= k
    ensures within ==> DerivesIn(g, [x], input[j..mid], n1) && DerivesIn(g, y, input[mid..k] + tail, n2)
    ensures !within ==> |tail'| > 0 && tail' <= tail && DerivesIn(g, [x], input[j..k] + tail', n1)
  {
    var z1, z2;
    z1, z2, n1, n2 := SplitDerivation(g, [x], y, input[j..k] + tail, steps);
    CutYield(input, j, k, tail, z1, z2);
    within := |z1| <= k - j;
    mid := j + |z1|;
    tail' := if within then [] else tail[..|z1| - (k - j)];
  }

  /** If the symbols up to dot position t derive the tokens from j to k, the item moves from list j to list k. */
  lemma {:induction false} ItemAdvances(g: Cfg, input: Form, c: Chart, n: nat, e: Elem, j: nat, t: nat, k: nat,
                                        steps: nat)
    requires Admissible(g) && AllTerminals(input) && ClosedBelow(g, input, c, n)
    requires j <= k < n <= |input| && e in c[j]
    requires InGrammar(g, e) && e.dot <= t <= |g[e.rule].rhs|
    requires DerivesIn(g, g[e.rule].rhs[e.dot..t], input[j..k], steps)
    ensures e.(dot := t) in c[k]
    decreases steps, t - e.dot + 1
  {
    assert Settled(g, input, c, j, e);
    var rhs := g[e.rule].rhs;
    if e.dot == t {
      TerminalsStay(g, rhs[e.dot..t], input[j..k], steps);
    } else {
      var x, y := rhs[e.dot], rhs[e.dot + 1..t];
      assert rhs[e.dot..t] == [x] + y && input[j..k] + [] == input[j..k];
      var within, mid, tail, n1, n2 := SplitYield(g, x, y, input, j, k, [], steps);
      assert within && input[mid..k] + [] == input[mid..k];
      ItemCrosses(g, input, c, n, e, j, mid, n1);
      ItemAdvances(g, input, c, n, Advance(e), mid, t, k, n2);
    }
  }

  /** The one-symbol case of ItemAdvances: a scan, a shortcut over a nullable symbol, or a completion. */
  lemma {:induction false} ItemCrosses(g: Cfg, input: Form, c: Chart, n: nat, e: Elem, j: nat, mid: nat, steps: nat)
    requires Admissible(g) && AllTerminals(input) && ClosedBelow(g, input, c, n)
    requires j <= mid < n <= |input| && e in c[j] && InGrammar(g, e) && !IsComplete(g, e)
    requires DerivesIn(g, [NextSymbol(g, e)], input[j..mid], steps)
    ensures Advance(e) in c[mid]
    decreases steps, 0
  {
    assert Settled(g, input, c, j, e);
    var x := NextSymbol(g, e);
    if IsTerminal(x) {
      TerminalsStay(g, [x], input[j..mid], steps);
      assert input[j] == input[j..mid][0];
    } else {
      assert AllTerminals(input[j..mid]) && !IsTerminal([x][0]);
      var r := FirstRule(g, x, input[j..mid], steps);
      var rhs := g[r].rhs;
      assert rhs[0..|rhs|] == rhs;
      ItemAdvances(g, input, c, n, Elem(r, j, 0), j, |rhs|, mid, steps - 1);
      assert Settled(g, input, c, mid, Elem(r, j, |rhs|));
      if mid == j {
        assert Derives(g, [x], []);
      }
    }
  }

  /** If the rest of an item derives the tokens up to k and then symbol a, some item of list k awaits a. */
  lemma {:induction false} ItemExposes(g: Cfg, input: Form, c: Chart, n: nat, e: Elem, j: nat, k: nat, a: Symbol,
                                       rest: Form, steps: nat)
      returns (q: Elem)
    requires Admissible(g) && AllTerminals(input) && ClosedBelow(g, input, c, n)
    requires j <= k < n <= |input| && e in c[j] && InGrammar(g, e)
    requires DerivesIn(g, g[e.rule].rhs[e.dot..], input[j..k] + ([a] + rest), steps)
    ensures q in c[k] && Awaits(g, q, a)
    decreases steps, |g[e.rule].rhs| - e.dot + 1
  {
    var z := input[j..k] + ([a] + rest);
    if IsComplete(g, e) {
      TerminalsStay(g, [], z, steps);
      assert false;
    }
    var x, y := NextSymbol(g, e), g[e.rule].rhs[e.dot + 1..];
    assert g[e.rule].rhs[e.dot..] == [x] + y;
    var within, mid, tail', n1, n2 := SplitYield(g, x, y, input, j, k, [a] + rest, steps);
    if within {
      ItemCrosses(g, input, c, n, e, j, mid, n1);
      q := ItemExposes(g, input, c, n, Advance(e), mid, k, a, rest, n2);
    } else if n1 == 0 {
      assert (input[j..k] + tail')[k - j] == a;
      q := e;
    } else {
      q := ItemExposesBelow(g, input, c, n, e, j, k, a, tail', n1);
    }
  }

  /** The case of ItemExposes where a lies inside the yield of the item's next symbol. */
  lemma {:induction false} ItemExposesBelow(g: Cfg, input: Form, c: Chart, n: nat, e: Elem, j: nat, k: nat, a: Symbol,
                                            tail: Form, steps: nat)
      returns (q: Elem)
    requires Admissible(g) && AllTerminals(input) && ClosedBelow(g, input, c, n)
    requires j <= k < n <= |input| && e in c[j] && InGrammar(g, e) && !IsComplete(g, e)
    requires steps > 0 && |tail| > 0 && tail[0] == a && DerivesIn(g, [NextSymbol(g, e)], input[j..k] + tail, steps)
    ensures q in c[k] && Awaits(g, q, a)
    decreases steps, 0
  {
    var x, z := NextSymbol(g, e), input[j..k] + tail;
    if IsTerminal(x) {
      TerminalsStay(g, [x], z, steps);
      assert false;
    }
    var r := FirstRule(g, x, z, steps);
    assert Settled(g, input, c, j, e);
    assert g[r].rhs[0..] == g[r].rhs;
    assert tail == [a] + tail[1..];
    q := ItemExposes(g, input, c, n, Elem(r, j, 0), j, k, a, tail[1..], steps - 1);
  }

  /** A derivation from the start symbol that is not empty begins with rule 0. */
  lemma StartRule(g: Cfg, z: Form, n: nat)
    requires Admissible(g) && n > 0 && DerivesIn(g, [g[0].lhs], z, n)
    ensures DerivesIn(g, g[0].rhs[0..], z, n - 1)
  {
    var r := FirstRule(g, g[0].lhs, z, n);
    assert r == 0;
    assert g[0].rhs[0..] == g[0].rhs;
  }

  /** Completeness: below n, a closed chart holds every item that belongs. */
  lemma ClosedChartIsComplete(g: Cfg, input: Form, c: Chart, n: nat, e: Elem, k: nat)
    requires Admissible(g) && AllTerminals(input) && ClosedBelow(g, input, c, n)
    requires k < n <= |input| && Belongs(g, input, e, k)
    ensures e in c[k]
  {
    var s, a := e.start, g[e.rule].lhs;
    var rest: Form :| Derives(g, [g[0].lhs], input[..s] + [a] + rest);
    var z := input[..s] + [a] + rest;
    var m: nat :| DerivesIn(g, [g[0].lhs], z, m);
    assert input[0..s] == input[..s];
    assert Elem(e.rule, s, 0) in c[s] by {
      if m == 0 {
        assert z[s] == a && |z| == 1;
      } else {
        StartRule(g, z, m);
        assert z == input[0..s] + ([a] + rest);
        var q := ItemExposes(g, input, c, n, Elem(0, 0, 0), 0, s, a, rest, m - 1);
        assert Settled(g, input, c, s, q);
      }
    }
    var steps: nat :| DerivesIn(g, g[e.rule].rhs[..e.dot], input[s..k], steps);
    assert g[e.rule].rhs[0..e.dot] == g[e.rule].rhs[..e.dot];
    ItemAdvances(g, input, c, n, Elem(e.rule, s, 0), s, e.dot, k, steps);
  }

  /** If the first k tokens are viable, a chart closed below k has a list k. */
  lemma ViableIsReached(g: Cfg, input: Form, c: Chart, n: nat, k: nat)
    requires Admissible(g) && AllTerminals(input) && ClosedBelow(g, input, c, n)
    requires 0 < k <= n <= |input| && Viable(g, input[..k])
    ensures k < |c|
  {
    var rest: Form :| Derives(g, [g[0].lhs], input[..k] + rest);
    var z := input[..k] + rest;
    var m: nat :| DerivesIn(g, [g[0].lhs], z, m);
    assert z[0] == input[0];
    StartRule(g, z, m);
    assert z == input[0..k - 1] + ([input[k - 1]] + rest);
    var q := ItemExposes(g, input, c, n, Elem(0, 0, 0), 0, k - 1, input[k - 1], rest, m - 1);
    assert Settled(g, input, c, k - 1, q);
  }
}
