/** Context-free grammars and the textbook rewriting relation on sentential forms. */
module Grammar {
  import opened Symbols

  datatype Rule = Rule(lhs: Symbol, rhs: seq<Symbol>)

  type Cfg = seq<Rule>

  type Form = seq<Symbol>

  predicate AllTerminals(w: Form) {
    forall i :: 0 <= i < |w| ==> IsTerminal(w[i])
  }

  /** Rewriting the symbol at position i of a with rule r gives b. */
  ghost predicate Rewrites(g: Cfg, a: Form, b: Form, i: nat, r: nat) {
    && i < |a|
    && r < |g|
    && a[i] == g[r].lhs
    && b == a[..i] + g[r].rhs + a[i + 1..]
  }

  ghost predicate Step(g: Cfg, a: Form, b: Form) {
    exists i: nat, r: nat :: Rewrites(g, a, b, i, r)
  }

  /** a becomes b in exactly n rewriting steps. */
  ghost predicate DerivesIn(g: Cfg, a: Form, b: Form, n: nat)
    decreases n
  {
    if n == 0 then a == b else exists c: Form :: Step(g, a, c) && DerivesIn(g, c, b, n - 1)
  }

  ghost predicate Derives(g: Cfg, a: Form, b: Form) {
    exists n: nat :: DerivesIn(g, a, b, n)
  }

  /** No rule rewrites a terminal. */
  predicate TerminalsAreFixed(g: Cfg) {
    forall r :: 0 <= r < |g| ==> !IsTerminal(g[r].lhs)
  }

  predicate HasEmptyRule(g: Cfg, a: Symbol) {
    exists r :: 0 <= r < |g| && g[r].lhs == a && g[r].rhs == []
  }

  // ----- closure properties of the rewriting relation -----

  lemma DerivesRefl(g: Cfg, a: Form)
    ensures Derives(g, a, a)
  {
    assert DerivesIn(g, a, a, 0);
  }

  lemma DerivesByRule(g: Cfg, r: nat)
    requires r < |g|
    ensures Derives(g, [g[r].lhs], g[r].rhs)
  {
    var a := [g[r].lhs];
    assert Rewrites(g, a, g[r].rhs, 0, r) && Step(g, a, g[r].rhs);
    assert DerivesIn(g, g[r].rhs, g[r].rhs, 0);
    assert DerivesIn(g, a, g[r].rhs, 1);
  }

  lemma StepFirst(g: Cfg, a: Form, b: Form, c: Form, n: nat)
    requires Step(g, a, b) && DerivesIn(g, b, c, n)
    ensures DerivesIn(g, a, c, n + 1)
  {
  }

  lemma {:induction false} DerivesInTrans(g: Cfg, a: Form, b: Form, c: Form, m: nat, n: nat)
    requires DerivesIn(g, a, b, m) && DerivesIn(g, b, c, n)
    ensures DerivesIn(g, a, c, m + n)
    decreases m
  {
    if m > 0 {
      var d: Form :| Step(g, a, d) && DerivesIn(g, d, b, m - 1);
      DerivesInTrans(g, d, b, c, m - 1, n);
    }
  }

  lemma DerivesTrans(g: Cfg, a: Form, b: Form, c: Form)
    requires Derives(g, a, b) && Derives(g, b, c)
    ensures Derives(g, a, c)
  {
    var m: nat :| DerivesIn(g, a, b, m);
    var n: nat :| DerivesIn(g, b, c, n);
    DerivesInTrans(g, a, b, c, m, n);
  }

  lemma StepInContext(g: Cfg, p: Form, a: Form, b: Form, s: Form)
    requires Step(g, a, b)
    ensures Step(g, p + a + s, p + b + s)
  {
    var i: nat, r: nat :| Rewrites(g, a, b, i, r);
    var from, to := p + a + s, p + b + s;
    assert from[..|p| + i] == p + a[..i];
    assert from[|p| + i + 1..] == a[i + 1..] + s;
    assert Rewrites(g, from, to, |p| + i, r);
  }

  lemma {:induction false} DerivesInContext(g: Cfg, p: Form, a: Form, b: Form, s: Form, n: nat)
    requires DerivesIn(g, a, b, n)
    ensures DerivesIn(g, p + a + s, p + b + s, n)
    decreases n
  {
    if n > 0 {
      var c: Form :| Step(g, a, c) && DerivesIn(g, c, b, n - 1);
      StepInContext(g, p, a, c, s);
      DerivesInContext(g, p, c, b, s, n - 1);
    }
  }

  lemma DerivesContext(g: Cfg, p: Form, a: Form, b: Form, s: Form)
    requires Derives(g, a, b)
    ensures Derives(g, p + a + s, p + b + s)
  {
    var n: nat :| DerivesIn(g, a, b, n);
    DerivesInContext(g, p, a, b, s, n);
  }

  lemma DerivesBeside(g: Cfg, a: Form, b: Form, x: Form, y: Form)
    requires Derives(g, a, b) && Derives(g, x, y)
    ensures Derives(g, a + x, b + y)
  {
    DerivesContext(g, [], a, b, x);
    DerivesContext(g, b, x, y, []);
    assert [] + a + x == a + x && [] + b + x == b + x + [] == b + x && b + y + [] == b + y;
    DerivesTrans(g, a + x, b + x, b + y);
  }

  /** A step in x + y is a step in x or a step in y. */
  lemma SplitStep(g: Cfg, x: Form, y: Form, c: Form) returns (left: bool, w: Form)
    requires Step(g, x + y, c)
    ensures if left then Step(g, x, w) && c == w + y else Step(g, y, w) && c == x + w
  {
    var i: nat, r: nat :| Rewrites(g, x + y, c, i, r);
    left := i < |x|;
    if left {
      w := x[..i] + g[r].rhs + x[i + 1..];
      assert c == w + y;
      assert Rewrites(g, x, w, i, r);
    } else {
      var j := i - |x|;
      w := y[..j] + g[r].rhs + y[j + 1..];
      assert c == x + w;
      assert Rewrites(g, y, w, j, r);
    }
  }

  /** A derivation from x + y is a derivation from x beside one from y. */
  lemma {:induction false} SplitDerivation(g: Cfg, x: Form, y: Form, z: Form, n: nat)
      returns (z1: Form, z2: Form, n1: nat, n2: nat)
    requires DerivesIn(g, x + y, z, n)
    ensures z == z1 + z2 && n1 + n2 == n
    ensures DerivesIn(g, x, z1, n1) && DerivesIn(g, y, z2, n2)
    decreases n
  {
    hide Step, Rewrites;
    if n == 0 {
      return x, y, 0, 0;
    }
    var c: Form :| Step(g, x + y, c) && DerivesIn(g, c, z, n - 1);
    var left, w := SplitStep(g, x, y, c);
    if left {
      z1, z2, n1, n2 := SplitDerivation(g, w, y, z, n - 1);
      StepFirst(g, x, w, z1, n1);
      n1 := n1 + 1;
    } else {
      z1, z2, n1, n2 := SplitDerivation(g, x, w, z, n - 1);
      StepFirst(g, y, w, z2, n2);
      n2 := n2 + 1;
    }
  }

  /** Terminal strings, the empty one among them, derive only themselves. */
  lemma TerminalsStay(g: Cfg, w: Form, z: Form, n: nat)
    requires TerminalsAreFixed(g) && AllTerminals(w) && DerivesIn(g, w, z, n)
    ensures n == 0 && z == w
  {
    assert forall c: Form, i: nat, r: nat :: Rewrites(g, w, c, i, r) ==> IsTerminal(w[i]);
  }

  /** The first step from a single symbol applies a rule for it. */
  lemma FirstRule(g: Cfg, a: Symbol, z: Form, n: nat) returns (r: nat)
    requires n > 0 && DerivesIn(g, [a], z, n)
    ensures r < |g| && g[r].lhs == a && DerivesIn(g, g[r].rhs, z, n - 1)
  {
    var c: Form :| Step(g, [a], c) && DerivesIn(g, c, z, n - 1);
    var i: nat, r0: nat :| Rewrites(g, [a], c, i, r0);
    r := r0;
    assert c == g[r].rhs;
  }
}
