/** Charts that only grow: the room left in each list, and what growth preserves. */
module Charts {
  import opened Symbols
  import opened Grammar
  import opened Earley

  // ----- room in a list -----

  /** The number of dotted positions in the first m rules. */
  function Slots(g: Cfg, m: nat): nat
    requires m <= |g|
  {
    if m == 0 then 0 else Slots(g, m - 1) + |g[m - 1].rhs| + 1
  }

  /** The most items list k can hold: one for each dotted rule and start position. */
  function Capacity(g: Cfg, k: nat): nat {
    (k + 1) * Slots(g, |g|)
  }

  predicate InRange(g: Cfg, k: nat, e: Elem) {
    InGrammar(g, e) && e.start <= k
  }

  ghost predicate NoDuplicates<T>(s: seq<T>) {
    forall i, j :: 0 <= i < j < |s| ==> s[i] != s[j]
  }

  /** A number for each item of list k, below its capacity. */
  function Code(g: Cfg, e: Elem): nat
    requires InGrammar(g, e)
  {
    e.start * Slots(g, |g|) + Slots(g, e.rule) + e.dot
  }

  lemma {:induction false} SlotsGrow(g: Cfg, l: nat, m: nat)
    requires l < m <= |g|
    ensures Slots(g, l) + |g[l].rhs| + 1 <= Slots(g, m)
    decreases m
  {
    if l < m - 1 {
      SlotsGrow(g, l, m - 1);
    }
  }

  lemma {:induction false} RowsOrdered(a: nat, b: nat, n: nat, x: nat, y: nat)
    requires a < b && x < n
    ensures a * n + x < b * n + y
    decreases b
  {
    if a + 1 < b {
      RowsOrdered(a, b - 1, n, x, y);
    }
    assert (b - 1) * n + n == b * n;
  }

  lemma CodeIsInjective(g: Cfg, d: Elem, e: Elem)
    requires InGrammar(g, d) && InGrammar(g, e) && Code(g, d) == Code(g, e)
    ensures d == e
  {
    var n, x, y := Slots(g, |g|), Slots(g, d.rule) + d.dot, Slots(g, e.rule) + e.dot;
    SlotsGrow(g, d.rule, |g|);
    SlotsGrow(g, e.rule, |g|);
    if d.start < e.start {
      RowsOrdered(d.start, e.start, n, x, y);
    } else if e.start < d.start {
      RowsOrdered(e.start, d.start, n, y, x);
    } else if d.rule < e.rule {
      SlotsGrow(g, d.rule, e.rule);
    } else if e.rule < d.rule {
      SlotsGrow(g, e.rule, d.rule);
    }
  }

  lemma {:induction false} DistinctNumbersFit(codes: set<nat>, n: nat)
    requires forall c :: c in codes ==> c < n
    ensures |codes| <= n
    decreases n
  {
    if n > 0 {
      DistinctNumbersFit(codes - {n - 1}, n - 1);
    } else {
      assert codes == {};
    }
  }

  lemma {:induction false} DistinctItemsFit(g: Cfg, k: nat, items: seq<Elem>)
    requires NoDuplicates(items) && forall e :: e in items ==> InRange(g, k, e)
    ensures |items| <= Capacity(g, k)
  {
    var codes := CodeSet(g, k, items);
    DistinctNumbersFit(codes, Capacity(g, k));
  }

  lemma {:induction false} CodeSet(g: Cfg, k: nat, items: seq<Elem>) returns (codes: set<nat>)
    requires NoDuplicates(items) && forall e :: e in items ==> InRange(g, k, e)
    ensures |codes| == |items|
    ensures forall c :: c in codes ==>
              c < Capacity(g, k) && exists e :: e in items && InGrammar(g, e) && Code(g, e) == c
    decreases |items|
  {
    codes := {};
    if items != [] {
      var front, last := items[..|items| - 1], items[|items| - 1];
      codes := CodeSet(g, k, front);
      assert last in items;
      var c := Code(g, last);
      if c in codes {
        var e :| e in front && InGrammar(g, e) && Code(g, e) == c;
        CodeIsInjective(g, e, last);
        assert false;
      }
      SlotsGrow(g, last.rule, |g|);
      RowsOrdered(last.start, k + 1, Slots(g, |g|), Slots(g, last.rule) + last.dot, 0);
      codes := codes + {c};
    }
  }

  // ----- charts that only grow -----

  /** Every item of the chart belongs where it is, once, and no list is empty. */
  ghost predicate Sound(g: Cfg, input: Form, c: Chart)
    requires |g| > 0
  {
    && |c| <= |input| + 1
    && forall k: nat :: k < |c| ==> SoundList(g, input, c[k], k)
  }

  ghost predicate SoundList(g: Cfg, input: Form, items: seq<Elem>, k: nat)
    requires |g| > 0
  {
    items != [] && NoDuplicates(items) && InOrder(g, input, items, k) &&
      forall e :: e in items ==> Belongs(g, input, e, k)
  }

  function Retreat(e: Elem): Elem
    requires e.dot > 0
  {
    e.(dot := e.dot - 1)
  }

  /** d is the item of the first rule for a nullable symbol. */
  ghost predicate IsFirstEmpty(g: Cfg, d: Elem) {
    && InGrammar(g, d)
    && d.dot == 0
    && HasEmptyRule(g, g[d.rule].lhs)
    && forall r: nat :: r < d.rule ==> g[r].lhs != g[d.rule].lhs
  }

  /** Item d of list k, one of items, lets item e over symbol x into the list. */
  ghost predicate Admits(g: Cfg, input: Form, items: seq<Elem>, k: nat, d: Elem, x: Symbol, e: Elem)
    requires |g| > 0
  {
    && InGrammar(g, d)
    && g[d.rule].lhs == x
    && e.dot > 0
    && Belongs(g, input, Retreat(e), d.start)
    && (d.start == k ==> Retreat(e) in items)
    && (IsComplete(g, d) || (IsFirstEmpty(g, d) && d.start == k))
  }

  /** What brings item e into list k: the start, an item that awaits its left side, the last token, or an item that
      completes the symbol before its dot. */
  ghost predicate IsCaused(g: Cfg, input: Form, items: seq<Elem>, k: nat, e: Elem)
    requires |g| > 0
  {
    InGrammar(g, e) ==>
      if e.dot == 0 then (k == 0 && e.rule == 0) || exists p :: p in items && Awaits(g, p, g[e.rule].lhs)
      else
        var x := g[e.rule].rhs[e.dot - 1];
        if IsTerminal(x) then 0 < k <= |input| && input[k - 1] == x && Belongs(g, input, Retreat(e), k - 1)
        else exists d :: d in items && Admits(g, input, items, k, d, x, e)
  }

  lemma StartIsCaused(g: Cfg, input: Form)
    requires |g| > 0
    ensures IsCaused(g, input, [], 0, Elem(0, 0, 0))
  {
  }

  lemma PredictedIsCaused(g: Cfg, input: Form, items: seq<Elem>, k: nat, p: Elem, r: nat)
    requires |g| > 0 && p in items && r < |g| && Awaits(g, p, g[r].lhs)
    ensures IsCaused(g, input, items, k, Elem(r, k, 0))
  {
  }

  lemma {:induction false} FirstRuleFor(g: Cfg, x: Symbol, r: nat) returns (q: nat)
    requires r < |g| && g[r].lhs == x
    ensures q <= r && g[q].lhs == x && forall i: nat :: i < q ==> g[i].lhs != x
  {
    q := r;
    if i: nat :| i < r && g[i].lhs == x {
      q := FirstRuleFor(g, x, i);
    }
  }

  lemma SkippedIsCaused(g: Cfg, input: Form, items: seq<Elem>, k: nat, e: Elem, x: Symbol, r: nat)
    requires |g| > 0 && Awaits(g, e, x) && HasEmptyRule(g, x) && !IsTerminal(x) && Belongs(g, input, e, k) && e in items
    requires r < |g| && g[r].lhs == x && forall i: nat :: i <= r && g[i].lhs == x ==> Elem(i, k, 0) in items
    ensures IsCaused(g, input, items, k, Advance(e))
  {
    hide Belongs;
    var q := FirstRuleFor(g, x, r);
    var d := Elem(q, k, 0);
    assert Retreat(Advance(e)) == e;
    assert d in items && Admits(g, input, items, k, d, x, Advance(e));
  }

  lemma ScannedIsCaused(g: Cfg, input: Form, items: seq<Elem>, k: nat, e: Elem)
    requires |g| > 0 && k < |input| && Belongs(g, input, e, k) && Awaits(g, e, input[k]) && IsTerminal(input[k])
    ensures IsCaused(g, input, items, k + 1, Advance(e)) && IsScanned(g, Advance(e))
  {
    hide Belongs;
    assert Retreat(Advance(e)) == e;
  }

  lemma CompletedIsCaused(g: Cfg, input: Form, items: seq<Elem>, k: nat, e: Elem, d: Elem)
    requires |g| > 0 && d in items && IsComplete(g, d) && Belongs(g, input, e, d.start)
    requires Awaits(g, e, g[d.rule].lhs) && !IsTerminal(g[d.rule].lhs) && (d.start == k ==> e in items)
    ensures IsCaused(g, input, items, k, Advance(e))
  {
    hide Belongs;
    assert Retreat(Advance(e)) == e;
    assert Admits(g, input, items, k, d, g[d.rule].lhs, Advance(e));
  }

  /** The item has just been moved over a token. */
  predicate IsScanned(g: Cfg, e: Elem) {
    InGrammar(g, e) && e.dot > 0 && IsTerminal(g[e.rule].rhs[e.dot - 1])
  }

  /** List k holds nothing but scanned items. */
  ghost predicate OnlyScanned(g: Cfg, c: Chart, k: nat) {
    forall e :: e in ListAt(c, k) ==> IsScanned(g, e)
  }

  /** The chart of an accepted text: sound, closed but for the last list, which is only scanned into. */
  ghost predicate IsFilled(g: Cfg, input: Form, c: Chart)
    requires |g| > 0
  {
    && |c| == |input| + 1
    && Sound(g, input, c)
    && ClosedBelow(g, input, c, |input|)
    && (input != [] ==> OnlyScanned(g, c, |input|))
  }

  /** Items come after what brings them in. */
  ghost predicate InOrder(g: Cfg, input: Form, items: seq<Elem>, k: nat)
    requires |g| > 0
  {
    forall j :: 0 <= j < |items| ==> IsCaused(g, input, items[..j], k, items[j])
  }

  lemma OrderExtends(g: Cfg, input: Form, items: seq<Elem>, k: nat, e: Elem)
    requires |g| > 0 && InOrder(g, input, items, k) && IsCaused(g, input, items, k, e)
    ensures InOrder(g, input, items + [e], k)
  {
    hide IsCaused;
    forall j | 0 <= j < |items + [e]|
      ensures IsCaused(g, input, (items + [e])[..j], k, (items + [e])[j])
    {
      assert (items + [e])[..j] == items[..j];
    }
  }

  /** List k, or the empty list where it is not there yet. */
  function ListAt(c: Chart, k: nat): seq<Elem> {
    if k < |c| then c[k] else []
  }

  /** c grew into d, and only at the ends of lists k and later. */
  ghost predicate GrewFrom(c: Chart, d: Chart, k: nat) {
    && |c| <= |d|
    && (forall i: nat :: i < |c| ==> c[i] <= d[i])
    && (forall i: nat :: i < |c| && i < k ==> c[i] == d[i])
  }

  /** c and d have the same lists after list k. */
  ghost predicate SameAfter(c: Chart, d: Chart, k: nat) {
    |c| == |d| && forall i: nat :: k < i < |c| ==> c[i] == d[i]
  }

  /** The chart after adding e to list k, if it is not there yet. */
  function Added(c: Chart, e: Elem, k: nat): Chart
    requires k <= |c|
  {
    if k == |c| then c + [[e]]
    else if e in c[k] then c
    else c[k := c[k] + [e]]
  }

  lemma NothingInOrder(g: Cfg, input: Form, k: nat)
    requires |g| > 0
    ensures InOrder(g, input, [], k)
  {
  }

  lemma AddedKeepsSound(g: Cfg, input: Form, c: Chart, e: Elem, k: nat)
    requires |g| > 0 && Sound(g, input, c) && k <= |c| && Belongs(g, input, e, k) &&
             IsCaused(g, input, ListAt(c, k), k, e)
    ensures var d := Added(c, e, k);
            Sound(g, input, d) && GrewFrom(c, d, k) && k < |d| && e in d[k] && |d| <= (if |c| == k then k + 1 else |c|)
  {
    hide InOrder, IsCaused;
    var d := Added(c, e, k);
    NothingInOrder(g, input, k);
    assert k < |c| ==> SoundList(g, input, c[k], k);
    OrderExtends(g, input, ListAt(c, k), k, e);
    assert [] + [e] == [e];
    forall i: nat | i < |d|
      ensures SoundList(g, input, d[i], i)
    {
      assert i < |c| ==> SoundList(g, input, c[i], i);
      if i == k && k < |c| && e !in c[k] {
        assert d[k] == c[k] + [e];
      }
    }
    assert e in d[k] by {
      assert d[k][|d[k]| - 1] == e || d[k] == c[k];
    }
  }

  lemma GrewTrans(c: Chart, d: Chart, e: Chart, k: nat)
    requires GrewFrom(c, d, k) && GrewFrom(d, e, k)
    ensures GrewFrom(c, e, k)
  {
    forall i: nat | i < |c|
      ensures c[i] <= e[i]
    {
      assert c[i] <= d[i] <= e[i];
    }
  }

  lemma SettledPersists(g: Cfg, input: Form, c: Chart, d: Chart, k: nat, e: Elem)
    requires k < |c| && GrewFrom(c, d, k) && Settled(g, input, c, k, e)
    ensures Settled(g, input, d, k, e)
  {
    assert c[k] <= d[k];
    assert forall x :: x in c[k] ==> x in d[k];
    var next := k + 1;
    if next < |c| {
      assert c[next] <= d[next];
      assert forall x :: x in c[next] ==> x in d[next];
    }
  }

  lemma ClosedExtends(g: Cfg, input: Form, c: Chart, d: Chart, n: nat)
    requires ClosedBelow(g, input, c, n) && GrewFrom(c, d, n) && n < |d|
    requires Elem(0, 0, 0) in d[0] && forall e :: e in d[n] ==> Settled(g, input, d, n, e)
    ensures ClosedBelow(g, input, d, n + 1)
  {
    forall k: nat, e | k < n && e in d[k]
      ensures Settled(g, input, d, k, e)
    {
      assert c[k] == d[k] && GrewFrom(c, d, k);
      SettledPersists(g, input, c, d, k, e);
    }
  }

  lemma SoundListFits(g: Cfg, input: Form, c: Chart, k: nat)
    requires |g| > 0 && Sound(g, input, c) && k < |c|
    ensures |c[k]| <= Capacity(g, k)
  {
    assert SoundList(g, input, c[k], k);
    DistinctItemsFit(g, k, c[k]);
  }
}
