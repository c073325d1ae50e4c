/** The Earley recogniser: lists of items that grow while they are being walked. */
module Recogniser {
  import opened Symbols
  import opened Grammar
  import opened Earley
  import opened Charts
  import opened FinalChart
  import opened Wlp4Grammar

  /** Returning normally, throwing at a named token, or throwing after the last token. */
  datatype Outcome = Accepted | InvalidToken(index: nat) | InvalidProgram

  /** A map lookup that takes a missing key for false. */
  predicate Holds(m: map<Symbol, bool>, a: Symbol) {
    a in m && m[a]
  }

  lemma PredictedIsSettled(g: Cfg, input: Form, c: Chart, k: nat, e: Elem, x: Symbol)
    requires k < |c| && Awaits(g, e, x) && !IsTerminal(x) && e.start <= k
    requires forall r: nat :: r < |g| && g[r].lhs == x ==> Elem(r, k, 0) in c[k]
    requires HasEmptyRule(g, x) ==> (forall r: nat :: r < |g| ==> g[r].lhs != x) || Advance(e) in c[k]
    ensures Settled(g, input, c, k, e)
  {
  }

  class Recogniser {
    const cfg: Cfg
    const input: Form
    var chart: Chart
    var nullable: map<Symbol, bool>
    var finalChart: seq<Elem>

    ghost predicate Sane()
      reads this
    {
      && Admissible(cfg)
      && AllTerminals(input)
      && Sound(cfg, input, chart)
    }

    ghost predicate NullableIsRight()
      reads this
    {
      forall a: Symbol :: Holds(nullable, a) <==> HasEmptyRule(cfg, a)
    }

    constructor (cfg: Cfg, input: Form)
      requires Admissible(cfg) && AllTerminals(input)
      ensures this.cfg == cfg && this.input == input
      ensures chart == [] && nullable == map[] && finalChart == [] && Sane()
    {
      this.cfg := cfg;
      this.input := input;
      chart := [];
      nullable := map[];
      finalChart := [];
    }

    method SetupNullableRules()
      requires nullable == map[]
      modifies this`nullable
      ensures NullableIsRight()
    {
      for i: int := 33 to 49
        invariant forall a: Symbol :: a in nullable ==> !nullable[a]
      {
        nullable := nullable[i as Symbol := false];
      }
      for i := 0 to |cfg|
        invariant forall r :: 0 <= r < i && cfg[r].rhs == [] ==> cfg[r].lhs in nullable && nullable[cfg[r].lhs]
        invariant forall a: Symbol :: a in nullable && nullable[a] ==> HasEmptyRule(cfg, a)
      {
        if cfg[i].rhs == [] {
          nullable := nullable[cfg[i].lhs := true];
        }
      }
    }

    method ExistsInStateList(e: Elem, k: nat) returns (found: bool)
      requires k < |chart|
      ensures found <==> e in chart[k]
    {
      for i := 0 to |chart[k]|
        invariant e !in chart[k][..i]
      {
        if chart[k][i] == e {
          return true;
        }
      }
      return false;
    }

    method AddToChart(e: Elem, k: nat)
      requires Sane() && k <= |chart| && Belongs(cfg, input, e, k) && IsCaused(cfg, input, ListAt(chart, k), k, e)
      modifies this`chart
      ensures Sane() && chart == Added(old(chart), e, k)
      ensures GrewFrom(old(chart), chart, k) && k < |chart| && e in chart[k]
      ensures k < |old(chart)| ==> SameAfter(old(chart), chart, k) && forall x :: x in old(chart)[k] ==> x in chart[k]
    {
      AddedKeepsSound(cfg, input, chart, e, k);
      if k == |chart| {
        chart := chart + [[]];
      }
      var found := ExistsInStateList(e, k);
      if !found {
        chart := chart[k := chart[k] + [e]];
      }
      assert k == |old(chart)| ==> [] + [e] == [e] && chart == old(chart) + [[e]];
    }

    /** Predicts every rule for x at k, and steps item l over x if x is nullable. */
    method Predictor(x: Symbol, k: nat, l: nat)
      requires Sane() && NullableIsRight()
      requires k < |chart| && l < |chart[k]| && Awaits(cfg, chart[k][l], x) && !IsTerminal(x)
      modifies this`chart
      ensures Sane() && SameAfter(old(chart), chart, k) && GrewFrom(old(chart), chart, k)
      ensures Settled(cfg, input, chart, k, old(chart)[k][l])
    {
      hide IsCaused, InOrder, CanFollow, Derives, NoDuplicates;
      ghost var before, e := chart, chart[k][l];
      assert SoundList(cfg, input, chart[k], k);
      for i := 0 to |cfg|
        invariant Sane() && SameAfter(before, chart, k) && GrewFrom(before, chart, k)
        invariant l < |chart[k]| && chart[k][l] == e
        invariant forall r: nat :: r < i && cfg[r].lhs == x ==> Elem(r, k, 0) in chart[k]
        invariant HasEmptyRule(cfg, x) ==> (forall r: nat :: r < i ==> cfg[r].lhs != x) || Advance(e) in chart[k]
      {
        if cfg[i].lhs == x {
          PredictedIsValid(cfg, input, e, k, i);
          ghost var c := chart;
          PredictedIsCaused(cfg, input, chart[k], k, e, i);
          AddToChart(Elem(i, k, 0), k);
          GrewTrans(before, c, chart, k);
          if Holds(nullable, x) {
            SkippedIsValid(cfg, input, e, k, x);
            c := chart;
            SkippedIsCaused(cfg, input, chart[k], k, e, x, i);
            AddToChart(Advance(chart[k][l]), k);
            GrewTrans(before, c, chart, k);
          }
        }
      }
      PredictedIsSettled(cfg, input, chart, k, e, x);
    }

    /** Moves every item of list k that awaits the next token into list k + 1. */
    method Scanner(x: Symbol, k: nat)
      requires Sane() && k < |chart| && k < |input| && x == input[k]
      modifies this`chart
      ensures Sane() && GrewFrom(old(chart), chart, k + 1)
      ensures |chart| <= (if |old(chart)| == k + 1 then k + 2 else |old(chart)|)
      ensures forall e :: e in chart[k] && Awaits(cfg, e, x) ==> k + 1 < |chart| && Advance(e) in chart[k + 1]
      ensures OnlyScanned(cfg, old(chart), k + 1) ==> OnlyScanned(cfg, chart, k + 1)
    {
      hide IsCaused, InOrder, CanFollow, Derives, NoDuplicates;
      ghost var before := chart;
      assert SoundList(cfg, input, chart[k], k);
      for i := 0 to |chart[k]|
        invariant Sane() && GrewFrom(before, chart, k + 1) && chart[k] == before[k]
        invariant |chart| <= (if |before| == k + 1 then k + 2 else |before|)
        invariant OnlyScanned(cfg, before, k + 1) ==> OnlyScanned(cfg, chart, k + 1)
        invariant forall m :: 0 <= m < i && Awaits(cfg, chart[k][m], x) ==>
                    k + 1 < |chart| && Advance(chart[k][m]) in chart[k + 1]
      {
        var e := chart[k][i];
        assert e in before[k];
        if !IsComplete(cfg, e) && NextSymbol(cfg, e) == x {
          ScannedIsValid(cfg, input, e, k);
          ScannedIsCaused(cfg, input, ListAt(chart, k + 1), k, e);
          ghost var c := chart;
          AddToChart(Advance(e), k + 1);
          GrewTrans(before, c, chart, k + 1);
        }
      }
    }

    /** The inner loop of the completer: moves every item that awaits what item j of list k has completed. */
    method CompleteOne(k: nat, j: nat)
      requires Sane() && k < |chart| && j < |chart[k]| && IsComplete(cfg, chart[k][j])
      modifies this`chart
      ensures Sane() && SameAfter(old(chart), chart, k) && GrewFrom(old(chart), chart, k)
      ensures Settled(cfg, input, chart, k, old(chart)[k][j])
    {
      hide InOrder, CanFollow, Derives, NoDuplicates;
      ghost var before, d := chart, chart[k][j];
      var i := 0;
      assert SoundList(cfg, input, chart[k], k) && d in chart[k];
      SoundListFits(cfg, input, chart, k);
      while i < |chart[chart[k][j].start]|
        invariant Sane() && SameAfter(before, chart, k) && GrewFrom(before, chart, k)
        invariant j < |chart[k]| <= Capacity(cfg, k) && chart[k][j] == d && d.start <= k && i <= |chart[d.start]|
        invariant forall m :: 0 <= m < i && Awaits(cfg, chart[d.start][m], cfg[d.rule].lhs) ==>
                                Advance(chart[d.start][m]) in chart[k]
        decreases Capacity(cfg, k) - |chart[k]|, |chart[d.start]| - i
      {
        var e := chart[chart[k][j].start][i];
        assert SoundList(cfg, input, chart[d.start], d.start) && e in chart[d.start];
        if !IsComplete(cfg, e) && NextSymbol(cfg, e) == cfg[chart[k][j].rule].lhs {
          assert SoundList(cfg, input, chart[k], k);
          CompletedIsValid(cfg, input, e, d, k);
          CompletedIsCaused(cfg, input, chart[k], k, e, d);
          ghost var c := chart;
          AddToChart(Advance(e), k);
          GrewTrans(before, c, chart, k);
          SoundListFits(cfg, input, chart, k);
          assert c[k] <= chart[k] && c[d.start] <= chart[d.start];
        }
        i := i + 1;
      }
    }

    /** Moves every item that awaits a symbol completed in list k over that symbol. */
    method Completer(k: nat)
      requires Sane() && k < |chart|
      modifies this`chart
      ensures Sane() && SameAfter(old(chart), chart, k) && GrewFrom(old(chart), chart, k)
      ensures forall e :: e in chart[k] && IsComplete(cfg, e) ==> Settled(cfg, input, chart, k, e)
    {
      hide Belongs, IsCaused, InOrder, SoundList, Settled, IsComplete;
      ghost var before := chart;
      var j := 0;
      SoundListFits(cfg, input, chart, k);
      while j < |chart[k]|
        invariant Sane() && SameAfter(before, chart, k) && GrewFrom(before, chart, k)
        invariant j <= |chart[k]| <= Capacity(cfg, k)
        invariant forall m :: 0 <= m < j && IsComplete(cfg, chart[k][m]) ==> Settled(cfg, input, chart, k, chart[k][m])
        decreases Capacity(cfg, k) - |chart[k]|, |chart[k]| - j
      {
        if IsComplete(cfg, chart[k][j]) {
          ghost var c := chart;
          CompleteOne(k, j);
          GrewTrans(before, c, chart, k);
          SoundListFits(cfg, input, chart, k);
          SettledPrefixPersists(c, k, j);
        }
        j := j + 1;
      }
    }

    /** What the first j items of list k called for in an earlier chart is there in the present one. */
    lemma SettledPrefixPersists(c: Chart, k: nat, j: nat)
      requires k < |c| && j <= |c[k]| && GrewFrom(c, chart, k)
      ensures c[k] <= chart[k]
      ensures forall m :: 0 <= m < j && Settled(cfg, input, c, k, c[k][m]) ==>
                Settled(cfg, input, chart, k, chart[k][m])
    {
      forall m | 0 <= m < j && Settled(cfg, input, c, k, c[k][m])
        ensures Settled(cfg, input, chart, k, chart[k][m])
      {
        assert c[k] <= chart[k];
        SettledPersists(cfg, input, c, chart, k, c[k][m]);
      }
    }

    /** Fills the chart for the WLP4 table and, on success, hands its completed items on. */
    method Recognise() returns (r: Outcome)
      requires Sane() && cfg == CFG() && chart == [] && nullable == map[] && finalChart == []
      modifies this
      ensures r == Accepted <==> Viable(cfg, input)
      ensures r.InvalidToken? ==>
                r.index + 1 < |input| && Viable(cfg, input[..r.index]) && !Viable(cfg, input[..r.index + 1])
      ensures r.InvalidProgram? ==>
                |input| > 0 && Viable(cfg, input[..|input| - 1]) && !Viable(cfg, input)
      ensures r.Accepted? ==> IsFilled(cfg, input, chart) && ExactBelow(cfg, input, chart, |input|)
      ensures finalChart == if r.Accepted? then Final(cfg, chart, |chart|) else []
    {
      r := FillChart();
      if r.Accepted? {
        Wlp4IsTypeGrammar();
        PopulateFinalChart();
      }
    }

    /** The outer loop. The list after the last token is filled by scanning only. */
    method FillChart() returns (r: Outcome)
      requires Sane() && chart == [] && nullable == map[]
      modifies this`chart, this`nullable
      ensures Sane() && NullableIsRight()
      ensures r == Accepted <==> Viable(cfg, input)
      ensures r.InvalidToken? ==>
                r.index + 1 < |input| && Viable(cfg, input[..r.index]) && !Viable(cfg, input[..r.index + 1])
      ensures r.InvalidProgram? ==>
                |input| > 0 && Viable(cfg, input[..|input| - 1]) && !Viable(cfg, input)
      ensures r.Accepted? ==> IsFilled(cfg, input, chart)
      ensures forall k: nat, e :: k < |chart| && k < |input| ==> (e in chart[k] <==> Belongs(cfg, input, e, k))
    {
      hide IsCaused, InOrder, SoundList, Settled, Belongs, IsScanned;
      SetupNullableRules();
      InitialIsValid(cfg, input);
      StartIsCaused(cfg, input);
      AddToChart(Elem(0, 0, 0), 0);
      for i := 0 to |input|
        invariant Sane() && NullableIsRight()
        invariant 0 < |chart| && i <= |chart| <= i + 1
        invariant Elem(0, 0, 0) in chart[0] && ClosedBelow(cfg, input, chart, i) &&
                  (i > 0 ==> OnlyScanned(cfg, chart, i))
      {
        if i > |chart| - 1 {
          Unreached(i);
          if Viable(cfg, input) {
            ViablePrefix(cfg, input, i);
          }
          ListsAreExact(i);
          return InvalidToken(i - 1);
        }
        CloseList(i);
      }
      ListsAreExact(|input|);
      if |chart| - 1 == |input| {
        Reached(|input|);
        assert input[..|input|] == input;
        return Accepted;
      } else {
        Unreached(|input|);
        assert input[..|input|] == input;
        return InvalidProgram;
      }
    }

    /** Appends an item; `type -> INT STAR` first removes the item before it. */
    method AddToFinalChart(e: Elem)
      requires TypeGrammar(cfg) && e.rule < |cfg|
      requires e.rule == LONG_TYPE ==> finalChart != []
      modifies this`finalChart
      ensures finalChart == Pushed(old(finalChart), e)
    {
      var rule := cfg[e.rule];
      assert TypeRule(rule);
      if rule.lhs == TYPE && |rule.rhs| == 2 {
        finalChart := finalChart[..|finalChart| - 1];
      }
      finalChart := finalChart + [e];
    }

    method PopulateFinalChart()
      requires TypeGrammar(cfg) && AllTerminals(input) && finalChart == []
      requires 0 < |chart| && ExactBelow(cfg, input, chart, |chart| - 1)
      modifies this`finalChart
      ensures finalChart == Final(cfg, chart, |chart|)
    {
      hide TypeRule, Belongs, SoundList, InOrder, Kept, Pushed;
      for k := 0 to |chart|
        invariant finalChart == Final(cfg, chart, k)
      {
        ListIsPushed(cfg, input, chart, k);
        ghost var final := finalChart;
        for i := 0 to |chart[k]|
          invariant finalChart == PushedAll(cfg, final, chart[k][..i])
        {
          assert chart[k][..i + 1][..i] == chart[k][..i];
          if IsComplete(cfg, chart[k][i]) {
            AddToFinalChart(chart[k][i]);
          }
        }
        assert chart[k][..|chart[k]|] == chart[k];
      }
    }

    /** Completes, scans or predicts, as item j of list i asks. */
    method ProcessItem(i: nat, j: nat)
      requires Sane() && NullableIsRight() && i < |input| && i < |chart| && j < |chart[i]|
      modifies this`chart
      ensures Sane() && GrewFrom(old(chart), chart, i)
      ensures |chart| <= (if |old(chart)| == i + 1 then i + 2 else |old(chart)|)
      ensures Settled(cfg, input, chart, i, old(chart)[i][j])
      ensures OnlyScanned(cfg, old(chart), i + 1) ==> OnlyScanned(cfg, chart, i + 1)
    {
      ghost var c := chart;
      var e := chart[i][j];
      assert SoundList(cfg, input, chart[i], i) && e in chart[i];
      if IsComplete(cfg, e) {
        Completer(i);
        assert c[i] <= chart[i] && e == chart[i][j];
      } else {
        var nextSym := NextSymbol(cfg, e);
        if IsTerminal(nextSym) {
          Scanner(input[i], i);
          assert GrewFrom(c, chart, i);
          assert e in chart[i];
        } else {
          Predictor(nextSym, i, j);
        }
      }
    }

    /** The inner loop: processes the items of list i in order, the ones added meanwhile included. */
    method CloseList(i: nat)
      requires Sane() && NullableIsRight() && i < |input| && |chart| == i + 1 && ClosedBelow(cfg, input, chart, i)
      requires Elem(0, 0, 0) in chart[0]
      modifies this`chart
      ensures Sane() && GrewFrom(old(chart), chart, i) && i < |chart| <= i + 2
      ensures ClosedBelow(cfg, input, chart, i + 1) && OnlyScanned(cfg, chart, i + 1)
    {
      hide Settled, SoundList, IsScanned;
      ghost var before := chart;
      var j := 0;
      SoundListFits(cfg, input, chart, i);
      while j < |chart[i]|
        invariant Sane() && GrewFrom(before, chart, i) && i < |chart| <= i + 2 && OnlyScanned(cfg, chart, i + 1)
        invariant j <= |chart[i]| <= Capacity(cfg, i)
        invariant forall m :: 0 <= m < j ==> Settled(cfg, input, chart, i, chart[i][m])
        decreases Capacity(cfg, i) - |chart[i]|, |chart[i]| - j
      {
        ghost var c := chart;
        ProcessItem(i, j);
        GrewTrans(before, c, chart, i);
        SoundListFits(cfg, input, chart, i);
        SettledPrefixPersists(c, i, j);
        j := j + 1;
      }
      ClosedExtends(cfg, input, before, chart, i);
    }

    /** A list that was never created: its prefix is not viable, and the one before it is. */
    lemma Unreached(k: nat)
      requires Sane() && ClosedBelow(cfg, input, chart, k) && |chart| == k && 0 < k <= |input|
      ensures Viable(cfg, input[..k - 1]) && !Viable(cfg, input[..k])
    {
      Reached(k - 1);
      if Viable(cfg, input[..k]) {
        ViableIsReached(cfg, input, chart, k, k);
      }
    }

    /** Every list that has been processed holds exactly the items that belong in it. */
    lemma ListsAreExact(n: nat)
      requires Sane() && n <= |input| && ClosedBelow(cfg, input, chart, n)
      ensures forall k: nat, e :: k < n ==> (e in chart[k] <==> Belongs(cfg, input, e, k))
    {
      forall k: nat, e | k < n
        ensures e in chart[k] <==> Belongs(cfg, input, e, k)
      {
        assert SoundList(cfg, input, chart[k], k);
        if Belongs(cfg, input, e, k) {
          ClosedChartIsComplete(cfg, input, chart, n, e, k);
        }
      }
    }

    /** A list that exists: its prefix is viable. */
    lemma Reached(k: nat)
      requires Sane() && k < |chart|
      ensures Viable(cfg, input[..k])
    {
      assert SoundList(cfg, input, chart[k], k);
      ValidMeansViable(cfg, input, chart[k][0], k);
    }
  }
}
