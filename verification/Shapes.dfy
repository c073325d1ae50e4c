/** How the block graph grows while statements are generated. */
module Shapes {
  import opened Symbols
  import opened Ast
  import opened Machine
  import opened Lowering
  import opened Flow

  /** The blocks of g are there in h, and none but b has changed. */
  ghost predicate ChangedOnly(g: Graph, h: Graph, b: nat) {
    |g| <= |h| && forall i :: 0 <= i < |g| && i != b ==> h[i] == g[i]
  }

  /** From the open block b of g to the empty block e of h: the blocks in between are finished and on the way. */
  ghost predicate Grown(c: Scope, g: Graph, h: Graph, b: nat, e: nat) {
    && ChangedOnly(g, h, b)
    && b < |g| && e < |h|
    && g[b].term == Open && h[e] == EMPTY_BLOCK
    && (e == b || (e >= |g| && IsFinished(c, h, b)))
    && (forall i :: |g| <= i < |h| && i != e ==> IsFinished(c, h, i))
    && Spans(h, b, e, |g|, |h|)
  }

  lemma GrownSelf(c: Scope, g: Graph, b: nat)
    requires b < |g| && g[b] == EMPTY_BLOCK
    ensures Grown(c, g, g, b, b)
  {
    ReachesSelf(g, b);
  }

  lemma GrownTrans(c: Scope, g: Graph, h: Graph, k: Graph, b: nat, m: nat, e: nat)
    requires Grown(c, g, h, b, m) && Grown(c, h, k, m, e)
    ensures Grown(c, g, k, b, e)
  {
    hide UsesAreDefined, Usable, Spans;
    SpansGrows(h, k, b, m, |g|, |h|);
    SpansJoin(k, b, m, e, |g|, |h|, |k|);
    forall i | 0 <= i < |h| && i != m && IsFinished(c, h, i)
      ensures IsFinished(c, k, i)
    {
      assert k[i] == h[i];
    }
    assert forall i :: |g| <= i < |k| && i != e ==> i == m || i >= |h| || IsFinished(c, h, i);
  }

  // ----- a statement, then a jump to a new block -----

  /** Block e of h is closed with a jump to a new empty block. */
  function Continued(h: Graph, e: nat): Graph
    requires e < |h|
  {
    h[e := Block(h[e].instrs, Br(|h|))] + [EMPTY_BLOCK]
  }

  lemma StatementGrown(c: Scope, g: Graph, h: Graph, s: Statement, b: nat, e: nat)
    requires b < |g| && g[b] == EMPTY_BLOCK
    requires IsSimple(s) ==> b == e && h == g[b := Block([] + SimpleCode(c, s, b, 0), Open)]
    requires !IsSimple(s) ==> Grown(c, g, h, b, e) && e != b
    ensures Grown(c, g, Continued(h, e), b, |h|)
  {
    var k := Continued(h, e);
    assert Edge(k, e, |h|);
    ReachesEdge(k, e, |h|);
    ReachesSelf(k, |h|);
    if IsSimple(s) {
      SimpleIsDefined(c, s, b);
      assert [] + SimpleCode(c, s, b, 0) == SimpleCode(c, s, b, 0);
      ReachesSelf(k, b);
    } else {
      SpansGrows(h, k, b, e, |g|, |h|);
      ReachesSelf(k, b);
      SpansWithin(k, b, b, e, |h|, |g|, |h|);
      forall i | |g| <= i < |h| || i == b
        ensures IsFinished(c, k, i)
      {
        assert i != e ==> IsFinished(c, h, i) && k[i] == h[i];
      }
    }
  }

  /** A body in g, then a statement from its last block m to block e of h, then a jump to a new block. */
  lemma BodyGrows(c: Scope, g: Graph, h: Graph, stmts: seq<Statement>, s: Statement, b: nat, m: nat, e: nat)
    requires m < |g| && g[m].term == Open && ChangedOnly(g, h, m)
    requires BodyAt(c, g, stmts, b, m) && StatementAt(c, h, s, m, e)
    requires e < |h| && h[e].term == Open && (e == m || e >= |g|)
    requires IsSimple(s) ==> e == m
    requires !IsSimple(s) ==> h[e].instrs == []
    ensures BodyAt(c, Continued(h, e), stmts + [s], b, |h|)
  {
    var k := Continued(h, e);
    StatementPersists(c, h, k, s, m, e);
    BodyPersists(c, g, k, stmts, b, m);
    BodyExtends(c, k, stmts, s, b, m, e, |h|);
  }

  // ----- if -----

  /** The end of an if statement: block b of h branches, and both branches go on in a new empty block. */
  function Joined(h: Graph, b: nat, split: Terminator, t': nat, f': nat): Graph
    requires b < |h| && t' < |h| && f' < |h|
  {
    var e := |h|;
    h[b := Block(h[b].instrs, split)][t' := Block([], Br(e))][f' := Block([], Br(e))] + [EMPTY_BLOCK]
  }

  /** The state of the graph when both branches of an if statement are there. */
  ghost predicate Branched(c: Scope, g: Graph, h: Graph, gt: Graph, gf: Graph, b: nat, code: Code, t': nat, f': nat) {
    && b < |g| && g[b] == EMPTY_BLOCK
    && |h| == |g| && ChangedOnly(g, h, b) && h[b] == Block(code.instrs, Open)
    && Grown(c, h + [EMPTY_BLOCK], gt, |h|, t')
    && Grown(c, gt + [EMPTY_BLOCK], gf, |gt|, f')
    && CodeIsDefined(c, b, [], code)
  }

  /** The blocks of a branched graph and of the joined one. */
  lemma JoinedBlocks(c: Scope, g: Graph, h: Graph, gt: Graph, gf: Graph, b: nat, code: Code, t': nat, f': nat)
    requires Branched(c, g, h, gt, gf, b, code, t', f')
    ensures b < |gf| && b < |g| <= t' < |gt| <= f' < |gf|
    ensures var k := Joined(gf, b, CondBr(code.result, |h|, |gt|), t', f');
            && ChangedOnly(g, k, b) && Grows(gt, k) && Grows(gf, k)
            && IsBlock(k, b, code.instrs, CondBr(code.result, |h|, |gt|))
            && IsBlock(k, t', [], Br(|gf|)) && IsBlock(k, f', [], Br(|gf|))
  {
    hide IsFinished, Spans, CodeIsDefined;
    assert (h + [EMPTY_BLOCK])[b] == h[b] && gt[b] == h[b] && (gt + [EMPTY_BLOCK])[b] == gt[b] && gf[b] == h[b];
    assert gf[t'] == gt[t'];
    forall i | 0 <= i < |g| && i != b
      ensures gf[i] == g[i]
    {
      assert (h + [EMPTY_BLOCK])[i] == h[i] && (gt + [EMPTY_BLOCK])[i] == gt[i];
    }
    forall i | 0 <= i < |gt|
      ensures gf[i] == gt[i]
    {
      assert (gt + [EMPTY_BLOCK])[i] == gt[i];
    }
  }

  lemma IfFinished(c: Scope, g: Graph, h: Graph, gt: Graph, gf: Graph, b: nat, code: Code, t': nat, f': nat)
    requires Branched(c, g, h, gt, gf, b, code, t', f')
    ensures b < |gf| && t' < |gf| && f' < |gf|
    ensures var k := Joined(gf, b, CondBr(code.result, |h|, |gt|), t', f');
            IsFinished(c, k, b) && forall i :: |g| <= i < |gf| ==> IsFinished(c, k, i)
  {
    hide Spans, Usable;
    JoinedBlocks(c, g, h, gt, gf, b, code, t', f');
    var k := Joined(gf, b, CondBr(code.result, |h|, |gt|), t', f');
    assert [] + code.instrs == code.instrs;
    forall i | |g| <= i < |gf|
      ensures IsFinished(c, k, i)
    {
      if i < |gt| && i != t' {
        assert (gt + [EMPTY_BLOCK])[i] == gt[i] && gf[i] == gt[i] && k[i] == gt[i];
        assert IsFinished(c, gt, i);
      } else if i >= |gt| && i != f' {
        assert IsFinished(c, gf, i) && k[i] == gf[i];
      }
    }
  }

  lemma IfSpans(c: Scope, g: Graph, h: Graph, gt: Graph, gf: Graph, b: nat, code: Code, t': nat, f': nat)
    requires Branched(c, g, h, gt, gf, b, code, t', f')
    ensures b < |gf| && t' < |gf| && f' < |gf|
    ensures var k := Joined(gf, b, CondBr(code.result, |h|, |gt|), t', f');
            Spans(k, b, |gf|, |g|, |k|)
  {
    hide IsFinished, CodeIsDefined;
    JoinedBlocks(c, g, h, gt, gf, b, code, t', f');
    var e, t, f := |gf|, |h|, |gt|;
    var k := Joined(gf, b, CondBr(code.result, t, f), t', f');
    assert Edge(k, b, t) && Edge(k, b, f) && Edge(k, t', e) && Edge(k, f', e);
    ReachesEdge(k, b, t);
    ReachesEdge(k, b, f);
    ReachesEdge(k, t', e);
    ReachesEdge(k, f', e);
    ReachesSelf(k, e);
    SpansGrows(gt, k, t, t', |h| + 1, |gt|);
    SpansWithin(k, b, t, t', e, |h| + 1, |gt|);
    SpansGrows(gf, k, f, f', |gt| + 1, |gf|);
    SpansWithin(k, b, f, f', e, |gt| + 1, |gf|);
    ReachesTrans(k, t, t', e);
    ReachesTrans(k, f, f', e);
  }

  lemma IfGrown(c: Scope, g: Graph, h: Graph, gt: Graph, gf: Graph, b: nat, code: Code, t: nat, t': nat, f: nat,
                f': nat)
    requires Branched(c, g, h, gt, gf, b, code, t', f') && t == |h| && f == |gt|
    ensures b < t' < f' < |gf|
    ensures var k := Joined(gf, b, CondBr(code.result, t, f), t', f');
            && Grown(c, g, k, b, |gf|) && Grows(gt, k) && Grows(gf, k)
            && IsBlock(k, b, code.instrs, CondBr(code.result, t, f))
            && IsBlock(k, t', [], Br(|gf|)) && IsBlock(k, f', [], Br(|gf|))
  {
    hide IsFinished, Spans;
    JoinedBlocks(c, g, h, gt, gf, b, code, t', f');
    IfFinished(c, g, h, gt, gf, b, code, t', f');
    IfSpans(c, g, h, gt, gf, b, code, t', f');
  }

  /** The blocks of an if statement, from the moment both branches are there. */
  lemma IfAssembled(c: Scope, gt: Graph, gf: Graph, k: Graph, s: Statement, b: nat, t: nat, t': nat, f: nat, f': nat,
                    e: nat)
    requires s.If? && b != 0 && Grows(gt, k) && Grows(gf, k)
    requires BodyAt(c, gt, s.onTrue, t, t') && BodyAt(c, gf, s.onFalse, f, f')
    requires var code := TestCode(c, s.test, b, 0); IsBlock(k, b, code.instrs, CondBr(code.result, t, f))
    requires IsBlock(k, t', [], Br(e)) && IsBlock(k, f', [], Br(e))
    ensures StatementAt(c, k, s, b, e)
  {
    BodyPersists(c, gt, k, s.onTrue, t, t');
    BodyPersists(c, gf, k, s.onFalse, f, f');
  }

  // ----- while -----

  /** The end of a while statement: the body goes back to the test in block b, which leaves for a new empty block. */
  function Looped(h: Graph, b: nat, cond: Operand, w: nat, w': nat): Graph
    requires b < |h| && w' < |h|
  {
    (h[w' := Block(h[w'].instrs, Br(b))] + [EMPTY_BLOCK])[b := Block(h[b].instrs, CondBr(cond, w, |h|))]
  }

  /** From the test to the exit, by way of the body and back, and through every block of the body. */
  lemma LoopSpans(h: Graph, b: nat, cond: Operand, w: nat, w': nat)
    requires b < w < |h| && w <= w' < |h| && Spans(h, w, w', w + 1, |h|) && Grows(h, Looped(h, b, cond, w, w'))
    ensures Spans(Looped(h, b, cond, w, w'), b, |h|, w, |h| + 1)
  {
    var k, e := Looped(h, b, cond, w, w'), |h|;
    assert Edge(k, b, w) && Edge(k, b, e) && Edge(k, w', b);
    hide Edge, Looped;
    ReachesEdge(k, b, w);
    ReachesEdge(k, b, e);
    ReachesEdge(k, w', b);
    ReachesSelf(k, e);
    ReachesTrans(k, w', b, e);
    SpansGrows(h, k, w, w', w + 1, |h|);
    SpansWithin(k, b, w, w', e, w + 1, |h|);
    ReachesTrans(k, w, w', e);
  }

  lemma WhileGrown(c: Scope, g: Graph, h: Graph, gw: Graph, b: nat, code: Code, w: nat, w': nat)
    requires b < |g| && g[b] == EMPTY_BLOCK
    requires |h| == |g| && ChangedOnly(g, h, b) && h[b] == Block(code.instrs, Open)
    requires Grown(c, h + [EMPTY_BLOCK], gw, |h|, w') && w == |h|
    requires CodeIsDefined(c, b, [], code)
    ensures b < w' < |gw|
    ensures var k := Looped(gw, b, code.result, w, w');
            && Grown(c, g, k, b, |gw|) && Grows(gw, k)
            && IsBlock(k, b, code.instrs, CondBr(code.result, w, |gw|)) && IsBlock(k, w', [], Br(b))
  {
    hide Usable, Spans, Reaches, Edge;
    var k, e := Looped(gw, b, code.result, w, w'), |gw|;
    assert [] + code.instrs == code.instrs;
    forall i | 0 <= i < |h|
      ensures gw[i] == h[i]
    {
      assert (h + [EMPTY_BLOCK])[i] == h[i];
    }
    assert Grows(gw, k);
    LoopSpans(gw, b, code.result, w, w');
    forall i | |g| <= i < |gw|
      ensures IsFinished(c, k, i)
    {
      if i != w' {
        assert IsFinished(c, gw, i) && k[i] == gw[i];
      }
    }
  }
}
