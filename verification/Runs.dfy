/** Whole runs: the block graph and the source program go through the same states and halt together. */
module Runs {
  import opened Options
  import opened Symbols
  import opened Ast
  import opened Types
  import opened Machine
  import opened Semantics
  import opened Lowering
  import opened Simulation

  /** After k steps from block b the machine has done what r says, and goes on at block n if r is a normal end. */
  ghost predicate Follows(c: Scope, g: Graph, b: nat, st: State, k: nat, n: nat, r: Result, fuel: nat) {
    var end := Steps(g, At(b, st), k);
    match r
    case Done(mem) => end.At? && end.block == n && Related(c, mem, end.st)
    case Error => end == Trapped
    case OutOfFuel => k >= fuel && end.At?
  }

  /** Some steps, then more. */
  lemma FollowsOn(c: Scope, g: Graph, b: nat, st: State, j: nat, b': nat, st': State, k: nat, n: nat, r: Result,
                  less: nat, fuel: nat)
    requires Steps(g, At(b, st), j) == At(b', st')
    requires Follows(c, g, b', st', k, n, r, less) && less + j >= fuel
    ensures Follows(c, g, b, st, j + k, n, r, fuel)
  {
    StepsCompose(g, At(b, st), j, k);
  }

  lemma OneStep(g: Graph, b: nat, st: State)
    ensures Steps(g, At(b, st), 1) == StepBlock(g, b, st)
  {
    assert Steps(g, StepBlock(g, b, st), 0) == StepBlock(g, b, st);
  }

  /** A block with nothing but a jump. */
  lemma Hop(g: Graph, b: nat, st: State, n: nat)
    requires IsBlock(g, b, [], Br(n))
    ensures Steps(g, At(b, st), 1) == At(n, st)
  {
    OneStep(g, b, st);
  }

  /** A body, then a hop if the body ends. */
  lemma FollowsHop(c: Scope, g: Graph, b: nat, st: State, k: nat, n: nat, n': nat, r: Result, fuel: nat)
      returns (k': nat)
    requires Follows(c, g, b, st, k, n, r, fuel) && IsBlock(g, n, [], Br(n'))
    ensures Follows(c, g, b, st, k', n', r, fuel) && k' >= k
  {
    k' := k;
    if r.Done? {
      k' := k + 1;
      StepsCompose(g, At(b, st), k, 1);
      Hop(g, n, Steps(g, At(b, st), k).st, n');
    }
  }

  /** A test as a step: to the branch it picks, or to the error. */
  lemma TestSteps(c: Scope, g: Graph, t: Test, b: nat, onTrue: nat, onFalse: nat, mem: Memory, st: State)
    requires SoundScope(c) && Related(c, mem, st) && b != 0
    requires TestIsTyped(c.env, t) && PlainTest(c.env, t)
    requires var code := TestCode(c, t, b, 0); IsBlock(g, b, code.instrs, CondBr(code.result, onTrue, onFalse))
    ensures var next := Steps(g, At(b, st), 1);
            match EvalTest(t, mem)
            case None => next == Trapped
            case Some((v, mem')) =>
              next.At? && next.block == (if v then onTrue else onFalse) && Related(c, mem', next.st)
  {
    hide Related, SoundScope, TestCode, EvalTest, PlainTest, TestIsTyped;
    TestRuns(c, t, b, mem, st);
    OneStep(g, b, st);
  }

  lemma SimpleSteps(c: Scope, g: Graph, s: Statement, b: nat, n: nat, fuel: nat, mem: Memory, st: State)
    requires SoundScope(c) && Related(c, mem, st) && b != 0 && IsSimple(s)
    requires StatementIsTyped(c.env, s) && PlainStatement(c.env, s)
    requires b < |g| && g[b] == Block(SimpleCode(c, s, b, 0), Br(n))
    ensures Follows(c, g, b, st, 1, n, Exec(fuel, s, mem), fuel)
  {
    hide Related, SoundScope, SimpleCode, ExecSimple;
    SimpleRuns(c, s, b, mem, st);
    OneStep(g, b, st);
  }

  lemma {:induction false} StatementRuns(c: Scope, g: Graph, s: Statement, b: nat, e: nat, n: nat, fuel: nat,
                                         mem: Memory, st: State)
      returns (k: nat)
    requires SoundScope(c) && Related(c, mem, st)
    requires StatementAt(c, g, s, b, e) && Continues(g, s, e, n)
    requires StatementIsTyped(c.env, s) && PlainStatement(c.env, s)
    ensures Follows(c, g, b, st, k, n, Exec(fuel, s, mem), fuel)
    decreases fuel, s, 1
  {
    hide Related, SoundScope, Follows;
    match s
    case If(_, _, _) =>
      k := IfRuns(c, g, s, b, e, fuel, mem, st);
      k := FollowsHop(c, g, b, st, k, e, n, Exec(fuel, s, mem), fuel);
    case While(_, _) =>
      k := WhileRuns(c, g, s, b, e, fuel, mem, st);
      k := FollowsHop(c, g, b, st, k, e, n, Exec(fuel, s, mem), fuel);
    case _ =>
      SimpleSteps(c, g, s, b, n, fuel, mem, st);
      k := 1;
  }

  lemma {:induction false} BodyRuns(c: Scope, g: Graph, stmts: seq<Statement>, b: nat, e: nat, fuel: nat, mem: Memory,
                                    st: State)
      returns (k: nat)
    requires SoundScope(c) && Related(c, mem, st) && BodyAt(c, g, stmts, b, e)
    requires forall i :: 0 <= i < |stmts| ==> StatementIsTyped(c.env, stmts[i]) && PlainStatement(c.env, stmts[i])
    ensures Follows(c, g, b, st, k, e, ExecAll(fuel, stmts, mem), fuel)
    decreases fuel, stmts, 2
  {
    hide Related, SoundScope, StatementAt, Exec, StatementIsTyped, PlainStatement;
    if stmts == [] {
      k := 0;
    } else {
      var m: nat, n: nat :|
        StatementAt(c, g, stmts[0], b, m) && Continues(g, stmts[0], m, n) && BodyAt(c, g, stmts[1..], n, e);
      k := StatementRuns(c, g, stmts[0], b, m, n, fuel, mem, st);
      var r := Exec(fuel, stmts[0], mem);
      if r.Done? {
        var st1 := Steps(g, At(b, st), k).st;
        var j := BodyRuns(c, g, stmts[1..], n, e, fuel, r.store, st1);
        FollowsOn(c, g, b, st, k, n, st1, j, e, ExecAll(fuel, stmts, mem), fuel, fuel);
        k := k + j;
      }
    }
  }

  lemma {:induction false} IfRuns(c: Scope, g: Graph, s: Statement, b: nat, e: nat, fuel: nat, mem: Memory, st: State)
      returns (k: nat)
    requires SoundScope(c) && Related(c, mem, st) && s.If? && StatementAt(c, g, s, b, e)
    requires StatementIsTyped(c.env, s) && PlainStatement(c.env, s)
    ensures Follows(c, g, b, st, k, e, Exec(fuel, s, mem), fuel)
    decreases fuel, s, 0
  {
    hide Related, SoundScope, BodyAt, TestCode, EvalTest, ExecAll;
    var code := TestCode(c, s.test, b, 0);
    var t: nat, f: nat, t': nat, f': nat :|
      && IsBlock(g, b, code.instrs, CondBr(code.result, t, f))
      && BodyAt(c, g, s.onTrue, t, t')
      && BodyAt(c, g, s.onFalse, f, f')
      && IsBlock(g, t', [], Br(e))
      && IsBlock(g, f', [], Br(e));
    TestSteps(c, g, s.test, b, t, f, mem, st);
    k := 1;
    var v := EvalTest(s.test, mem);
    if v.Some? {
      var st1 := Steps(g, At(b, st), 1).st;
      var body := if v.value.0 then s.onTrue else s.onFalse;
      var first, last := if v.value.0 then t else f, if v.value.0 then t' else f';
      var r := ExecAll(fuel, body, v.value.1);
      var j := BodyRuns(c, g, body, first, last, fuel, v.value.1, st1);
      j := FollowsHop(c, g, first, st1, j, last, e, r, fuel);
      FollowsOn(c, g, b, st, 1, first, st1, j, e, r, fuel, fuel);
      k := 1 + j;
    }
  }

  lemma {:induction false} WhileRuns(c: Scope, g: Graph, s: Statement, b: nat, e: nat, fuel: nat, mem: Memory,
                                     st: State)
      returns (k: nat)
    requires SoundScope(c) && Related(c, mem, st) && s.While? && StatementAt(c, g, s, b, e)
    requires StatementIsTyped(c.env, s) && PlainStatement(c.env, s)
    ensures Follows(c, g, b, st, k, e, Exec(fuel, s, mem), fuel)
    decreases fuel, s, 0
  {
    hide Related, SoundScope, BodyAt, TestCode, EvalTest, ExecAll;
    k := 0;
    if fuel > 0 {
      var code := TestCode(c, s.test, b, 0);
      var w: nat, w': nat :|
        && IsBlock(g, b, code.instrs, CondBr(code.result, w, e))
        && BodyAt(c, g, s.body, w, w')
        && IsBlock(g, w', [], Br(b));
      TestSteps(c, g, s.test, b, w, e, mem, st);
      k := 1;
      var v := EvalTest(s.test, mem);
      if v.Some? && v.value.0 {
        var st1 := Steps(g, At(b, st), 1).st;
        var r := ExecAll(fuel - 1, s.body, v.value.1);
        var j := BodyRuns(c, g, s.body, w, w', fuel - 1, v.value.1, st1);
        j := FollowsHop(c, g, w, st1, j, w', b, r, fuel - 1);
        FollowsOn(c, g, b, st, 1, w, st1, j, b, r, fuel - 1, fuel);
        k := 1 + j;
        if r.Done? {
          var st2 := Steps(g, At(b, st), k).st;
          var i := WhileRuns(c, g, s, b, e, fuel - 1, r.store, st2);
          FollowsOn(c, g, b, st, k, b, st2, i, e, Exec(fuel - 1, s, r.store), fuel - 1, fuel);
          k := k + i;
        }
      }
    }
  }
}
