/** Whole programs: calls are answered by the program's own procedures, as deep as they go. */
module Linked {
  import opened Options
  import opened Symbols
  import opened Tokens
  import opened Ast
  import opened Types
  import opened Machine
  import opened Semantics
  import opened Lowering
  import opened Procedures
  import opened Simulation
  import opened Correctness
  import opened Reading
  import opened Checking
  import opened Passes
  import opened Items
  import opened Programs
  import opened ReadDeclarations
  import opened ReadNames
  import opened ProgramReadBack
  import opened Compiler
  import opened Driver

  // ----- the source -----

  /** Procedure j answers the request, its arguments bound as the built procedure binds them: last to first, but for
      wain. */
  ghost predicate ReturnsFrom(world: World, ps: seq<Procedure>, q: Request, r: Reply, j: nat, fuel: nat) {
    && j < |ps| && ps[j].name == q.callee && |q.args| == |ps[j].params|
    && ArgumentsFit(ps[j], BuiltArguments(ps[j], q.args))
    && RunProcedure(world, fuel, ps[j], BuiltArguments(ps[j], q.args), q.heap) ==
       Finished(IntV(r.val), r.heap, r.lines)
  }

  ghost predicate Returns(world: World, ps: seq<Procedure>, q: Request, r: Reply) {
    exists j: nat, fuel: nat :: ReturnsFrom(world, ps, q, r, j, fuel)
  }

  /** The replies of the program to calls that nest less than n deep. */
  ghost function Replies(ps: seq<Procedure>, address: Value -> int, n: nat): imap<Request, Reply>
    decreases n
  {
    if n == 0 then imap[] else NextReplies(World(Replies(ps, address, n - 1), address), ps)
  }

  /** The replies when calls are answered by the world. */
  ghost function NextReplies(world: World, ps: seq<Procedure>): imap<Request, Reply> {
    imap q: Request | IsAnswered(world, ps, q) :: ReplyTo(world, ps, q)
  }

  ghost predicate IsAnswered(world: World, ps: seq<Procedure>, q: Request) {
    exists r :: Returns(world, ps, q, r)
  }

  ghost function ReplyTo(world: World, ps: seq<Procedure>, q: Request): (r: Reply)
    requires IsAnswered(world, ps, q)
    ensures Returns(world, ps, q, r)
  {
    var r :| Returns(world, ps, q, r); r
  }

  // ----- the code -----

  ghost predicate HaltsFrom(world: World, ps: seq<Procedure>, gs: seq<Graph>, q: Request, r: Reply, j: nat, k: nat) {
    && j < |ps| == |gs| && ps[j].name == q.callee && |q.args| == |ps[j].params|
    && ArgumentsFit(BuiltProcedure(ps[j]), q.args)
    && Steps(gs[j], At(0, Start(world, q.args, q.heap)), k) == Returned(IntV(r.val), r.heap, r.lines)
  }

  ghost predicate Halts(world: World, ps: seq<Procedure>, gs: seq<Graph>, q: Request, r: Reply) {
    exists j: nat, k: nat :: HaltsFrom(world, ps, gs, q, r, j, k)
  }

  /** The replies of the blocks to calls that nest less than n deep. */
  ghost function CodeReplies(ps: seq<Procedure>, gs: seq<Graph>, address: Value -> int, n: nat): imap<Request, Reply>
    decreases n
  {
    if n == 0 then imap[] else NextCodeReplies(World(CodeReplies(ps, gs, address, n - 1), address), ps, gs)
  }

  ghost function NextCodeReplies(world: World, ps: seq<Procedure>, gs: seq<Graph>): imap<Request, Reply> {
    imap q: Request | IsAnsweredByCode(world, ps, gs, q) :: CodeReplyTo(world, ps, gs, q)
  }

  ghost predicate IsAnsweredByCode(world: World, ps: seq<Procedure>, gs: seq<Graph>, q: Request) {
    exists r :: Halts(world, ps, gs, q, r)
  }

  ghost function CodeReplyTo(world: World, ps: seq<Procedure>, gs: seq<Graph>, q: Request): (r: Reply)
    requires IsAnsweredByCode(world, ps, gs, q)
    ensures Halts(world, ps, gs, q, r)
  {
    var r :| Halts(world, ps, gs, q, r); r
  }

  // ----- both give the same replies -----

  /** A well-formed program in the fragment with the graphs of its procedures. */
  ghost predicate IsLinked(tokens: seq<Token>, ps: seq<Procedure>, gs: seq<Graph>) {
    && IsTextOf(tokens, ps) && IsValid(tokens, ps) && |gs| == |ps|
    && forall k :: 0 <= k < |ps| ==> IsPlain(ps[k]) && IsCodeOf(gs[k], BuiltProcedure(ps[k]))
  }

  lemma BuiltTwice(p: Procedure, args: seq<Value>)
    requires |args| == |p.params|
    ensures |BuiltArguments(p, args)| == |args| && BuiltArguments(p, BuiltArguments(p, args)) == args
  {
    ReversedAt(args);
    ReversedAt(Reversed(args));
    hide Reversed;
  }

  /** Arguments fit the source procedure if and only if they fit the built one in its order. */
  lemma FitEitherWay(p: Procedure, args: seq<Value>)
    requires |args| == |p.params|
    ensures ArgumentsFit(p, BuiltArguments(p, args)) <==> ArgumentsFit(BuiltProcedure(p), args)
  {
    ReversedAt(p.params);
    ReversedAt(args);
    hide Reversed, HasKind;
    BuiltTwice(p, args);
    if ArgumentsFit(p, BuiltArguments(p, args)) {
      BuiltArgumentsFit(p, BuiltArguments(p, args));
    }
    if ArgumentsFit(BuiltProcedure(p), args) {
      var xs := BuiltArguments(p, args);
      forall i | 0 <= i < |xs|
        ensures HasKind(xs[i], p.params[i].dclType)
      {
        var j := if p.name == "wain" then i else |xs| - 1 - i;
        assert xs[i] == args[j] && BuiltProcedure(p).params[j] == p.params[i];
      }
    }
  }

  /** What a linked program gives the meaning theorem for the procedure that is asked for. */
  lemma AskedFor(world: World, tokens: seq<Token>, ps: seq<Procedure>, gs: seq<Graph>, q: Request, j: nat,
                 o: Semantics.Outcome)
    requires IsLinked(tokens, ps, gs) && j < |ps| && |q.args| == |ps[j].params| && o != Unfinished
    ensures |gs| == |ps| && |BuiltArguments(ps[j], q.args)| == |ps[j].params|
    ensures ArgumentsFit(ps[j], BuiltArguments(ps[j], q.args)) <==> ArgumentsFit(BuiltProcedure(ps[j]), q.args)
    ensures ArgumentsFit(ps[j], BuiltArguments(ps[j], q.args)) ==>
              ((exists fuel: nat ::
                  RunProcedure(world, fuel, ps[j], BuiltArguments(ps[j], q.args), q.heap) == o) <==>
               (exists k: nat :: Steps(gs[j], At(0, Start(world, q.args, q.heap)), k) == Halt(o)))
  {
    var args := BuiltArguments(ps[j], q.args);
    BuiltTwice(ps[j], q.args);
    FitEitherWay(ps[j], q.args);
    hide RunProcedure, Steps, BuiltArguments, BuiltProcedure, ArgumentsFit, IsTextOf, IsValid, IsPlain, IsCodeOf, Halt;
    if ArgumentsFit(ps[j], args) {
      CodeMeansTheSource(world, tokens, ps, j, gs[j], args, q.heap, o);
    }
  }

  lemma ReturnedHalts(world: World, tokens: seq<Token>, ps: seq<Procedure>, gs: seq<Graph>, q: Request, r: Reply,
                      j: nat, fuel: nat)
    requires IsLinked(tokens, ps, gs) && ReturnsFrom(world, ps, q, r, j, fuel)
    ensures Halts(world, ps, gs, q, r)
  {
    hide IsLinked, RunProcedure, Steps, BuiltArguments, BuiltProcedure, ArgumentsFit;
    var o := Finished(IntV(r.val), r.heap, r.lines);
    AskedFor(world, tokens, ps, gs, q, j, o);
    var k: nat :| Steps(gs[j], At(0, Start(world, q.args, q.heap)), k) == Halt(o);
    assert HaltsFrom(world, ps, gs, q, r, j, k);
  }

  lemma HaltedReturns(world: World, tokens: seq<Token>, ps: seq<Procedure>, gs: seq<Graph>, q: Request, r: Reply,
                      j: nat, k: nat)
    requires IsLinked(tokens, ps, gs) && HaltsFrom(world, ps, gs, q, r, j, k)
    ensures Returns(world, ps, q, r)
  {
    hide IsLinked, RunProcedure, Steps, BuiltArguments, BuiltProcedure, ArgumentsFit;
    var o := Finished(IntV(r.val), r.heap, r.lines);
    AskedFor(world, tokens, ps, gs, q, j, o);
    assert Steps(gs[j], At(0, Start(world, q.args, q.heap)), k) == Halt(o);
    var fuel: nat :| RunProcedure(world, fuel, ps[j], BuiltArguments(ps[j], q.args), q.heap) == o;
    assert ReturnsFrom(world, ps, q, r, j, fuel);
  }

  lemma SameReplies(world: World, tokens: seq<Token>, ps: seq<Procedure>, gs: seq<Graph>, q: Request, r: Reply)
    requires IsLinked(tokens, ps, gs)
    ensures Returns(world, ps, q, r) <==> Halts(world, ps, gs, q, r)
  {
    hide IsLinked, ReturnsFrom, HaltsFrom;
    if j: nat, fuel: nat :| ReturnsFrom(world, ps, q, r, j, fuel) {
      ReturnedHalts(world, tokens, ps, gs, q, r, j, fuel);
    }
    if j: nat, k: nat :| HaltsFrom(world, ps, gs, q, r, j, k) {
      HaltedReturns(world, tokens, ps, gs, q, r, j, k);
    }
  }

  /** The two tables of replies in one world. */
  lemma SameAnswer(world: World, tokens: seq<Token>, ps: seq<Procedure>, gs: seq<Graph>, q: Request)
    requires IsLinked(tokens, ps, gs) && DistinctNames(ps)
    ensures IsAnswered(world, ps, q) <==> IsAnsweredByCode(world, ps, gs, q)
    ensures IsAnswered(world, ps, q) ==> ReplyTo(world, ps, q) == CodeReplyTo(world, ps, gs, q)
  {
    hide IsLinked, Returns, Halts, ReplyTo, CodeReplyTo;
    forall r
      ensures Returns(world, ps, q, r) <==> Halts(world, ps, gs, q, r)
    {
      SameReplies(world, tokens, ps, gs, q, r);
    }
    if IsAnswered(world, ps, q) {
      OneReply(world, tokens, ps, gs, q, ReplyTo(world, ps, q), CodeReplyTo(world, ps, gs, q));
    }
  }

  /** Blocks halt in one way. */
  lemma OneReply(world: World, tokens: seq<Token>, ps: seq<Procedure>, gs: seq<Graph>, q: Request, r: Reply, r': Reply)
    requires DistinctNames(ps) && Halts(world, ps, gs, q, r) && Halts(world, ps, gs, q, r')
    ensures r == r'
  {
    hide Steps, BuiltProcedure, ArgumentsFit;
    var j: nat, k: nat :| HaltsFrom(world, ps, gs, q, r, j, k);
    var j': nat, k': nat :| HaltsFrom(world, ps, gs, q, r', j', k');
    assert j == j';
    var c := At(0, Start(world, q.args, q.heap));
    HaltedStays(gs[j], c, k, if k < k' then k' else k);
    HaltedStays(gs[j], c, k', if k < k' then k' else k);
  }

  /** Source and code answer every call alike, however deep calls may nest. */
  lemma {:induction false} RepliesAreTheSame(tokens: seq<Token>, ps: seq<Procedure>, gs: seq<Graph>,
                                             address: Value -> int, n: nat)
    requires IsLinked(tokens, ps, gs)
    ensures Replies(ps, address, n) == CodeReplies(ps, gs, address, n)
    decreases n
  {
    hide *;
    RepliesUnfold(ps, gs, address, n);
    if n > 0 {
      RepliesAreTheSame(tokens, ps, gs, address, n - 1);
      NextAreTheSame(World(Replies(ps, address, n - 1), address), tokens, ps, gs);
    }
  }

  lemma RepliesUnfold(ps: seq<Procedure>, gs: seq<Graph>, address: Value -> int, n: nat)
    ensures n == 0 ==> Replies(ps, address, n) == CodeReplies(ps, gs, address, n)
    ensures n > 0 ==> Replies(ps, address, n) == NextReplies(World(Replies(ps, address, n - 1), address), ps)
    ensures n > 0 ==>
              CodeReplies(ps, gs, address, n) ==
              NextCodeReplies(World(CodeReplies(ps, gs, address, n - 1), address), ps, gs)
  {
    hide NextReplies, NextCodeReplies;
  }

  lemma NextAreTheSame(world: World, tokens: seq<Token>, ps: seq<Procedure>, gs: seq<Graph>)
    requires IsLinked(tokens, ps, gs)
    ensures NextReplies(world, ps) == NextCodeReplies(world, ps, gs)
  {
    hide *;
    LinkedNames(tokens, ps, gs);
    NextHave(world, ps, gs);
    forall q: Request
      ensures q in NextReplies(world, ps) <==> q in NextCodeReplies(world, ps, gs)
      ensures q in NextReplies(world, ps) ==> NextReplies(world, ps)[q] == NextCodeReplies(world, ps, gs)[q]
    {
      SameAnswer(world, tokens, ps, gs, q);
    }
  }

  lemma NextHave(world: World, ps: seq<Procedure>, gs: seq<Graph>)
    ensures forall q :: q in NextReplies(world, ps) <==> IsAnswered(world, ps, q)
    ensures forall q :: q in NextReplies(world, ps) ==> NextReplies(world, ps)[q] == ReplyTo(world, ps, q)
    ensures forall q :: q in NextCodeReplies(world, ps, gs) <==> IsAnsweredByCode(world, ps, gs, q)
    ensures forall q :: q in NextCodeReplies(world, ps, gs) ==>
                          NextCodeReplies(world, ps, gs)[q] == CodeReplyTo(world, ps, gs, q)
  {
    hide IsAnswered, IsAnsweredByCode, ReplyTo, CodeReplyTo;
  }

  lemma LinkedNames(tokens: seq<Token>, ps: seq<Procedure>, gs: seq<Graph>)
    requires IsLinked(tokens, ps, gs)
    ensures DistinctNames(ps)
  {
    hide IsDeclared, IsChecked, IsTextOf, IsPlain, IsCodeOf;
  }

  /** A well-formed program in the fragment and its blocks, with calls answered by their own procedures up to any depth,
      halt with the same outcomes: given arguments in source order wain's, in reverse all others'. */
  lemma ProgramIsCorrect(tokens: seq<Token>, ps: seq<Procedure>, gs: seq<Graph>, address: Value -> int, n: nat, k: nat,
                         args: seq<Value>, heap: Heap, o: Semantics.Outcome)
    requires IsLinked(tokens, ps, gs) && k < |ps| && ArgumentsFit(ps[k], args) && o != Unfinished
    ensures var source := World(Replies(ps, address, n), address);
            var code := World(CodeReplies(ps, gs, address, n), address);
            (exists fuel: nat :: RunProcedure(source, fuel, ps[k], args, heap) == o) <==>
            (exists m: nat :: Steps(gs[k], At(0, Start(code, BuiltArguments(ps[k], args), heap)), m) == Halt(o))
  {
    hide RunProcedure, Steps, BuiltArguments, BuiltProcedure, ArgumentsFit, IsTextOf, IsValid, IsPlain, IsCodeOf;
    RepliesAreTheSame(tokens, ps, gs, address, n);
    CodeMeansTheSource(World(Replies(ps, address, n), address), tokens, ps, k, gs[k], args, heap, o);
  }

  // ----- the order of arguments -----

  /** The same with the arguments bound in source order, as the language has it. */
  ghost predicate ReturnsInOrder(world: World, ps: seq<Procedure>, q: Request, r: Reply) {
    exists j: nat, fuel: nat ::
      && j < |ps| && ps[j].name == q.callee && ArgumentsFit(ps[j], q.args)
      && RunProcedure(world, fuel, ps[j], q.args, q.heap) == Finished(IntV(r.val), r.heap, r.lines)
  }

  lemma OneOrNone(p: Procedure, args: seq<Value>)
    requires |args| == |p.params| && (p.name == "wain" || |args| <= 1)
    ensures BuiltArguments(p, args) == args
  {
    ReversedAt(args);
  }

  /** Where every procedure but wain has at most one parameter, calls mean what the language says. */
  lemma OrderIsKept(world: World, ps: seq<Procedure>, q: Request, r: Reply)
    requires forall j :: 0 <= j < |ps| ==> ps[j].name == "wain" || |ps[j].params| <= 1
    ensures Returns(world, ps, q, r) <==> ReturnsInOrder(world, ps, q, r)
  {
    hide RunProcedure, BuiltArguments;
    forall j: nat | j < |ps| && |q.args| == |ps[j].params|
      ensures BuiltArguments(ps[j], q.args) == q.args
    {
      OneOrNone(ps[j], q.args);
    }
    if j: nat, fuel: nat :| ReturnsFrom(world, ps, q, r, j, fuel) {
      assert ReturnsInOrder(world, ps, q, r);
    }
    if ReturnsInOrder(world, ps, q, r) {
      var j: nat, fuel: nat :|
        && j < |ps| && ps[j].name == q.callee && ArgumentsFit(ps[j], q.args)
        && RunProcedure(world, fuel, ps[j], q.args, q.heap) == Finished(IntV(r.val), r.heap, r.lines);
      assert ReturnsFrom(world, ps, q, r, j, fuel);
    }
  }

  lemma RunsToFirst(world: World, p: Procedure, x: int, y: int, heap: Heap)
    requires |p.params| == 2 && p.params[0].id != p.params[1].id && p.dcls == [] && p.stmts == []
    requires p.ret == JustTerm(JustFactor(Id(p.params[0].id)))
    ensures RunProcedure(world, 0, p, [IntV(x), IntV(y)], heap) == Finished(IntV(x), heap, [])
  {
    var ds, vals, a := p.params, [IntV(x), IntV(y)], p.params[0].id;
    assert ds + p.dcls == ds && vals + InitialValues(p.dcls) == vals;
    assert ds[..1] == [ds[0]] && vals[..1] == [vals[0]];
    var first := Bound([ds[0]], [vals[0]]);
    assert [ds[0]][..0] == [] && [vals[0]][..0] == [] && Bound([], []) == map[];
    assert first == map[][a := IntV(x)];
    var vars := Bound(ds, vals);
    assert vars == first[ds[1].id := vals[1]] && a in vars && vars[a] == IntV(x);
    var m := Memory(vars, heap, [], world);
    assert EvalFactor(Id(a), m) == Some((IntV(x), m));
    assert EvalTerm(p.ret.term, m) == Some((IntV(x), m));
    assert EvalExpr(p.ret, m) == Some((IntV(x), m));
    assert ExecAll(0, p.stmts, m) == Done(m);
  }

  /** `int g(int a, int b) { return a; }` returns its second argument. */
  lemma FirstIsSecond(world: World, name: string, a: string, b: string, x: int, y: int, heap: Heap)
    requires name != "wain" && a != b
    ensures var p := Procedure(name, [Dcl(a, Int, ""), Dcl(b, Int, "")], [], [], JustTerm(JustFactor(Id(a))));
            var q := Request(name, [IntV(x), IntV(y)], heap);
            ReturnsInOrder(world, [p], q, Reply(x, heap, [])) && Returns(world, [p], q, Reply(y, heap, []))
  {
    var ds := [Dcl(a, Int, ""), Dcl(b, Int, "")];
    var e := JustTerm(JustFactor(Id(a)));
    var p := Procedure(name, ds, [], [], e);
    var q := Request(name, [IntV(x), IntV(y)], heap);
    RunsToFirst(world, p, x, y, heap);
    RunsToFirst(world, p, y, x, heap);
    ReversedAt(q.args);
    assert BuiltArguments(p, q.args) == [IntV(y), IntV(x)];
    assert ReturnsFrom(world, [p], q, Reply(y, heap, []), 0, 0);
    assert RunProcedure(world, 0, [p][0], q.args, heap) == Finished(IntV(x), heap, []);
  }
}
