/** The code generator: a builder with a current insertion block, driven by a walk over the trees. */
module Codegen {
  import opened Options
  import opened Symbols
  import opened Ast
  import opened Types
  import opened Machine
  import opened Lowering
  import opened Flow
  import opened Shapes
  import opened Numerals
  import opened Procedures

  /** g with instructions added at the end of block b. */
  function Appended(g: Graph, b: nat, instrs: seq<Instr>): Graph
    requires b < |g|
  {
    g[b := Block(g[b].instrs + instrs, g[b].term)]
  }

  lemma AppendedTwice(g: Graph, b: nat, x: seq<Instr>, y: seq<Instr>)
    requires b < |g|
    ensures Appended(Appended(g, b, x), b, y) == Appended(g, b, x + y)
  {
    assert g[b].instrs + x + y == g[b].instrs + (x + y);
  }

  lemma AppendedNothing(g: Graph, b: nat)
    requires b < |g|
    ensures Appended(g, b, []) == g
  {
    assert g[b].instrs + [] == g[b].instrs;
  }

  /** The return block is closed, and the rest was finished already. */
  lemma ReturnAssembled(c: Scope, e: Expr, k: Graph, g: Graph, r: nat)
    requires r < |k| && g == k[r := Block(ExprCode(c, e, r, 0).instrs, Ret(ExprCode(c, e, r, 0).result))]
    ensures g[r].term.Ret? && UsesAreDefined(c, r, [], g[r].instrs) &&
            Usable(c, g[r].term.val, r, g[r].instrs, |g[r].instrs|)
  {
    hide ExprCode, UsesAreDefined, Usable;
    ExprIsDefined(c, e, r, []);
    assert [] + ExprCode(c, e, r, 0).instrs == ExprCode(c, e, r, 0).instrs;
  }

  /** Every block but the return block is finished. */
  lemma OthersFinished(c: Scope, p: Procedure, h: Graph, k: Graph, g: Graph, r: nat)
    requires HasInitialValues(p) && h == [Block(EntryCode(c, p), Br(1)), EMPTY_BLOCK]
    requires Grown(c, h, k, 1, r) && r != 0 && |g| == |k| && forall b :: 0 <= b < |k| && b != r ==> g[b] == k[b]
    ensures forall b :: 0 <= b < |g| && b != r ==> IsFinished(c, g, b)
  {
    hide EntryCode;
    assert k[0] == h[0] == g[0];
    EntryIsDefined(c, p);
    forall b | 0 <= b < |g| && b != r
      ensures IsFinished(c, g, b)
    {
      assert b >= 2 ==> IsFinished(c, k, b);
    }
  }

  lemma AllSpanned(c: Scope, h: Graph, k: Graph, g: Graph, r: nat)
    requires |h| == 2 && h[0].term == Br(1) && Grown(c, h, k, 1, r) && r != 0
    requires |g| == |k| && forall b :: 0 <= b < |k| && b != r ==> g[b] == k[b]
    ensures Spans(g, 0, r, 0, |g|)
  {
    hide IsFinished;
    assert g[0] == k[0] == h[0];
    assert Edge(g, 0, 1);
    ReachesEdge(g, 0, 1);
    ReachesSelf(g, 0);
    ReachesSelf(g, r);
    SpansGrows(k, g, 1, r, 2, |g|);
    SpansWithin(g, 0, 1, r, r, 2, |g|);
  }

  /** The entry block, the statements from block 1 to block r, and the return in block r. */
  lemma ProcedureAssembled(c: Scope, p: Procedure, h: Graph, k: Graph, g: Graph, r: nat)
    requires HasInitialValues(p) && h == [Block(EntryCode(c, p), Br(1)), EMPTY_BLOCK]
    requires Grown(c, h, k, 1, r) && r != 0 && BodyAt(c, k, p.stmts, 1, r)
    requires var code := ExprCode(c, p.ret, r, 0); g == k[r := Block([] + code.instrs, Ret(code.result))]
    ensures ProcedureAt(c, g, p, r) && IsWellFormed(c, g, r)
  {
    hide EntryCode, ExprCode, BodyAt, Spans, IsFinished, UsesAreDefined, Usable;
    var code := ExprCode(c, p.ret, r, 0);
    assert [] + code.instrs == code.instrs;
    BodyPersists(c, k, g, p.stmts, 1, r);
    assert IsBlock(g, 0, EntryCode(c, p), Br(1)) by { assert k[0] == h[0] == g[0]; }
    ReturnAssembled(c, p.ret, k, g, r);
    OthersFinished(c, p, h, k, g, r);
    AllSpanned(c, h, k, g, r);
  }

  class CodeGenerator {
    const env: TypeEnv
    var table: map<string, Operand>
    var blocks: Graph
    var insert: nat

    constructor (env: TypeEnv)
      ensures this.env == env && table == map[] && blocks == [] && insert == 0
    {
      this.env := env;
      table := map[];
      blocks := [];
      insert := 0;
    }

    function Scope(): Scope
      reads this`table
    {
      Lowering.Scope(env, table)
    }

    /** There is a block to add to. */
    predicate IsOpen()
      reads this
    {
      insert < |blocks| && blocks[insert].term == Open
    }

    /** The position the next instruction gets. */
    function Next(): nat
      requires IsOpen()
      reads this
    {
      |blocks[insert].instrs|
    }

    // ----- the builder -----

    method CreateBlock() returns (b: nat)
      modifies this`blocks
      ensures b == |old(blocks)| && blocks == old(blocks) + [EMPTY_BLOCK]
    {
      b := |blocks|;
      blocks := blocks + [EMPTY_BLOCK];
    }

    method SetInsertPoint(b: nat)
      modifies this`insert
      ensures insert == b
    {
      insert := b;
    }

    method Emit(i: Instr) returns (v: Operand)
      requires IsOpen()
      modifies this`blocks
      ensures IsOpen() && blocks == Appended(old(blocks), insert, [i]) && v == Reg(insert, old(Next()))
    {
      v := Reg(insert, |blocks[insert].instrs|);
      blocks := blocks[insert := Block(blocks[insert].instrs + [i], blocks[insert].term)];
    }

    method Terminate(t: Terminator)
      requires IsOpen() && t != Open
      modifies this`blocks
      ensures |blocks| == |old(blocks)|
      ensures blocks == old(blocks)[insert := Block(old(blocks)[insert].instrs, t)]
    {
      blocks := blocks[insert := Block(blocks[insert].instrs, t)];
    }

    // ----- expressions -----

    /** The expression's code has been appended, and v holds its value. */
    method GenExpr(e: Expr) returns (v: Operand)
      requires IsOpen()
      modifies this`blocks
      ensures IsOpen()
      ensures var code := ExprCode(Scope(), e, insert, old(Next()));
              blocks == Appended(old(blocks), insert, code.instrs) && v == code.result
      decreases e
    {
      hide TermCode, SumCode;
      if e.JustTerm? {
        v := GenTerm(e.term);
      } else {
        ghost var c, g, b, at := Scope(), blocks, insert, Next();
        ghost var x := TermCode(c, e.term, b, at);
        ghost var y := ExprCode(c, e.left, b, at + |x.instrs|);
        ghost var z := SumCode(c, e, y.result, x.result, b, at + |x.instrs| + |y.instrs|);
        ghost var code := ExprCode(c, e, b, at);
        assert code == Code(x.instrs + y.instrs + z.instrs, z.result);
        var w := GenTerm(e.term);
        assert Next() == at + |x.instrs| && Scope() == c;
        var u := GenExpr(e.left);
        AppendedTwice(g, b, x.instrs, y.instrs);
        assert Next() == at + |x.instrs| + |y.instrs| && Scope() == c;
        v := GenSum(e, u, w);
        AppendedTwice(g, b, x.instrs + y.instrs, z.instrs);
      }
    }

    /** The part of GenExpr after both operands. */
    method GenSum(e: Expr, u: Operand, w: Operand) returns (v: Operand)
      requires IsOpen() && !e.JustTerm?
      modifies this`blocks
      ensures IsOpen()
      ensures var code := SumCode(Scope(), e, u, w, insert, old(Next()));
              blocks == Appended(old(blocks), insert, code.instrs) && v == code.result
    {
      ghost var g, b := blocks, insert;
      if ExprType(env, e) == IntStar {
        if e.Plus? {
          if ExprType(env, e.left) == Int {
            v := Emit(Gep(w, u));
          } else {
            v := Emit(Gep(u, w));
          }
        } else {
          var neg := Emit(Bin(Sub, ConstInt(0), w));
          v := Emit(Gep(u, neg));
          AppendedTwice(g, b, [Bin(Sub, ConstInt(0), w)], [Gep(u, neg)]);
          assert [Bin(Sub, ConstInt(0), w)] + [Gep(u, neg)] == SumCode(Scope(), e, u, w, b, old(Next())).instrs;
        }
      } else if e.Minus? {
        if TermType(env, e.term) == IntStar && ExprType(env, e.left) == IntStar {
          var p := Emit(PtrToInt(w));
          var q := Emit(PtrToInt(u));
          AppendedTwice(g, b, [PtrToInt(w)], [PtrToInt(u)]);
          v := Emit(Bin(SDiv, q, p));
          AppendedTwice(g, b, [PtrToInt(w)] + [PtrToInt(u)], [Bin(SDiv, q, p)]);
          assert [PtrToInt(w)] + [PtrToInt(u)] + [Bin(SDiv, q, p)] == SumCode(Scope(), e, u, w, b, old(Next())).instrs;
        } else {
          v := Emit(Bin(Sub, u, w));
        }
      } else {
        v := Emit(Bin(Add, u, w));
      }
    }

    method GenTerm(t: Term) returns (v: Operand)
      requires IsOpen()
      modifies this`blocks
      ensures IsOpen()
      ensures var code := TermCode(Scope(), t, insert, old(Next()));
              blocks == Appended(old(blocks), insert, code.instrs) && v == code.result
      decreases t
    {
      hide FactorCode;
      ghost var g, b, at := blocks, insert, Next();
      match t
      case JustFactor(factor) =>
        v := GenFactor(factor);
      case _ =>
        var w := GenFactor(t.factor);
        ghost var x := FactorCode(Scope(), t.factor, b, at).instrs;
        var u := GenTerm(t.left);
        ghost var y := TermCode(Scope(), t.left, b, at + |x|).instrs;
        AppendedTwice(g, b, x, y);
        var op := if t.Times? then Mul else if t.Slash? then SDiv else SRem;
        v := Emit(Bin(op, u, w));
        AppendedTwice(g, b, x + y, [Bin(op, u, w)]);
    }

    method GenFactor(f: Factor) returns (v: Operand)
      requires IsOpen()
      modifies this`blocks
      ensures IsOpen()
      ensures var code := FactorCode(Scope(), f, insert, old(Next()));
              blocks == Appended(old(blocks), insert, code.instrs) && v == code.result
      decreases f
    {
      hide ExprCode, LvalueCode, ArgsCode;
      ghost var g, b, at := blocks, insert, Next();
      AppendedNothing(g, b);
      match f
      case Id(name) =>
        v := Emit(Load(Lookup(Scope(), name)));
      case Num(n) =>
        v := ConstInt(n);
      case NullValue =>
        v := ConstNull;
      case Paren(e) =>
        v := GenExpr(e);
      case NewArray(size) =>
        var n := GenExpr(size);
        ghost var x := ExprCode(Scope(), size, b, at).instrs;
        var bytes := Emit(Bin(Mul, n, ConstInt(4)));
        AppendedTwice(g, b, x, [Bin(Mul, n, ConstInt(4))]);
        var p := Emit(Malloc(bytes));
        AppendedTwice(g, b, x + [Bin(Mul, n, ConstInt(4))], [Malloc(bytes)]);
        v := Emit(Cast(p));
        AppendedTwice(g, b, x + [Bin(Mul, n, ConstInt(4))] + [Malloc(bytes)], [Cast(p)]);
        assert FactorCode(Scope(), f, b, at).instrs == x + [Bin(Mul, n, ConstInt(4))] + [Malloc(bytes)] + [Cast(p)];
      case AddressOf(lvalue) =>
        var a := GenLvalue(lvalue);
        v := Emit(Load(a));
        AppendedTwice(g, b, LvalueCode(Scope(), lvalue, b, at).instrs, [Load(a)]);
      case Deref(pointer) =>
        var p := GenFactor(pointer);
        v := Emit(Load(p));
        AppendedTwice(g, b, FactorCode(Scope(), pointer, b, at).instrs, [Load(p)]);
      case Call(callee, args) =>
        var vs := GenArgs(args);
        v := Emit(Invoke(callee, vs));
        AppendedTwice(g, b, ArgsCode(Scope(), args, b, at).instrs, [Invoke(callee, vs)]);
    }

    /** The values of the arguments, in order. */
    method GenArgs(args: Arglist) returns (vs: seq<Operand>)
      requires IsOpen()
      modifies this`blocks
      ensures IsOpen()
      ensures var code := ArgsCode(Scope(), args, insert, old(Next()));
              blocks == Appended(old(blocks), insert, code.instrs) && vs == code.results
      decreases args
    {
      ghost var g, b, at := blocks, insert, Next();
      AppendedNothing(g, b);
      match args
      case NoArgs =>
        vs := [];
      case Args(e, rest) =>
        var v := GenExpr(e);
        ghost var x := ExprCode(Scope(), e, b, at).instrs;
        var more := GenArgs(rest);
        AppendedTwice(g, b, x, ArgsCode(Scope(), rest, b, at + |x|).instrs);
        vs := [v] + more;
    }

    method GenLvalue(l: Lvalue) returns (v: Operand)
      requires IsOpen()
      modifies this`blocks
      ensures IsOpen()
      ensures var code := LvalueCode(Scope(), l, insert, old(Next()));
              blocks == Appended(old(blocks), insert, code.instrs) && v == code.result
      decreases l
    {
      AppendedNothing(blocks, insert);
      match l
      case Var(name) =>
        v := Lookup(Scope(), name);
      case Target(pointer) =>
        v := GenFactor(pointer);
      case Enclosed(inner) =>
        v := GenLvalue(inner);
    }

    method GenTest(t: Test) returns (v: Operand)
      requires IsOpen()
      modifies this`blocks
      ensures IsOpen()
      ensures var code := TestCode(Scope(), t, insert, old(Next()));
              blocks == Appended(old(blocks), insert, code.instrs) && v == code.result
    {
      hide ExprCode;
      ghost var g, b, at := blocks, insert, Next();
      var w := GenExpr(t.right);
      ghost var x := ExprCode(Scope(), t.right, b, at).instrs;
      var u := GenExpr(t.left);
      ghost var y := ExprCode(Scope(), t.left, b, at + |x|).instrs;
      AppendedTwice(g, b, x, y);
      v := Emit(ICmp(t.op, u, w));
      AppendedTwice(g, b, x + y, [ICmp(t.op, u, w)]);
    }

    // ----- statements -----

    method GenSimple(s: Statement)
      requires IsOpen() && IsSimple(s)
      modifies this`blocks
      ensures IsOpen() && blocks == Appended(old(blocks), insert, SimpleCode(Scope(), s, insert, old(Next())))
    {
      ghost var c, g, b, at := Scope(), blocks, insert, Next();
      match s
      case Assign(lvalue, e) =>
        var v := GenExpr(e);
        ghost var x := ExprCode(c, e, b, at).instrs;
        assert Next() == at + |x| && Scope() == c;
        var a := GenLvalue(lvalue);
        ghost var y := LvalueCode(c, lvalue, b, at + |x|).instrs;
        AppendedTwice(g, b, x, y);
        var _ := Emit(Store(v, a));
        AppendedTwice(g, b, x + y, [Store(v, a)]);
      case Println(e) =>
        var v := GenExpr(e);
        var _ := Emit(Printf(v));
        AppendedTwice(g, b, ExprCode(c, e, b, at).instrs, [Printf(v)]);
      case Delete(e) =>
        var v := GenExpr(e);
        ghost var x := ExprCode(c, e, b, at).instrs;
        assert Next() == at + |x|;
        var p := Emit(Cast(v));
        AppendedTwice(g, b, x, [Cast(v)]);
        var _ := Emit(Free(p));
        AppendedTwice(g, b, x + [Cast(v)], [Free(p)]);
        assert SimpleCode(c, s, b, at) == x + [Cast(v)] + [Free(p)];
    }

    /** Statements are always generated into an empty block. */
    method GenStatement(s: Statement)
      requires IsOpen() && insert != 0 && blocks[insert] == EMPTY_BLOCK
      modifies this`blocks, this`insert
      ensures IsOpen() && StatementAt(Scope(), blocks, s, old(insert), insert)
      ensures IsSimple(s) ==>
                insert == old(insert) && blocks == Appended(old(blocks), insert, SimpleCode(Scope(), s, insert, 0))
      ensures !IsSimple(s) ==> Grown(Scope(), old(blocks), blocks, old(insert), insert) && insert != old(insert)
      decreases s, 1
    {
      match s
      case If(test, onTrue, onFalse) =>
        GenIf(s);
      case While(test, body) =>
        GenWhile(s);
      case _ =>
        GenSimple(s);
        assert [] + SimpleCode(Scope(), s, insert, 0) == SimpleCode(Scope(), s, insert, 0);
    }

    /** The statements of a branch or a loop body, each followed by a jump to a new block. */
    method GenBody(stmts: seq<Statement>)
      requires IsOpen() && insert != 0 && blocks[insert] == EMPTY_BLOCK
      modifies this`blocks, this`insert
      ensures Grown(Scope(), old(blocks), blocks, old(insert), insert) && insert != 0
      ensures BodyAt(Scope(), blocks, stmts, old(insert), insert)
      decreases stmts, 2
    {
      ghost var c, before, b := Scope(), blocks, insert;
      GrownSelf(c, blocks, insert);
      for i := 0 to |stmts|
        invariant insert != 0 && Scope() == c
        invariant Grown(c, before, blocks, b, insert)
        invariant BodyAt(c, blocks, stmts[..i], b, insert)
      {
        ghost var g, m := blocks, insert;
        GenNext(stmts[i], stmts[..i], b);
        GrownTrans(c, before, g, blocks, b, m, insert);
        assert stmts[..i] + [stmts[i]] == stmts[..i + 1];
      }
      assert stmts[..|stmts|] == stmts;
    }

    /** One round of GenBody's loop, after the statements `done` that start at block b. */
    method GenNext(s: Statement, ghost done: seq<Statement>, ghost b: nat)
      requires IsOpen() && insert != 0 && blocks[insert] == EMPTY_BLOCK
      requires BodyAt(Scope(), blocks, done, b, insert)
      modifies this`blocks, this`insert
      ensures Grown(Scope(), old(blocks), blocks, old(insert), insert) && insert != old(insert) && insert != 0
      ensures BodyAt(Scope(), blocks, done + [s], b, insert)
      decreases s, 2
    {
      ghost var c, g, m := Scope(), blocks, insert;
      GenStatement(s);
      ghost var h, e := blocks, insert;
      var next := CreateBlock();
      Terminate(Br(next));
      SetInsertPoint(next);
      assert blocks == Continued(h, e);
      BodyGrows(c, g, h, done, s, b, m, e);
      StatementGrown(c, g, h, s, m, e);
    }

    /** A branch in blocks of its own. */
    method GenBranch(stmts: seq<Statement>) returns (first: nat, last: nat)
      requires blocks != []
      modifies this`blocks, this`insert
      ensures first == |old(blocks)| && last == insert
      ensures Grown(Scope(), old(blocks) + [EMPTY_BLOCK], blocks, first, last)
      ensures BodyAt(Scope(), blocks, stmts, first, last)
      decreases stmts, 3
    {
      first := CreateBlock();
      SetInsertPoint(first);
      GenBody(stmts);
      last := insert;
    }

    method GenIf(s: Statement)
      requires IsOpen() && insert != 0 && blocks[insert] == EMPTY_BLOCK && s.If?
      modifies this`blocks, this`insert
      ensures Grown(Scope(), old(blocks), blocks, old(insert), insert) && insert != old(insert)
      ensures StatementAt(Scope(), blocks, s, old(insert), insert)
      decreases s, 0
    {
      ghost var c, g := Scope(), blocks;
      var b := insert;
      var v := GenTest(s.test);
      ghost var h, code := blocks, TestCode(c, s.test, b, 0);
      assert h[b] == Block(code.instrs, Open) by { assert [] + code.instrs == code.instrs; }
      var t, lastTrue := GenBranch(s.onTrue);
      ghost var gt := blocks;
      var f, lastFalse := GenBranch(s.onFalse);
      ghost var gf := blocks;
      var exit := CloseIf(b, CondBr(v, t, f), lastTrue, lastFalse);
      TestIsDefined(c, s.test, b);
      IfGrown(c, g, h, gt, gf, b, code, t, lastTrue, f, lastFalse);
      IfAssembled(c, gt, gf, blocks, s, b, t, lastTrue, f, lastFalse, exit);
    }

    /** The end of GenIf: closes the block of the test and the last blocks of the two branches. */
    method CloseIf(b: nat, split: Terminator, lastTrue: nat, lastFalse: nat) returns (exit: nat)
      requires b < |blocks| && blocks[b].term == Open && split != Open
      requires b < lastTrue < lastFalse < |blocks|
      requires blocks[lastTrue] == EMPTY_BLOCK && blocks[lastFalse] == EMPTY_BLOCK
      modifies this`blocks, this`insert
      ensures exit == |old(blocks)| == insert && blocks == Joined(old(blocks), b, split, lastTrue, lastFalse)
    {
      SetInsertPoint(b);
      Terminate(split);
      exit := CreateBlock();
      SetInsertPoint(lastTrue);
      Terminate(Br(exit));
      SetInsertPoint(lastFalse);
      Terminate(Br(exit));
      SetInsertPoint(exit);
    }

    method GenWhile(s: Statement)
      requires IsOpen() && insert != 0 && blocks[insert] == EMPTY_BLOCK && s.While?
      modifies this`blocks, this`insert
      ensures Grown(Scope(), old(blocks), blocks, old(insert), insert) && insert != old(insert)
      ensures StatementAt(Scope(), blocks, s, old(insert), insert)
      decreases s, 0
    {
      ghost var c, g := Scope(), blocks;
      var b := insert;
      var v := GenTest(s.test);
      ghost var h, code := blocks, TestCode(c, s.test, b, 0);
      assert h[b] == Block(code.instrs, Open) by { assert [] + code.instrs == code.instrs; }
      var w, last := GenBranch(s.body);
      ghost var gw := blocks;
      Terminate(Br(b));
      var exit := CreateBlock();
      SetInsertPoint(b);
      Terminate(CondBr(v, w, exit));
      SetInsertPoint(exit);
      assert blocks == Looped(gw, b, code.result, w, last);
      TestIsDefined(c, s.test, b);
      WhileGrown(c, g, h, gw, b, code, w, last);
      BodyPersists(c, gw, blocks, s.body, w, last);
      assert IsBlock(blocks, b, code.instrs, CondBr(code.result, w, exit));
      assert IsBlock(blocks, last, [], Br(b));
    }

    // ----- procedures -----

    /** Fails, as std::stoi throws, on an int declaration whose value is not a number. */
    method GenProcedure(p: Procedure) returns (ok: bool)
      requires blocks == [] && table == map[]
      modifies this
      ensures ok <==> HasInitialValues(p)
      ensures ok ==> table == TableOf(p.params + p.dcls) && ProcedureAt(Scope(), blocks, p, insert)
      ensures ok ==> IsWellFormed(Scope(), blocks, insert) && SlotsAreAllocated(Scope(), blocks)
    {
      hide EntryCode, ExprCode, BodyAt, ProcedureAt, IsWellFormed, SlotsAreAllocated, TableOf, HasInitialValues, Spans;
      var entry := CreateBlock();
      SetInsertPoint(entry);
      assert blocks == [EMPTY_BLOCK];
      GenSlots(p.params + p.dcls);
      ok := GenInitialStores(p);
      if !ok {
        return;
      }
      ghost var c, g := Scope(), blocks;
      var first := CreateBlock();
      Terminate(Br(first));
      SetInsertPoint(first);
      ghost var h := blocks;
      assert h == [Block(EntryCode(c, p), Br(1)), EMPTY_BLOCK];
      GenBody(p.stmts);
      ghost var k, r := blocks, insert;
      var v := GenExpr(p.ret);
      Terminate(Ret(v));
      ProcedureAssembled(c, p, h, k, blocks, r);
      EntryAllocates(c, blocks, p, r);
    }

    /** A slot for each parameter and each declaration. */
    method GenSlots(ds: seq<Dcl>)
      requires insert == 0 && blocks == [EMPTY_BLOCK] && table == map[]
      modifies this`blocks, this`table
      ensures blocks == [Block(AllocaCode(ds), Open)] && table == TableOf(ds)
    {
      for i := 0 to |ds|
        invariant blocks == [Block(AllocaCode(ds[..i]), Open)] && table == TableOf(ds[..i])
        invariant |AllocaCode(ds[..i])| == i
      {
        var v := Emit(Alloca(ds[i].dclType));
        table := table[ds[i].id := v];
        assert ds[..i + 1][..i] == ds[..i];
      }
      assert ds[..|ds|] == ds;
    }

    /** Parameters and initial values go to their slots. */
    method GenInitialStores(p: Procedure) returns (ok: bool)
      requires insert == 0 && blocks == [Block(AllocaCode(p.params + p.dcls), Open)]
      modifies this`blocks
      ensures ok <==> HasInitialValues(p)
      ensures ok ==> blocks == [Block(EntryCode(Scope(), p), Open)]
    {
      ghost var x := AllocaCode(p.params + p.dcls);
      assert p.params[..0] == [] && x + [] == x;
      for i := 0 to |p.params|
        invariant blocks == [Block(x + ParamStores(Scope(), p.params[..i]), Open)]
      {
        var _ := Emit(Store(Arg(i), Lookup(Scope(), p.params[i].id)));
        assert p.params[..i + 1][..i] == p.params[..i];
        assert x + ParamStores(Scope(), p.params[..i + 1]) ==
               x + ParamStores(Scope(), p.params[..i]) + [Store(Arg(i), Lookup(Scope(), p.params[i].id))];
      }
      assert p.params[..|p.params|] == p.params;
      ghost var y := x + ParamStores(Scope(), p.params);
      assert p.dcls[..0] == [] && y + [] == y;
      for i := 0 to |p.dcls|
        invariant forall j :: 0 <= j < i ==> HasInitialValue(p.dcls[j])
        invariant blocks == [Block(y + DclStores(Scope(), p.dcls[..i]), Open)]
      {
        var d := p.dcls[i];
        if d.dclType == Int && Stoi(d.value).None? {
          assert !HasInitialValue(d);
          return false;
        }
        var _ := Emit(Store(InitialOperand(d), Lookup(Scope(), d.id)));
        assert p.dcls[..i + 1][..i] == p.dcls[..i];
        assert y + DclStores(Scope(), p.dcls[..i + 1]) ==
               y + DclStores(Scope(), p.dcls[..i]) + [Store(InitialOperand(d), Lookup(Scope(), d.id))];
      }
      assert p.dcls[..|p.dcls|] == p.dcls;
      ok := true;
    }
  }
}

