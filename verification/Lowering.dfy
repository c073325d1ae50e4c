/** What the code of each tree looks like: instruction lists for the straight-line parts, and a relation between
    statements and finished blocks for the rest. */
module Lowering {
  import opened Symbols
  import opened Ast
  import opened Types
  import opened Machine

  /** The declared types, and where each name is stored. */
  datatype Scope = Scope(env: TypeEnv, table: map<string, Operand>)

  /** Instructions and the operand holding their result. */
  datatype Code = Code(instrs: seq<Instr>, result: Operand)

  /** Instructions and the operands holding the values of arguments. */
  datatype ArgsResult = ArgsResult(instrs: seq<Instr>, results: seq<Operand>)

  function Lookup(c: Scope, name: string): Operand {
    if name in c.table then c.table[name] else ConstNull
  }

  /** x, then y, then one instruction, all in block b from position at on. */
  function Then(x: Code, y: Code, last: Instr, b: nat, at: nat): Code {
    Code(x.instrs + y.instrs + [last], Reg(b, at + |x.instrs| + |y.instrs|))
  }

  function ExprCode(c: Scope, e: Expr, b: nat, at: nat): Code {
    match e
    case JustTerm(term) => TermCode(c, term, b, at)
    case _ =>
      var w := TermCode(c, e.term, b, at);
      var v := ExprCode(c, e.left, b, at + |w.instrs|);
      var sum := SumCode(c, e, v.result, w.result, b, at + |w.instrs| + |v.instrs|);
      Code(w.instrs + v.instrs + sum.instrs, sum.result)
  }

  /** The instructions that add or subtract two finished operands, chosen by their static types. */
  function SumCode(c: Scope, e: Expr, v: Operand, w: Operand, b: nat, at: nat): Code
    requires !e.JustTerm?
  {
    if ExprType(c.env, e) == IntStar then
      if e.Minus? then Code([Bin(Sub, ConstInt(0), w), Gep(v, Reg(b, at))], Reg(b, at + 1))
      else if ExprType(c.env, e.left) == Int then Code([Gep(w, v)], Reg(b, at))
      else Code([Gep(v, w)], Reg(b, at))
    else if e.Minus? then
      if TermType(c.env, e.term) == IntStar && ExprType(c.env, e.left) == IntStar then
        Code([PtrToInt(w), PtrToInt(v), Bin(SDiv, Reg(b, at + 1), Reg(b, at))], Reg(b, at + 2))
      else Code([Bin(Sub, v, w)], Reg(b, at))
    else Code([Bin(Add, v, w)], Reg(b, at))
  }

  function TermCode(c: Scope, t: Term, b: nat, at: nat): Code {
    match t
    case JustFactor(factor) => FactorCode(c, factor, b, at)
    case _ =>
      var w := FactorCode(c, t.factor, b, at);
      var v := TermCode(c, t.left, b, at + |w.instrs|);
      Then(w, v, Bin(if t.Times? then Mul else if t.Slash? then SDiv else SRem, v.result, w.result), b, at)
  }

  function FactorCode(c: Scope, f: Factor, b: nat, at: nat): Code {
    match f
    case Id(name) => Code([Load(Lookup(c, name))], Reg(b, at))
    case Num(n) => Code([], ConstInt(n))
    case NullValue => Code([], ConstNull)
    case Paren(e) => ExprCode(c, e, b, at)
    case NewArray(size) =>
      var n := ExprCode(c, size, b, at);
      var k := at + |n.instrs|;
      Code(n.instrs + [Bin(Mul, n.result, ConstInt(4)), Malloc(Reg(b, k)), Cast(Reg(b, k + 1))], Reg(b, k + 2))
    case AddressOf(lvalue) =>
      var a := LvalueCode(c, lvalue, b, at);
      Code(a.instrs + [Load(a.result)], Reg(b, at + |a.instrs|))
    case Deref(pointer) =>
      var p := FactorCode(c, pointer, b, at);
      Code(p.instrs + [Load(p.result)], Reg(b, at + |p.instrs|))
    case Call(callee, args) =>
      var code := ArgsCode(c, args, b, at);
      Code(code.instrs + [Invoke(callee, code.results)], Reg(b, at + |code.instrs|))
  }

  function ArgsCode(c: Scope, args: Arglist, b: nat, at: nat): ArgsResult {
    match args
    case NoArgs => ArgsResult([], [])
    case Args(e, rest) =>
      var v := ExprCode(c, e, b, at);
      var more := ArgsCode(c, rest, b, at + |v.instrs|);
      ArgsResult(v.instrs + more.instrs, [v.result] + more.results)
  }

  function LvalueCode(c: Scope, l: Lvalue, b: nat, at: nat): Code {
    match l
    case Var(name) => Code([], Lookup(c, name))
    case Target(pointer) => FactorCode(c, pointer, b, at)
    case Enclosed(inner) => LvalueCode(c, inner, b, at)
  }

  function TestCode(c: Scope, t: Test, b: nat, at: nat): Code {
    var w := ExprCode(c, t.right, b, at);
    var v := ExprCode(c, t.left, b, at + |w.instrs|);
    Then(w, v, ICmp(t.op, v.result, w.result), b, at)
  }

  predicate IsSimple(s: Statement) {
    s.Assign? || s.Println? || s.Delete?
  }

  function SimpleCode(c: Scope, s: Statement, b: nat, at: nat): seq<Instr>
    requires IsSimple(s)
  {
    match s
    case Assign(lvalue, e) =>
      var v := ExprCode(c, e, b, at);
      var a := LvalueCode(c, lvalue, b, at + |v.instrs|);
      v.instrs + a.instrs + [Store(v.result, a.result)]
    case Println(e) =>
      var v := ExprCode(c, e, b, at);
      v.instrs + [Printf(v.result)]
    case Delete(e) =>
      var v := ExprCode(c, e, b, at);
      v.instrs + [Cast(v.result), Free(Reg(b, at + |v.instrs|))]
  }

  // ----- statements as finished blocks -----

  predicate IsBlock(g: Graph, b: nat, instrs: seq<Instr>, term: Terminator) {
    b < |g| && g[b] == Block(instrs, term)
  }

  /** After s, block m is left for block n; only a statement without inner statements may have put code in m. */
  predicate Continues(g: Graph, s: Statement, m: nat, n: nat) {
    m < |g| && g[m].term == Br(n) && (!IsSimple(s) ==> g[m].instrs == [])
  }

  /** Block b, not the entry block, starts the code of s, and what follows s goes on in block e. */
  ghost predicate StatementAt(c: Scope, g: Graph, s: Statement, b: nat, e: nat)
    decreases s, 0
  {
    b != 0 &&
    match s
    case If(test, onTrue, onFalse) =>
      var code := TestCode(c, test, b, 0);
      exists t: nat, f: nat, t': nat, f': nat ::
        && IsBlock(g, b, code.instrs, CondBr(code.result, t, f))
        && BodyAt(c, g, onTrue, t, t')
        && BodyAt(c, g, onFalse, f, f')
        && IsBlock(g, t', [], Br(e))
        && IsBlock(g, f', [], Br(e))
    case While(test, body) =>
      var code := TestCode(c, test, b, 0);
      exists w: nat, w': nat ::
        && IsBlock(g, b, code.instrs, CondBr(code.result, w, e))
        && BodyAt(c, g, body, w, w')
        && IsBlock(g, w', [], Br(b))
    case _ =>
      b == e && b < |g| && g[b].instrs == SimpleCode(c, s, b, 0)
  }

  /** Block b starts the code of the statements, and block e is where it ends. */
  ghost predicate BodyAt(c: Scope, g: Graph, stmts: seq<Statement>, b: nat, e: nat)
    decreases stmts, 1
  {
    if stmts == [] then b == e
    else
      exists m: nat, n: nat ::
        && StatementAt(c, g, stmts[0], b, m)
        && Continues(g, stmts[0], m, n)
        && BodyAt(c, g, stmts[1..], n, e)
  }

  /** Finished blocks stay as they are. */
  ghost predicate Grows(g: Graph, h: Graph) {
    && |g| <= |h|
    && forall i :: 0 <= i < |g| && g[i].term != Open ==> h[i] == g[i]
  }

  lemma {:induction false} StatementPersists(c: Scope, g: Graph, h: Graph, s: Statement, b: nat, e: nat)
    requires Grows(g, h) && StatementAt(c, g, s, b, e)
    requires IsSimple(s) ==> h[b].instrs == g[b].instrs
    ensures StatementAt(c, h, s, b, e)
    decreases s, 0
  {
    match s
    case If(test, onTrue, onFalse) =>
      var code := TestCode(c, test, b, 0);
      var t: nat, f: nat, t': nat, f': nat :|
        && IsBlock(g, b, code.instrs, CondBr(code.result, t, f))
        && BodyAt(c, g, onTrue, t, t')
        && BodyAt(c, g, onFalse, f, f')
        && IsBlock(g, t', [], Br(e))
        && IsBlock(g, f', [], Br(e));
      BodyPersists(c, g, h, onTrue, t, t');
      BodyPersists(c, g, h, onFalse, f, f');
      assert IsBlock(h, b, code.instrs, CondBr(code.result, t, f)) && IsBlock(h, t', [], Br(e)) &&
             IsBlock(h, f', [], Br(e));
    case While(test, body) =>
      var code := TestCode(c, test, b, 0);
      var w: nat, w': nat :|
        && IsBlock(g, b, code.instrs, CondBr(code.result, w, e))
        && BodyAt(c, g, body, w, w')
        && IsBlock(g, w', [], Br(b));
      BodyPersists(c, g, h, body, w, w');
      assert IsBlock(h, b, code.instrs, CondBr(code.result, w, e)) && IsBlock(h, w', [], Br(b));
    case _ =>
  }

  lemma {:induction false} BodyPersists(c: Scope, g: Graph, h: Graph, stmts: seq<Statement>, b: nat, e: nat)
    requires Grows(g, h) && BodyAt(c, g, stmts, b, e)
    ensures BodyAt(c, h, stmts, b, e)
    decreases stmts, 1
  {
    if stmts != [] {
      var m: nat, n: nat :|
        && StatementAt(c, g, stmts[0], b, m)
        && Continues(g, stmts[0], m, n)
        && BodyAt(c, g, stmts[1..], n, e);
      hide StatementAt, BodyAt;
      StatementPersists(c, g, h, stmts[0], b, m);
      BodyPersists(c, g, h, stmts[1..], n, e);
      assert Continues(h, stmts[0], m, n);
      BodyOfFirst(c, h, stmts, b, m, n, e);
    }
  }

  lemma BodyOfFirst(c: Scope, g: Graph, stmts: seq<Statement>, b: nat, m: nat, n: nat, e: nat)
    requires stmts != [] && StatementAt(c, g, stmts[0], b, m) && Continues(g, stmts[0], m, n)
    requires BodyAt(c, g, stmts[1..], n, e)
    ensures BodyAt(c, g, stmts, b, e)
  {
    hide StatementAt, Continues;
  }

  /** One more statement at the end of a body. */
  lemma {:induction false} BodyExtends(c: Scope, g: Graph, stmts: seq<Statement>, s: Statement, b: nat, m: nat, e: nat,
                                       n: nat)
    requires BodyAt(c, g, stmts, b, m) && StatementAt(c, g, s, m, e)
    requires Continues(g, s, e, n)
    ensures BodyAt(c, g, stmts + [s], b, n)
    decreases |stmts|
  {
    if stmts == [] {
      assert (stmts + [s])[0] == s && (stmts + [s])[1..] == [];
      assert BodyAt(c, g, (stmts + [s])[1..], n, n);
    } else {
      var m': nat, n': nat :|
        && StatementAt(c, g, stmts[0], b, m')
        && Continues(g, stmts[0], m', n')
        && BodyAt(c, g, stmts[1..], n', m);
      BodyExtends(c, g, stmts[1..], s, n', m, e, n);
      assert (stmts + [s])[0] == stmts[0] && (stmts + [s])[1..] == stmts[1..] + [s];
    }
  }
}
