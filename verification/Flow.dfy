/** Well-formed block graphs: closed blocks with targets inside the graph, operands defined before their uses,
    and paths from block to block. */
module Flow {
  import opened Options
  import opened Symbols
  import opened Ast
  import opened Types
  import opened Machine
  import opened Lowering

  // ----- operands -----

  function Operands(i: Instr): seq<Operand> {
    match i
    case Alloca(_) => []
    case Load(a) => [a]
    case Store(v, a) => [v, a]
    case Bin(_, x, y) => [x, y]
    case ICmp(_, x, y) => [x, y]
    case Gep(x, y) => [x, y]
    case Malloc(x) => [x]
    case Cast(x) => [x]
    case PtrToInt(x) => [x]
    case Free(x) => [x]
    case Printf(x) => [x]
    case Invoke(_, args) => args
  }

  predicate DefinesValue(i: Instr) {
    !i.Store? && !i.Free?
  }

  /** The operands are all an instruction reads of the arguments and values, and a value is set by it exactly if it
      defines one. */
  lemma OperandsDecide(i: Instr, b: nat, k: nat, st: State, st': State)
    requires st' == st.(args := st'.args, regs := st'.regs)
    requires forall j :: 0 <= j < |Operands(i)| ==> Read(st, Operands(i)[j]) == Read(st', Operands(i)[j])
    ensures match ExecInstr(i, b, k, st)
            case None => ExecInstr(i, b, k, st') == None
            case Some(e) =>
              var regs := if DefinesValue(i) then (b, k) in e.regs && e.regs == st.regs[(b, k) := e.regs[(b, k)]]
                          else e.regs == st.regs;
              && regs
              && ExecInstr(i, b, k, st') ==
                   Some(e.(args := st'.args,
                           regs := if DefinesValue(i) && (b, k) in e.regs then st'.regs[(b, k) := e.regs[(b, k)]]
                                   else st'.regs))
  {
    var os := Operands(i);
    match i
    case Alloca(_) =>
    case Invoke(_, args) => SameReads(st, st', args);
    case Load(a) => assert os[0] == a;
    case Store(v, a) => assert os[0] == v && os[1] == a;
    case Bin(_, x, y) => assert os[0] == x && os[1] == y;
    case ICmp(_, x, y) => assert os[0] == x && os[1] == y;
    case Gep(x, y) => assert os[0] == x && os[1] == y;
    case Malloc(x) => assert os[0] == x;
    case Cast(x) => assert os[0] == x;
    case PtrToInt(x) => assert os[0] == x;
    case Free(x) => assert os[0] == x;
    case Printf(x) => assert os[0] == x;
  }

  lemma {:induction false} SameReads(st: State, st': State, os: seq<Operand>)
    requires forall j :: 0 <= j < |os| ==> Read(st, os[j]) == Read(st', os[j])
    ensures ReadAll(st, os) == ReadAll(st', os)
  {
    if os != [] {
      assert forall j :: 0 <= j < |os[1..]| ==> os[1..][j] == os[j + 1];
      SameReads(st, st', os[1..]);
    }
  }

  /** At position at of a block b with these instructions, o is a constant, an argument, the slot of a name or a
      value defined before. */
  predicate Usable(c: Scope, o: Operand, b: nat, instrs: seq<Instr>, at: nat) {
    o.Reg? ==>
      o in c.table.Values || (o.block == b && o.index < at <= |instrs| && DefinesValue(instrs[o.index]))
  }

  /** Every operand of y is usable where it stands, after x in block b. */
  ghost predicate UsesAreDefined(c: Scope, b: nat, x: seq<Instr>, y: seq<Instr>) {
    forall i, k :: 0 <= i < |y| && 0 <= k < |Operands(y[i])| ==> Usable(c, Operands(y[i])[k], b, x + y, |x| + i)
  }

  ghost predicate CodeIsDefined(c: Scope, b: nat, x: seq<Instr>, code: Code) {
    && UsesAreDefined(c, b, x, code.instrs)
    && Usable(c, code.result, b, x + code.instrs, |x + code.instrs|)
  }

  lemma UsableLater(c: Scope, o: Operand, b: nat, x: seq<Instr>, y: seq<Instr>)
    requires Usable(c, o, b, x, |x|)
    ensures Usable(c, o, b, x + y, |x + y|)
  {
  }

  lemma UsesCompose(c: Scope, b: nat, x: seq<Instr>, y: seq<Instr>, z: seq<Instr>)
    requires UsesAreDefined(c, b, x, y) && UsesAreDefined(c, b, x + y, z)
    ensures UsesAreDefined(c, b, x, y + z)
  {
    assert x + y + z == x + (y + z);
    forall i, k | 0 <= i < |y + z| && 0 <= k < |Operands((y + z)[i])|
      ensures Usable(c, Operands((y + z)[i])[k], b, x + (y + z), |x| + i)
    {
      if i < |y| {
        assert Usable(c, Operands(y[i])[k], b, x + y, |x| + i);
      } else {
        assert Usable(c, Operands(z[i - |y|])[k], b, x + y + z, |x + y| + (i - |y|));
      }
    }
  }

  /** One more instruction, all of whose operands are usable. */
  lemma UsesExtend(c: Scope, b: nat, x: seq<Instr>, y: seq<Instr>, i: Instr)
    requires UsesAreDefined(c, b, x, y)
    requires forall k :: 0 <= k < |Operands(i)| ==> Usable(c, Operands(i)[k], b, x + y, |x + y|)
    ensures UsesAreDefined(c, b, x, y + [i])
  {
    UsesCompose(c, b, x, y, [i]);
  }

  // ----- the code of every tree -----

  lemma {:induction false} ExprIsDefined(c: Scope, e: Expr, b: nat, x: seq<Instr>)
    ensures CodeIsDefined(c, b, x, ExprCode(c, e, b, |x|))
    decreases e
  {
    hide Usable, UsesAreDefined, SumCode, TermCode;
    if e.JustTerm? {
      TermIsDefined(c, e.term, b, x);
    } else {
      var w := TermCode(c, e.term, b, |x|);
      TermIsDefined(c, e.term, b, x);
      var v := ExprCode(c, e.left, b, |x + w.instrs|);
      ExprIsDefined(c, e.left, b, x + w.instrs);
      UsesCompose(c, b, x, w.instrs, v.instrs);
      assert x + w.instrs + v.instrs == x + (w.instrs + v.instrs);
      UsableLater(c, w.result, b, x + w.instrs, v.instrs);
      SumIsDefined(c, e, v.result, w.result, b, x + (w.instrs + v.instrs));
      var z := SumCode(c, e, v.result, w.result, b, |x + (w.instrs + v.instrs)|);
      UsesCompose(c, b, x, w.instrs + v.instrs, z.instrs);
      assert x + (w.instrs + v.instrs) + z.instrs == x + (w.instrs + v.instrs + z.instrs);
    }
  }

  lemma SumIsDefined(c: Scope, e: Expr, v: Operand, w: Operand, b: nat, x: seq<Instr>)
    requires !e.JustTerm? && Usable(c, v, b, x, |x|) && Usable(c, w, b, x, |x|)
    ensures CodeIsDefined(c, b, x, SumCode(c, e, v, w, b, |x|))
  {
    hide ExprType, TermType;
    var neg, p, q := Bin(Sub, ConstInt(0), w), PtrToInt(w), PtrToInt(v);
    var at := |x|;
    if ExprType(c.env, e) == IntStar {
      if e.Minus? {
        PairIsDefined(c, b, x, neg, Gep(v, Reg(b, at)));
      } else {
        UsesExtend(c, b, x, [], if ExprType(c.env, e.left) == Int then Gep(w, v) else Gep(v, w));
      }
    } else if e.Minus? && TermType(c.env, e.term) == IntStar && ExprType(c.env, e.left) == IntStar {
      PairIsDefined(c, b, x, p, q);
      UsesExtend(c, b, x, [p, q], Bin(SDiv, Reg(b, at + 1), Reg(b, at)));
      assert [p, q] + [Bin(SDiv, Reg(b, at + 1), Reg(b, at))] == [p, q, Bin(SDiv, Reg(b, at + 1), Reg(b, at))];
    } else {
      UsesExtend(c, b, x, [], Bin(if e.Minus? then Sub else Add, v, w));
    }
  }

  lemma PairIsDefined(c: Scope, b: nat, x: seq<Instr>, i: Instr, j: Instr)
    requires forall k :: 0 <= k < |Operands(i)| ==> Usable(c, Operands(i)[k], b, x, |x|)
    requires forall k :: 0 <= k < |Operands(j)| ==> Usable(c, Operands(j)[k], b, x + [i], |x| + 1)
    ensures UsesAreDefined(c, b, x, [i, j])
  {
    assert x + [] == x && [] + [i] == [i] && [i] + [j] == [i, j];
    UsesExtend(c, b, x, [], i);
    UsesExtend(c, b, x, [i], j);
  }

  lemma {:induction false} TermIsDefined(c: Scope, t: Term, b: nat, x: seq<Instr>)
    ensures CodeIsDefined(c, b, x, TermCode(c, t, b, |x|))
    decreases t
  {
    if t.JustFactor? {
      FactorIsDefined(c, t.factor, b, x);
    } else {
      var w := FactorCode(c, t.factor, b, |x|);
      FactorIsDefined(c, t.factor, b, x);
      var v := TermCode(c, t.left, b, |x + w.instrs|);
      TermIsDefined(c, t.left, b, x + w.instrs);
      UsesCompose(c, b, x, w.instrs, v.instrs);
      assert x + w.instrs + v.instrs == x + (w.instrs + v.instrs);
      UsableLater(c, w.result, b, x + w.instrs, v.instrs);
      UsesExtend(c, b, x, w.instrs + v.instrs,
                 Bin(if t.Times? then Mul else if t.Slash? then SDiv else SRem, v.result, w.result));
    }
  }

  lemma {:induction false} FactorIsDefined(c: Scope, f: Factor, b: nat, x: seq<Instr>)
    ensures CodeIsDefined(c, b, x, FactorCode(c, f, b, |x|))
    decreases f
  {
    match f
    case Paren(e) => ExprIsDefined(c, e, b, x);
    case NewArray(size) =>
      ExprIsDefined(c, size, b, x);
      NewArrayIsDefined(c, size, b, x);
    case AddressOf(lvalue) =>
      LvalueIsDefined(c, lvalue, b, x);
      UsesExtend(c, b, x, LvalueCode(c, lvalue, b, |x|).instrs, Load(LvalueCode(c, lvalue, b, |x|).result));
    case Deref(pointer) =>
      FactorIsDefined(c, pointer, b, x);
      UsesExtend(c, b, x, FactorCode(c, pointer, b, |x|).instrs, Load(FactorCode(c, pointer, b, |x|).result));
    case Id(name) =>
      UsesExtend(c, b, x, [], Load(Lookup(c, name)));
    case Call(callee, args) =>
      ArgsAreDefined(c, args, b, x);
      CallIsDefined(c, callee, args, b, x);
    case _ =>
  }

  lemma NewArrayIsDefined(c: Scope, size: Expr, b: nat, x: seq<Instr>)
    requires CodeIsDefined(c, b, x, ExprCode(c, size, b, |x|))
    ensures CodeIsDefined(c, b, x, FactorCode(c, NewArray(size), b, |x|))
  {
    hide ExprCode;
    var n := ExprCode(c, size, b, |x|);
    var mul, malloc := Bin(Mul, n.result, ConstInt(4)), Malloc(Reg(b, |x + n.instrs|));
    var cast := Cast(Reg(b, |x + n.instrs| + 1));
    UsesExtend(c, b, x, n.instrs, mul);
    UsesExtend(c, b, x, n.instrs + [mul], malloc);
    UsesExtend(c, b, x, n.instrs + [mul] + [malloc], cast);
    assert n.instrs + [mul] + [malloc] + [cast] == n.instrs + [mul, malloc, cast];
  }

  lemma CallIsDefined(c: Scope, callee: string, args: Arglist, b: nat, x: seq<Instr>)
    requires var code := ArgsCode(c, args, b, |x|);
             && UsesAreDefined(c, b, x, code.instrs)
             && forall k :: 0 <= k < |code.results| ==>
                Usable(c, code.results[k], b, x + code.instrs, |x + code.instrs|)
    ensures CodeIsDefined(c, b, x, FactorCode(c, Call(callee, args), b, |x|))
  {
    hide ArgsCode;
    var code := ArgsCode(c, args, b, |x|);
    UsesExtend(c, b, x, code.instrs, Invoke(callee, code.results));
  }

  lemma {:induction false} ArgsAreDefined(c: Scope, args: Arglist, b: nat, x: seq<Instr>)
    ensures var code := ArgsCode(c, args, b, |x|);
            && UsesAreDefined(c, b, x, code.instrs)
            && forall k :: 0 <= k < |code.results| ==> Usable(c, code.results[k], b, x + code.instrs, |x + code.instrs|)
    decreases args
  {
    hide UsesAreDefined, Usable, ExprCode;
    match args
    case NoArgs => UsesNothing(c, b, x);
    case Args(e, rest) =>
      var v := ExprCode(c, e, b, |x|);
      var w := ArgsCode(c, rest, b, |x + v.instrs|);
      ExprIsDefined(c, e, b, x);
      ArgsAreDefined(c, rest, b, x + v.instrs);
      UsesCompose(c, b, x, v.instrs, w.instrs);
      UsableLater(c, v.result, b, x + v.instrs, w.instrs);
      assert x + v.instrs + w.instrs == x + (v.instrs + w.instrs);
  }

  lemma UsesNothing(c: Scope, b: nat, x: seq<Instr>)
    ensures UsesAreDefined(c, b, x, [])
  {
  }

  lemma {:induction false} LvalueIsDefined(c: Scope, l: Lvalue, b: nat, x: seq<Instr>)
    ensures CodeIsDefined(c, b, x, LvalueCode(c, l, b, |x|))
    decreases l
  {
    match l
    case Var(_) =>
    case Target(pointer) => FactorIsDefined(c, pointer, b, x);
    case Enclosed(inner) => LvalueIsDefined(c, inner, b, x);
  }

  lemma TestIsDefined(c: Scope, t: Test, b: nat)
    ensures CodeIsDefined(c, b, [], TestCode(c, t, b, 0))
  {
    hide ExprCode;
    var w := ExprCode(c, t.right, b, 0);
    ExprIsDefined(c, t.right, b, []);
    var v := ExprCode(c, t.left, b, |w.instrs|);
    assert [] + w.instrs == w.instrs;
    ExprIsDefined(c, t.left, b, w.instrs);
    UsesCompose(c, b, [], w.instrs, v.instrs);
    UsableLater(c, w.result, b, w.instrs, v.instrs);
    assert [] + (w.instrs + v.instrs) == w.instrs + v.instrs;
    UsesExtend(c, b, [], w.instrs + v.instrs, ICmp(t.op, v.result, w.result));
  }

  lemma SimpleIsDefined(c: Scope, s: Statement, b: nat)
    requires IsSimple(s)
    ensures UsesAreDefined(c, b, [], SimpleCode(c, s, b, 0))
  {
    hide ExprCode, LvalueCode;
    var v := ExprCode(c, s.expr, b, 0);
    ExprIsDefined(c, s.expr, b, []);
    assert [] + v.instrs == v.instrs;
    match s
    case Assign(lvalue, e) =>
      var a := LvalueCode(c, lvalue, b, |v.instrs|);
      LvalueIsDefined(c, lvalue, b, v.instrs);
      UsesCompose(c, b, [], v.instrs, a.instrs);
      UsableLater(c, v.result, b, v.instrs, a.instrs);
      assert [] + (v.instrs + a.instrs) == v.instrs + a.instrs;
      UsesExtend(c, b, [], v.instrs + a.instrs, Store(v.result, a.result));
    case Println(e) =>
      UsesExtend(c, b, [], v.instrs, Printf(v.result));
    case Delete(e) =>
      UsesExtend(c, b, [], v.instrs, Cast(v.result));
      assert [] + (v.instrs + [Cast(v.result)]) == v.instrs + [Cast(v.result)];
      UsesExtend(c, b, [], v.instrs + [Cast(v.result)], Free(Reg(b, |v.instrs|)));
      assert v.instrs + [Cast(v.result)] + [Free(Reg(b, |v.instrs|))] ==
             v.instrs + [Cast(v.result), Free(Reg(b, |v.instrs|))];
  }

  // ----- blocks -----

  function Targets(t: Terminator): seq<nat> {
    match t
    case Br(n) => [n]
    case CondBr(_, m, n) => [m, n]
    case _ => []
  }

  /** Block b ends in a jump inside g, and every operand in it is defined where it is used. */
  ghost predicate IsFinished(c: Scope, g: Graph, b: nat)
    requires b < |g|
  {
    && (g[b].term.Br? || g[b].term.CondBr?)
    && (forall k :: 0 <= k < |Targets(g[b].term)| ==> Targets(g[b].term)[k] < |g|)
    && UsesAreDefined(c, b, [], g[b].instrs)
    && (g[b].term.CondBr? ==> Usable(c, g[b].term.cond, b, g[b].instrs, |g[b].instrs|))
  }

  // ----- paths -----

  predicate Edge(g: Graph, a: nat, b: nat) {
    a < |g| && b in Targets(g[a].term)
  }

  ghost predicate ReachesIn(g: Graph, a: nat, b: nat, n: nat)
    decreases n
  {
    if n == 0 then a == b else exists m: nat :: Edge(g, a, m) && ReachesIn(g, m, b, n - 1)
  }

  ghost predicate Reaches(g: Graph, a: nat, b: nat) {
    exists n: nat :: ReachesIn(g, a, b, n)
  }

  lemma ReachesSelf(g: Graph, a: nat)
    ensures Reaches(g, a, a)
  {
    assert ReachesIn(g, a, a, 0);
  }

  lemma ReachesEdge(g: Graph, a: nat, b: nat)
    requires Edge(g, a, b)
    ensures Reaches(g, a, b)
  {
    assert ReachesIn(g, b, b, 0);
    assert ReachesIn(g, a, b, 1);
  }

  lemma {:induction false} ReachesInTrans(g: Graph, a: nat, b: nat, d: nat, m: nat, n: nat)
    requires ReachesIn(g, a, b, m) && ReachesIn(g, b, d, n)
    ensures ReachesIn(g, a, d, m + n)
    decreases m
  {
    if m > 0 {
      var x: nat :| Edge(g, a, x) && ReachesIn(g, x, b, m - 1);
      ReachesInTrans(g, x, b, d, m - 1, n);
    }
  }

  lemma ReachesTrans(g: Graph, a: nat, b: nat, d: nat)
    requires Reaches(g, a, b) && Reaches(g, b, d)
    ensures Reaches(g, a, d)
  {
    var m: nat :| ReachesIn(g, a, b, m);
    var n: nat :| ReachesIn(g, b, d, n);
    ReachesInTrans(g, a, b, d, m, n);
  }

  /** Paths survive growth: only closed blocks have edges. */
  lemma {:induction false} ReachesInGrows(g: Graph, h: Graph, a: nat, b: nat, n: nat)
    requires Grows(g, h) && ReachesIn(g, a, b, n)
    ensures ReachesIn(h, a, b, n)
    decreases n
  {
    if n > 0 {
      var m: nat :| Edge(g, a, m) && ReachesIn(g, m, b, n - 1);
      ReachesInGrows(g, h, m, b, n - 1);
      assert Edge(h, a, m);
    }
  }

  /** Block a leads to block b, and every block from lo up to hi is on a way from a to b. */
  ghost predicate Spans(g: Graph, a: nat, b: nat, lo: nat, hi: nat) {
    && Reaches(g, a, b)
    && forall x: nat :: lo <= x < hi ==> Reaches(g, a, x) && Reaches(g, x, b)
  }

  lemma SpansGrows(g: Graph, h: Graph, a: nat, b: nat, lo: nat, hi: nat)
    requires Grows(g, h) && Spans(g, a, b, lo, hi)
    ensures Spans(h, a, b, lo, hi)
  {
    forall x: nat, y: nat | Reaches(g, x, y)
      ensures Reaches(h, x, y)
    {
      var n: nat :| ReachesIn(g, x, y, n);
      ReachesInGrows(g, h, x, y, n);
    }
  }

  /** A way through more blocks, entered and left by other paths. */
  lemma SpansWithin(g: Graph, a: nat, a': nat, b': nat, b: nat, lo: nat, hi: nat)
    requires Spans(g, a', b', lo, hi) && Reaches(g, a, a') && Reaches(g, b', b)
    ensures Spans(g, a, b, lo, hi)
  {
    ReachesTrans(g, a, a', b');
    ReachesTrans(g, a, b', b);
    forall x: nat | lo <= x < hi
      ensures Reaches(g, a, x) && Reaches(g, x, b)
    {
      ReachesTrans(g, a, a', x);
      ReachesTrans(g, x, b', b);
    }
  }

  /** One way after another. */
  lemma SpansJoin(g: Graph, a: nat, m: nat, b: nat, lo: nat, mid: nat, hi: nat)
    requires Spans(g, a, m, lo, mid) && Spans(g, m, b, mid, hi)
    ensures Spans(g, a, b, lo, hi)
  {
    ReachesSelf(g, a);
    ReachesSelf(g, b);
    SpansWithin(g, a, a, m, b, lo, mid);
    SpansWithin(g, a, m, b, b, mid, hi);
  }
}
