/** Generated code does what the source means: expressions, then statements, then whole runs. */
module Simulation {
  import opened Options
  import opened Symbols
  import opened Ast
  import opened Types
  import opened Machine
  import opened Semantics
  import opened Lowering

  // ----- the fragment -----

  /** No address-of, no difference of two pointers. */
  predicate PlainExpr(env: TypeEnv, e: Expr) {
    match e
    case JustTerm(term) => PlainTerm(env, term)
    case _ =>
      && PlainExpr(env, e.left)
      && PlainTerm(env, e.term)
      && (e.Minus? ==> TermType(env, e.term) != IntStar)
  }

  predicate PlainTerm(env: TypeEnv, t: Term) {
    match t
    case JustFactor(factor) => PlainFactor(env, factor)
    case _ => PlainTerm(env, t.left) && PlainFactor(env, t.factor)
  }

  predicate PlainFactor(env: TypeEnv, f: Factor) {
    match f
    case Paren(e) => PlainExpr(env, e)
    case NewArray(size) => PlainExpr(env, size)
    case Deref(pointer) => PlainFactor(env, pointer)
    case AddressOf(_) => false
    case Call(_, args) => PlainArgs(env, args)
    case _ => true
  }

  predicate PlainArgs(env: TypeEnv, args: Arglist) {
    match args
    case NoArgs => true
    case Args(e, rest) => PlainExpr(env, e) && PlainArgs(env, rest)
  }

  predicate PlainLvalue(env: TypeEnv, l: Lvalue) {
    match l
    case Var(_) => true
    case Target(pointer) => PlainFactor(env, pointer)
    case Enclosed(inner) => PlainLvalue(env, inner)
  }

  // ----- related states -----

  /** Distinct names are stored in distinct slots set up in the entry block, and every typed name has one. */
  ghost predicate SoundScope(c: Scope) {
    && (forall x :: x in c.table ==> c.table[x].Reg? && c.table[x].block == 0)
    && (forall x, y :: x in c.table && y in c.table && c.table[x] == c.table[y] ==> x == y)
    && (forall x :: x in c.env && c.env[x] != Invalid ==> x in c.table)
  }

  predicate HasKind(v: Value, t: DclType) {
    match t
    case Int => v.IntV?
    case IntStar => v.PtrV?
    case Invalid => false
  }

  ghost predicate TypedVars(env: TypeEnv, vars: map<string, Value>) {
    forall x :: x in env && env[x] != Invalid ==> x in vars && HasKind(vars[x], env[x])
  }

  /** The slot of x holds the value of x. */
  predicate Holds(c: Scope, vars: map<string, Value>, st: State, x: string)
    requires x in c.table && x in vars
  {
    var o := c.table[x];
    && o.Reg?
    && (o.block, o.index) in st.regs
    && st.regs[(o.block, o.index)] == SlotV(o.index)
    && o.index in st.slots
    && st.slots[o.index] == vars[x]
  }

  ghost predicate Related(c: Scope, s: Memory, st: State) {
    && st.heap == s.heap
    && st.out == s.out
    && st.world == s.world
    && s.vars.Keys == c.table.Keys
    && TypedVars(c.env, s.vars)
    && forall x :: x in c.table ==> Holds(c, s.vars, st, x)
  }

  /** Only registers of block b from position at on, the heap and the output may differ. */
  ghost predicate Framed(st: State, st': State, b: nat, at: nat) {
    && st'.args == st.args
    && st'.slots == st.slots
    && forall k :: k in st.regs && (k.0 != b || k.1 < at) ==> k in st'.regs && st'.regs[k] == st.regs[k]
  }

  /** The operand is not a register of block b from position at on. */
  predicate Before(o: Operand, b: nat, at: nat) {
    o.Reg? ==> o.block != b || o.index < at
  }

  /** Running the code agrees with the evaluation r of a tree of type t in store s. */
  ghost predicate Computes(c: Scope, code: Code, b: nat, at: nat, s: Memory, r: Option<(Value, Memory)>, t: DclType,
                           st: State) {
    var end := ExecSeq(code.instrs, b, at, st);
    match r
    case None => end == None
    case Some((v, s')) =>
      && end.Some?
      && Related(c, s', end.value)
      && s'.vars == s.vars
      && HasKind(v, t)
      && Read(end.value, code.result) == Some(v)
      && Framed(st, end.value, b, at)
      && Before(code.result, b, at + |code.instrs|)
  }

  lemma FramedTrans(a: State, b: State, c: State, k: nat, i: nat, j: nat)
    requires Framed(a, b, k, i) && Framed(b, c, k, j) && i <= j
    ensures Framed(a, c, k, i)
  {
  }

  /** Setting a register outside the entry block keeps everything else. */
  lemma SetKeeps(c: Scope, s: Memory, st: State, b: nat, i: nat, v: Value)
    requires SoundScope(c) && Related(c, s, st) && b != 0
    ensures Related(c, s, Set(st, b, i, v)) && Framed(st, Set(st, b, i, v), b, i)
  {
    var st' := Set(st, b, i, v);
    forall x | x in c.table
      ensures Holds(c, s.vars, st', x)
    {
      assert Holds(c, s.vars, st, x);
    }
  }

  lemma ReadFramed(st: State, st': State, b: nat, at: nat, o: Operand, v: Value)
    requires Framed(st, st', b, at) && Before(o, b, at) && Read(st, o) == Some(v)
    ensures Read(st', o) == Some(v)
  {
  }

  lemma ExecOne(i: Instr, b: nat, at: nat, st: State)
    ensures ExecSeq([i], b, at, st) == ExecInstr(i, b, at, st)
  {
    assert [i][1..] == [];
  }

  // ----- expressions -----

  /** One instruction that only sets its register. */
  lemma OneSets(c: Scope, i: Instr, b: nat, at: nat, s: Memory, v: Value, t: DclType, st: State)
    requires SoundScope(c) && Related(c, s, st) && b != 0 && HasKind(v, t)
    requires ExecInstr(i, b, at, st) == Some(Set(st, b, at, v))
    ensures Computes(c, Code([i], Reg(b, at)), b, at, s, Some((v, s)), t, st)
  {
    ExecOne(i, b, at, st);
    SetKeeps(c, s, st, b, at, v);
  }

  /** Code after code that succeeded. */
  lemma TailRuns(c: Scope, pre: seq<Instr>, tail: Code, b: nat, at: nat, s: Memory, s1: Memory,
                 r: Option<(Value, Memory)>, t: DclType, st: State, st1: State)
    requires ExecSeq(pre, b, at, st) == Some(st1) && Framed(st, st1, b, at) && s1.vars == s.vars
    requires Computes(c, tail, b, at + |pre|, s1, r, t, st1)
    ensures Computes(c, Code(pre + tail.instrs, tail.result), b, at, s, r, t, st)
  {
    hide Related, HasKind;
    ExecAppend(pre, tail.instrs, b, at, st);
    if r.Some? {
      FramedTrans(st, st1, ExecSeq(tail.instrs, b, at + |pre|, st1).value, b, at, at + |pre|);
    }
  }

  /** Code after code that failed. */
  lemma TailFails(c: Scope, pre: seq<Instr>, tail: seq<Instr>, o: Operand, b: nat, at: nat, s: Memory, t: DclType,
                  st: State)
    requires ExecSeq(pre, b, at, st) == None
    ensures Computes(c, Code(pre + tail, o), b, at, s, None, t, st)
  {
    hide Related, HasKind;
    ExecAppend(pre, tail, b, at, st);
  }

  /** The registers hold the values of both operands of a sum or difference. */
  ghost predicate OperandsReady(st: State, v: Operand, w: Operand, x: Value, y: Value, b: nat, at: nat) {
    Read(st, v) == Some(x) && Read(st, w) == Some(y) && Before(v, b, at) && Before(w, b, at)
  }

  /** A pointer moved back: negate, then displace. */
  lemma BackwardRuns(c: Scope, v: Operand, w: Operand, x: Value, y: Value, b: nat, at: nat, s: Memory, st: State)
    requires SoundScope(c) && Related(c, s, st) && b != 0
    requires OperandsReady(st, v, w, x, y, b, at) && x.PtrV? && y.IntV?
    ensures Computes(c, Code([Bin(Sub, ConstInt(0), w), Gep(v, Reg(b, at))], Reg(b, at + 1)),
                     b, at, s, Some((SubtractValues(x, y).value, s)), IntStar, st)
  {
    var neg, r := IntV(Wrap(-y.i)), SubtractValues(x, y).value;
    var first, second := Bin(Sub, ConstInt(0), w), Gep(v, Reg(b, at));
    var st1 := Set(st, b, at, neg);
    SetKeeps(c, s, st, b, at, neg);
    ExecOne(first, b, at, st);
    ReadFramed(st, st1, b, at, v, x);
    OneSets(c, second, b, at + 1, s, r, IntStar, st1);
    TailRuns(c, [first], Code([second], Reg(b, at + 1)), b, at, s, s, Some((r, s)), IntStar, st, st1);
    assert [first] + [second] == [first, second];
  }

  /** Both operands done, the sum or difference is what the values give. */
  lemma SumRuns(c: Scope, e: Expr, t: DclType, v: Operand, w: Operand, x: Value, y: Value, b: nat, at: nat, s: Memory,
                st: State)
    requires SoundScope(c) && Related(c, s, st) && b != 0
    requires !e.JustTerm? && ExprHasType(c.env, e, t) && (e.Minus? ==> TermType(c.env, e.term) != IntStar)
    requires HasKind(x, ExprType(c.env, e.left)) && HasKind(y, TermType(c.env, e.term))
    requires OperandsReady(st, v, w, x, y, b, at)
    ensures var r := if e.Plus? then AddValues(x, y) else SubtractValues(x, y);
            r.Some? && Computes(c, SumCode(c, e, v, w, b, at), b, at, s, Some((r.value, s)), t, st)
  {
    ExprTypeIsUnique(c.env, e, t);
    var tl, tt := OperandTypes(c.env, e, t);
    if t == IntStar && e.Minus? {
      BackwardRuns(c, v, w, x, y, b, at, s, st);
    } else if t == Int && e.Minus? {
      OneSets(c, Bin(Sub, v, w), b, at, s, SubtractValues(x, y).value, t, st);
    } else if t == Int {
      OneSets(c, Bin(Add, v, w), b, at, s, AddValues(x, y).value, t, st);
    } else if tl == Int {
      OneSets(c, Gep(w, v), b, at, s, AddValues(x, y).value, t, st);
    } else {
      OneSets(c, Gep(v, w), b, at, s, AddValues(x, y).value, t, st);
    }
  }

  /** The state after code that computes something. */
  function After(code: Code, b: nat, at: nat, st: State): State {
    match ExecSeq(code.instrs, b, at, st) case Some(st') => st' case None => st
  }

  /** What a successful computation leaves behind. */
  lemma Computed(c: Scope, code: Code, b: nat, at: nat, s: Memory, v: Value, s': Memory, t: DclType, st: State)
    requires Computes(c, code, b, at, s, Some((v, s')), t, st)
    ensures Related(c, s', After(code, b, at, st)) && s'.vars == s.vars && HasKind(v, t)
    ensures Read(After(code, b, at, st), code.result) == Some(v)
  {
  }

  /** One operand, then the rest. */
  lemma UnaryRuns(c: Scope, x: Code, tail: Code, b: nat, at: nat, s: Memory, r1: Option<(Value, Memory)>, t1: DclType,
                  r: Option<(Value, Memory)>, t: DclType, st: State)
    requires Computes(c, x, b, at, s, r1, t1, st)
    requires r1.None? ==> r.None?
    requires r1.Some? ==> Computes(c, tail, b, at + |x.instrs|, r1.value.1, r, t, After(x, b, at, st))
    ensures Computes(c, Code(x.instrs + tail.instrs, tail.result), b, at, s, r, t, st)
  {
    hide Related, HasKind;
    if r1.None? {
      TailFails(c, x.instrs, tail.instrs, tail.result, b, at, s, t, st);
    } else {
      TailRuns(c, x.instrs, tail, b, at, s, r1.value.1, r, t, st, After(x, b, at, st));
    }
  }

  /** Two operands, then the rest. */
  lemma BinaryRuns(c: Scope, x: Code, y: Code, tail: Code, b: nat, at: nat, s: Memory,
                   r1: Option<(Value, Memory)>, t1: DclType, r2: Option<(Value, Memory)>, t2: DclType,
                   r: Option<(Value, Memory)>, t: DclType, st: State)
    requires Computes(c, x, b, at, s, r1, t1, st)
    requires r1.Some? ==> Computes(c, y, b, at + |x.instrs|, r1.value.1, r2, t2, After(x, b, at, st))
    requires r1.None? || r2.None? ==> r.None?
    requires r1.Some? && r2.Some? ==>
               var st2 := After(y, b, at + |x.instrs|, After(x, b, at, st));
               OperandsReady(st2, y.result, x.result, r2.value.0, r1.value.0, b, at + |x.instrs| + |y.instrs|) ==>
                 Computes(c, tail, b, at + |x.instrs| + |y.instrs|, r2.value.1, r, t, st2)
    ensures Computes(c, Code(x.instrs + y.instrs + tail.instrs, tail.result), b, at, s, r, t, st)
  {
    hide Related, HasKind;
    assert x.instrs + y.instrs + tail.instrs == x.instrs + (y.instrs + tail.instrs);
    var rest := Code(y.instrs + tail.instrs, tail.result);
    if r1.Some? {
      var st1 := After(x, b, at, st);
      if r2.Some? {
        ReadFramed(st1, After(y, b, at + |x.instrs|, st1), b, at + |x.instrs|, x.result, r1.value.0);
      }
      UnaryRuns(c, y, tail, b, at + |x.instrs|, r1.value.1, r2, t2, r, t, st1);
    }
    UnaryRuns(c, x, rest, b, at, s, r1, t1, r, t, st);
  }

  lemma {:induction false} ExprRuns(c: Scope, e: Expr, t: DclType, b: nat, at: nat, s: Memory, st: State)
    requires SoundScope(c) && Related(c, s, st) && b != 0
    requires ExprHasType(c.env, e, t) && PlainExpr(c.env, e)
    ensures Computes(c, ExprCode(c, e, b, at), b, at, s, EvalExpr(e, s), t, st)
    decreases e, 0
  {
    hide Computes, Related, SoundScope, OperandsReady, HasKind, After, SumCode, AddValues, SubtractValues;
    hide TermCode, EvalTerm, PlainTerm, TermHasType, ExprType, TermType;
    if e.JustTerm? {
      TermRuns(c, e.term, t, b, at, s, st);
    } else {
      var tl, tt := OperandTypes(c.env, e, t);
      var x := TermCode(c, e.term, b, at);
      var y := ExprCode(c, e.left, b, at + |x.instrs|);
      var k := at + |x.instrs| + |y.instrs|;
      var z := SumCode(c, e, y.result, x.result, b, k);
      var r1 := EvalTerm(e.term, s);
      TermRuns(c, e.term, tt, b, at, s, st);
      var r2 := None;
      if r1.Some? {
        var st1 := After(x, b, at, st);
        Computed(c, x, b, at, s, r1.value.0, r1.value.1, tt, st);
        r2 := EvalExpr(e.left, r1.value.1);
        ExprRuns(c, e.left, tl, b, at + |x.instrs|, r1.value.1, st1);
        var st2 := After(y, b, at + |x.instrs|, st1);
        if r2.Some? {
          Computed(c, y, b, at + |x.instrs|, r1.value.1, r2.value.0, r2.value.1, tl, st1);
        }
        if r2.Some? && OperandsReady(st2, y.result, x.result, r2.value.0, r1.value.0, b, k) {
          SumRuns(c, e, t, y.result, x.result, r2.value.0, r1.value.0, b, k, r2.value.1, st2);
        }
      }
      BinaryRuns(c, x, y, z, b, at, s, r1, tt, r2, tl, EvalExpr(e, s), t, st);
    }
  }

  /** Both operands done, the product, quotient or remainder is what the values give. */
  lemma ProductRuns(c: Scope, op: BinOp, v: Operand, w: Operand, x: Value, y: Value, b: nat, at: nat, s: Memory,
                    st: State)
    requires SoundScope(c) && Related(c, s, st) && b != 0
    requires x.IntV? && y.IntV? && OperandsReady(st, v, w, x, y, b, at)
    ensures var r := ArithValues(op, x, y);
            Computes(c, Code([Bin(op, v, w)], Reg(b, at)), b, at, s, if r.Some? then Some((r.value, s)) else None, Int,
                     st)
  {
    var r := ArithValues(op, x, y);
    if r.Some? {
      OneSets(c, Bin(op, v, w), b, at, s, r.value, Int, st);
    } else {
      ExecOne(Bin(op, v, w), b, at, st);
    }
  }

  lemma {:induction false} TermRuns(c: Scope, term: Term, t: DclType, b: nat, at: nat, s: Memory, st: State)
    requires SoundScope(c) && Related(c, s, st) && b != 0
    requires TermHasType(c.env, term, t) && PlainTerm(c.env, term)
    ensures Computes(c, TermCode(c, term, b, at), b, at, s, EvalTerm(term, s), t, st)
    decreases term, 0
  {
    hide Computes, Related;
    if term.JustFactor? {
      FactorRuns(c, term.factor, t, b, at, s, st);
    } else {
      var x := FactorCode(c, term.factor, b, at);
      var y := TermCode(c, term.left, b, at + |x.instrs|);
      var op := if term.Times? then Mul else if term.Slash? then SDiv else SRem;
      var k := at + |x.instrs| + |y.instrs|;
      var r1 := EvalFactor(term.factor, s);
      FactorRuns(c, term.factor, Int, b, at, s, st);
      var r2 := None;
      if r1.Some? {
        var st1 := After(x, b, at, st);
        Computed(c, x, b, at, s, r1.value.0, r1.value.1, Int, st);
        r2 := EvalTerm(term.left, r1.value.1);
        TermRuns(c, term.left, Int, b, at + |x.instrs|, r1.value.1, st1);
        var st2 := After(y, b, at + |x.instrs|, st1);
        if r2.Some? {
          Computed(c, y, b, at + |x.instrs|, r1.value.1, r2.value.0, r2.value.1, Int, st1);
        }
        if r2.Some? && OperandsReady(st2, y.result, x.result, r2.value.0, r1.value.0, b, k) {
          ProductRuns(c, op, y.result, x.result, r2.value.0, r1.value.0, b, k, r2.value.1, st2);
        }
      }
      BinaryRuns(c, x, y, Code([Bin(op, y.result, x.result)], Reg(b, k)), b, at, s, r1, Int, r2, Int, EvalTerm(term, s),
                 Int, st);
    }
  }

  /** The address is known: load. */
  lemma LoadRuns(c: Scope, o: Operand, p: Value, b: nat, k: nat, s: Memory, st: State)
    requires SoundScope(c) && Related(c, s, st) && b != 0 && p.PtrV? && Read(st, o) == Some(p)
    ensures var v := HeapLoad(s.heap, p);
            Computes(c, Code([Load(o)], Reg(b, k)), b, k, s, if v.Some? then Some((IntV(v.value), s)) else None, Int,
                     st)
  {
    var v := HeapLoad(s.heap, p);
    if v.Some? {
      OneSets(c, Load(o), b, k, s, IntV(v.value), Int, st);
    } else {
      ExecOne(Load(o), b, k, st);
    }
  }

  lemma {:induction false} FactorRuns(c: Scope, f: Factor, t: DclType, b: nat, at: nat, s: Memory, st: State)
    requires SoundScope(c) && Related(c, s, st) && b != 0
    requires FactorHasType(c.env, f, t) && PlainFactor(c.env, f)
    ensures Computes(c, FactorCode(c, f, b, at), b, at, s, EvalFactor(f, s), t, st)
    decreases f, 1
  {
    match f
    case Id(name) =>
      assert Holds(c, s.vars, st, name);
      OneSets(c, Load(c.table[name]), b, at, s, s.vars[name], t, st);
    case Num(_) =>
    case NullValue =>
    case Paren(e) =>
      ExprRuns(c, e, t, b, at, s, st);
    case NewArray(size) =>
      NewArrayRuns(c, size, b, at, s, st);
    case Deref(pointer) =>
      DerefRuns(c, pointer, b, at, s, st);
    case Call(callee, args) =>
      CallRuns(c, callee, args, b, at, s, st);
  }

  // ----- calls -----

  /** Running the code of arguments agrees with their values in order. */
  ghost predicate ComputesAll(c: Scope, code: ArgsResult, b: nat, at: nat, s: Memory, r: Option<(seq<Value>, Memory)>,
                              st: State) {
    var end := ExecSeq(code.instrs, b, at, st);
    match r
    case None => end == None
    case Some((vs, s')) =>
      && end.Some?
      && Related(c, s', end.value)
      && s'.vars == s.vars
      && ReadAll(end.value, code.results) == Some(vs)
      && Framed(st, end.value, b, at)
      && AllBefore(code.results, b, at + |code.instrs|)
  }

  predicate AllBefore(os: seq<Operand>, b: nat, at: nat) {
    forall k :: 0 <= k < |os| ==> Before(os[k], b, at)
  }

  lemma NoArgsRun(c: Scope, b: nat, at: nat, s: Memory, st: State)
    requires Related(c, s, st)
    ensures ComputesAll(c, ArgsResult([], []), b, at, s, Some(([], s)), st)
  {
  }

  /** One argument, then those after it. */
  lemma MoreArgsRun(c: Scope, x: Code, more: ArgsResult, b: nat, at: nat, s: Memory, r1: Option<(Value, Memory)>,
                    t: DclType, r2: Option<(seq<Value>, Memory)>, st: State)
    requires Computes(c, x, b, at, s, r1, t, st)
    requires r1.Some? ==> ComputesAll(c, more, b, at + |x.instrs|, r1.value.1, r2, After(x, b, at, st))
    ensures var r := if r1.Some? && r2.Some? then Some(([r1.value.0] + r2.value.0, r2.value.1)) else None;
            ComputesAll(c, ArgsResult(x.instrs + more.instrs, [x.result] + more.results), b, at, s, r, st)
  {
    hide Related, HasKind;
    ExecAppend(x.instrs, more.instrs, b, at, st);
    if r1.Some? && r2.Some? {
      var st1 := After(x, b, at, st);
      var st2 := ExecSeq(more.instrs, b, at + |x.instrs|, st1).value;
      ReadFramed(st1, st2, b, at + |x.instrs|, x.result, r1.value.0);
      FramedTrans(st, st1, st2, b, at, at + |x.instrs|);
      assert ([x.result] + more.results)[1..] == more.results;
    }
  }

  lemma {:induction false} ArgsRun(c: Scope, args: Arglist, b: nat, at: nat, s: Memory, st: State)
    requires SoundScope(c) && Related(c, s, st) && b != 0
    requires ArgsHaveTypes(c.env, args) && PlainArgs(c.env, args)
    ensures ComputesAll(c, ArgsCode(c, args, b, at), b, at, s, EvalArgs(args, s), st)
    decreases args, 0
  {
    hide Computes, ComputesAll, Related, SoundScope, After, ExprCode, EvalExpr, ExprHasType, PlainExpr;
    match args
    case NoArgs => NoArgsRun(c, b, at, s, st);
    case Args(e, rest) =>
      var t := if ExprHasType(c.env, e, Int) then Int else IntStar;
      var x := ExprCode(c, e, b, at);
      var k := at + |x.instrs|;
      ExprRuns(c, e, t, b, at, s, st);
      var r1, r2 := EvalExpr(e, s), None;
      if r1.Some? {
        Computed(c, x, b, at, s, r1.value.0, r1.value.1, t, st);
        r2 := EvalArgs(rest, r1.value.1);
        ArgsRun(c, rest, b, k, r1.value.1, After(x, b, at, st));
      }
      MoreArgsRun(c, x, ArgsCode(c, rest, b, k), b, at, s, r1, t, r2, st);
  }

  /** The arguments are known: ask for the procedure. */
  lemma InvokeRuns(c: Scope, callee: string, os: seq<Operand>, vs: seq<Value>, b: nat, k: nat, s: Memory, st: State)
    requires SoundScope(c) && Related(c, s, st) && b != 0 && ReadAll(st, os) == Some(vs)
    ensures var q := Request(callee, vs, s.heap);
            var r := if q in s.world.replies then
              var a := s.world.replies[q]; Some((IntV(a.val), s.(heap := a.heap, out := s.out + a.lines)))
              else None;
            Computes(c, Code([Invoke(callee, os)], Reg(b, k)), b, k, s, r, Int, st)
  {
    ExecOne(Invoke(callee, os), b, k, st);
    var q := Request(callee, vs, s.heap);
    if q in s.world.replies {
      var a := s.world.replies[q];
      var s', st' := s.(heap := a.heap, out := s.out + a.lines), st.(heap := a.heap, out := st.out + a.lines);
      assert Related(c, s', st') by {
        forall x | x in c.table ensures Holds(c, s'.vars, st', x) { assert Holds(c, s.vars, st, x); }
      }
      SetKeeps(c, s', st', b, k, IntV(a.val));
    }
  }

  lemma {:induction false} CallRuns(c: Scope, callee: string, args: Arglist, b: nat, at: nat, s: Memory, st: State)
    requires SoundScope(c) && Related(c, s, st) && b != 0
    requires ArgsHaveTypes(c.env, args) && PlainArgs(c.env, args)
    ensures Computes(c, FactorCode(c, Call(callee, args), b, at), b, at, s, EvalFactor(Call(callee, args), s), Int, st)
    decreases args, 1
  {
    hide Related, SoundScope, ArgsCode, EvalArgs;
    var code := ArgsCode(c, args, b, at);
    var k, last := at + |code.instrs|, Code([Invoke(callee, code.results)], Reg(b, at + |code.instrs|));
    ArgsRun(c, args, b, at, s, st);
    var r := EvalArgs(args, s);
    if r.None? {
      TailFails(c, code.instrs, last.instrs, last.result, b, at, s, Int, st);
    } else {
      var st1 := ExecSeq(code.instrs, b, at, st).value;
      InvokeRuns(c, callee, code.results, r.value.0, b, k, r.value.1, st1);
      TailRuns(c, code.instrs, last, b, at, s, r.value.1, EvalFactor(Call(callee, args), s), Int, st, st1);
    }
  }

  lemma {:induction false} DerefRuns(c: Scope, pointer: Factor, b: nat, at: nat, s: Memory, st: State)
    requires SoundScope(c) && Related(c, s, st) && b != 0
    requires FactorHasType(c.env, pointer, IntStar) && PlainFactor(c.env, pointer)
    ensures Computes(c, FactorCode(c, Deref(pointer), b, at), b, at, s, EvalFactor(Deref(pointer), s), Int, st)
    decreases pointer, 2
  {
    hide Computes, Related;
    var x := FactorCode(c, pointer, b, at);
    var k := at + |x.instrs|;
    var r1 := EvalFactor(pointer, s);
    FactorRuns(c, pointer, IntStar, b, at, s, st);
    if r1.Some? {
      Computed(c, x, b, at, s, r1.value.0, r1.value.1, IntStar, st);
      LoadRuns(c, x.result, r1.value.0, b, k, r1.value.1, After(x, b, at, st));
    }
    UnaryRuns(c, x, Code([Load(x.result)], Reg(b, k)), b, at, s, r1, IntStar, EvalFactor(Deref(pointer), s), Int, st);
  }

  lemma {:induction false} NewArrayRuns(c: Scope, size: Expr, b: nat, at: nat, s: Memory, st: State)
    requires SoundScope(c) && Related(c, s, st) && b != 0
    requires ExprHasType(c.env, size, Int) && PlainExpr(c.env, size)
    ensures Computes(c, FactorCode(c, NewArray(size), b, at), b, at, s, EvalFactor(NewArray(size), s), IntStar, st)
    decreases size, 1
  {
    hide Computes, Related;
    var x := ExprCode(c, size, b, at);
    var k := at + |x.instrs|;
    var r1 := EvalExpr(size, s);
    ExprRuns(c, size, Int, b, at, s, st);
    if r1.Some? {
      Computed(c, x, b, at, s, r1.value.0, r1.value.1, Int, st);
      AllocationRuns(c, x.result, r1.value.0, b, k, r1.value.1, After(x, b, at, st));
    }
    UnaryRuns(c, x, AllocationCode(x.result, b, k), b, at, s, r1, Int, EvalFactor(NewArray(size), s), IntStar, st);
  }

  function AllocationCode(o: Operand, b: nat, k: nat): Code {
    Code([Bin(Mul, o, ConstInt(4)), Malloc(Reg(b, k)), Cast(Reg(b, k + 1))], Reg(b, k + 2))
  }

  /** The size in bytes is known: allocate and cast. */
  lemma MallocRuns(c: Scope, n: int, b: nat, k: nat, s: Memory, st: State)
    requires SoundScope(c) && Related(c, s, st) && b != 0 && Read(st, Reg(b, k)) == Some(IntV(n))
    ensures var (h, p) := HeapAlloc(s.heap, WordsOf(n));
            Computes(c, Code([Malloc(Reg(b, k)), Cast(Reg(b, k + 1))], Reg(b, k + 2)),
                     b, k + 1, s, Some((p, s.(heap := h))), IntStar, st)
  {
    var (h, p) := HeapAlloc(s.heap, WordsOf(n));
    var s', st' := s.(heap := h), st.(heap := h);
    assert Related(c, s', st') by {
      forall x | x in c.table ensures Holds(c, s'.vars, st', x) { assert Holds(c, s.vars, st, x); }
    }
    SetKeeps(c, s', st', b, k + 1, p);
    var st1 := Set(st', b, k + 1, p);
    ExecOne(Malloc(Reg(b, k)), b, k + 1, st);
    OneSets(c, Cast(Reg(b, k + 1)), b, k + 2, s', p, IntStar, st1);
    TailRuns(c, [Malloc(Reg(b, k))], Code([Cast(Reg(b, k + 1))], Reg(b, k + 2)), b, k + 1, s, s', Some((p, s')),
             IntStar, st, st1);
    assert [Malloc(Reg(b, k))] + [Cast(Reg(b, k + 1))] == [Malloc(Reg(b, k)), Cast(Reg(b, k + 1))];
  }

  /** The size is known: multiply, allocate and cast. */
  lemma AllocationRuns(c: Scope, o: Operand, n: Value, b: nat, k: nat, s: Memory, st: State)
    requires SoundScope(c) && Related(c, s, st) && b != 0
    requires n.IntV? && Read(st, o) == Some(n)
    ensures var (h, p) := HeapAlloc(s.heap, ArrayWords(n.i));
            Computes(c, AllocationCode(o, b, k), b, k, s, Some((p, s.(heap := h))), IntStar, st)
  {
    var bytes := Wrap(4 * n.i);
    var (h, p) := HeapAlloc(s.heap, ArrayWords(n.i));
    var mul := Bin(Mul, o, ConstInt(4));
    var rest := Code([Malloc(Reg(b, k)), Cast(Reg(b, k + 1))], Reg(b, k + 2));
    var st1 := Set(st, b, k, IntV(bytes));
    SetKeeps(c, s, st, b, k, IntV(bytes));
    assert n.i * 4 == 4 * n.i;
    ExecOne(mul, b, k, st);
    MallocRuns(c, bytes, b, k, s, st1);
    TailRuns(c, [mul], rest, b, k, s, s, Some((p, s.(heap := h))), IntStar, st, st1);
    assert [mul] + rest.instrs == AllocationCode(o, b, k).instrs;
  }

  // ----- tests and statements without inner statements -----

  predicate PlainTest(env: TypeEnv, t: Test) {
    PlainExpr(env, t.left) && PlainExpr(env, t.right)
  }

  predicate PlainStatement(env: TypeEnv, s: Statement) {
    match s
    case Assign(lvalue, e) => PlainLvalue(env, lvalue) && PlainExpr(env, e)
    case If(test, onTrue, onFalse) =>
      && PlainTest(env, test)
      && (forall i :: 0 <= i < |onTrue| ==> PlainStatement(env, onTrue[i]))
      && (forall i :: 0 <= i < |onFalse| ==> PlainStatement(env, onFalse[i]))
    case While(test, body) =>
      PlainTest(env, test) && forall i :: 0 <= i < |body| ==> PlainStatement(env, body[i])
    case Println(e) => PlainExpr(env, e)
    case Delete(e) => PlainExpr(env, e)
  }

  /** Running the instructions agrees with a change of the store. */
  ghost predicate Effects(c: Scope, instrs: seq<Instr>, b: nat, at: nat, r: Option<Memory>, st: State) {
    var end := ExecSeq(instrs, b, at, st);
    match r
    case None => end == None
    case Some(s') => end.Some? && Related(c, s', end.value)
  }

  /** Running the code of a test agrees with its evaluation. */
  ghost predicate Decides(c: Scope, code: Code, b: nat, r: Option<(bool, Memory)>, st: State) {
    var end := ExecSeq(code.instrs, b, 0, st);
    match r
    case None => end == None
    case Some((v, s')) => end.Some? && Related(c, s', end.value) && Read(end.value, code.result) == Some(BoolV(v))
  }

  lemma CompareRuns(c: Scope, op: Symbol, v: Operand, w: Operand, x: Value, y: Value, b: nat, at: nat, s: Memory,
                    st: State)
    requires SoundScope(c) && Related(c, s, st) && b != 0 && Read(st, v) == Some(x) && Read(st, w) == Some(y)
    ensures var r := CompareValues(s.world, op, x, y);
            var end := ExecSeq([ICmp(op, v, w)], b, at, st);
            match r
            case None => end == None
            case Some(z) => end.Some? && Related(c, s, end.value) && Read(end.value, Reg(b, at)) == Some(BoolV(z))
  {
    ExecOne(ICmp(op, v, w), b, at, st);
    var r := CompareValues(s.world, op, x, y);
    if r.Some? {
      SetKeeps(c, s, st, b, at, BoolV(r.value));
    }
  }

  /** The codes of two expressions in a row, the right one first. */
  lemma BothRun(c: Scope, left: Expr, right: Expr, t: DclType, b: nat, s: Memory, st: State)
    requires SoundScope(c) && Related(c, s, st) && b != 0
    requires ExprHasType(c.env, left, t) && ExprHasType(c.env, right, t)
    requires PlainExpr(c.env, left) && PlainExpr(c.env, right)
    ensures var x := ExprCode(c, right, b, 0);
            var y := ExprCode(c, left, b, |x.instrs|);
            var end := ExecSeq(x.instrs + y.instrs, b, 0, st);
            match EvalExpr(right, s)
            case None => end == None
            case Some((w, s1)) =>
              match EvalExpr(left, s1)
              case None => end == None
              case Some((v, s2)) =>
                end.Some? && Related(c, s2, end.value) && Read(end.value, y.result) == Some(v) &&
                  Read(end.value, x.result) == Some(w)
  {
    hide Related, SoundScope, HasKind, ExprCode, EvalExpr, ExprHasType, PlainExpr;
    var x := ExprCode(c, right, b, 0);
    var y := ExprCode(c, left, b, |x.instrs|);
    ExecAppend(x.instrs, y.instrs, b, 0, st);
    var r1 := EvalExpr(right, s);
    ExprRuns(c, right, t, b, 0, s, st);
    if r1.Some? {
      var st1 := After(x, b, 0, st);
      var r2 := EvalExpr(left, r1.value.1);
      ExprRuns(c, left, t, b, |x.instrs|, r1.value.1, st1);
      if r2.Some? {
        ReadFramed(st1, After(y, b, |x.instrs|, st1), b, |x.instrs|, x.result, r1.value.0);
      }
    }
  }

  lemma TestRuns(c: Scope, t: Test, b: nat, s: Memory, st: State)
    requires SoundScope(c) && Related(c, s, st) && b != 0
    requires TestIsTyped(c.env, t) && PlainTest(c.env, t)
    ensures Decides(c, TestCode(c, t, b, 0), b, EvalTest(t, s), st)
  {
    hide Related, SoundScope, ExprCode, EvalExpr, ExprType, ExprHasType, PlainExpr, CompareValues;
    var k := if ExprHasType(c.env, t.left, Int) && ExprHasType(c.env, t.right, Int) then Int else IntStar;
    var x := ExprCode(c, t.right, b, 0);
    var y := ExprCode(c, t.left, b, |x.instrs|);
    var last := ICmp(t.op, y.result, x.result);
    BothRun(c, t.left, t.right, k, b, s, st);
    ExecAppend(x.instrs + y.instrs, [last], b, 0, st);
    var r1 := EvalExpr(t.right, s);
    if r1.Some? {
      var r2 := EvalExpr(t.left, r1.value.1);
      if r2.Some? {
        var st2 := ExecSeq(x.instrs + y.instrs, b, 0, st).value;
        CompareRuns(c, t.op, y.result, x.result, r2.value.0, r1.value.0, b, |x.instrs| + |y.instrs|, r2.value.1, st2);
      }
    }
  }

  /** Storing through the slot of a variable. */
  lemma SlotStoreRuns(c: Scope, name: string, v: Value, t: DclType, o: Operand, b: nat, at: nat, s: Memory, st: State)
    requires SoundScope(c) && Related(c, s, st) && LvalueHasType(c.env, Var(name), t) && HasKind(v, t)
    requires Read(st, o) == Some(v)
    ensures Effects(c, [Store(o, Lookup(c, name))], b, at, AssignTo(Var(name), v, s), st)
  {
    ExecOne(Store(o, Lookup(c, name)), b, at, st);
    assert Holds(c, s.vars, st, name);
    var s' := AssignTo(Var(name), v, s).value;
    var st' := st.(slots := st.slots[c.table[name].index := v]);
    assert ExecInstr(Store(o, Lookup(c, name)), b, at, st) == Some(st');
    forall x | x in c.table
      ensures Holds(c, s'.vars, st', x)
    {
      assert Holds(c, s.vars, st, x);
    }
  }

  /** Storing through a pointer. */
  lemma HeapStoreRuns(c: Scope, v: Value, o: Operand, p: Value, a: Operand, b: nat, at: nat, s: Memory, st: State)
    requires SoundScope(c) && Related(c, s, st) && p.PtrV? && Read(st, o) == Some(v) && Read(st, a) == Some(p)
    ensures var h := HeapStore(s.heap, p, v);
            Effects(c, [Store(o, a)], b, at, if h.Some? then Some(s.(heap := h.value)) else None, st)
  {
    ExecOne(Store(o, a), b, at, st);
    var h := HeapStore(s.heap, p, v);
    if h.Some? {
      forall x | x in c.table
        ensures Holds(c, s.vars, st.(heap := h.value), x)
      {
        assert Holds(c, s.vars, st, x);
      }
    }
  }

  lemma {:induction false} AssignRuns(c: Scope, l: Lvalue, v: Value, t: DclType, o: Operand, b: nat, at: nat, s: Memory,
                                      st: State)
    requires SoundScope(c) && Related(c, s, st) && b != 0
    requires LvalueHasType(c.env, l, t) && PlainLvalue(c.env, l) && HasKind(v, t)
    requires Read(st, o) == Some(v) && Before(o, b, at)
    ensures var a := LvalueCode(c, l, b, at);
            Effects(c, a.instrs + [Store(o, a.result)], b, at, AssignTo(l, v, s), st)
    decreases l
  {
    match l
    case Var(name) =>
      SlotStoreRuns(c, name, v, t, o, b, at, s, st);
      assert [] + [Store(o, Lookup(c, name))] == [Store(o, Lookup(c, name))];
    case Target(pointer) =>
      var x := FactorCode(c, pointer, b, at);
      FactorRuns(c, pointer, IntStar, b, at, s, st);
      ExecAppend(x.instrs, [Store(o, x.result)], b, at, st);
      var r := EvalFactor(pointer, s);
      if r.Some? {
        var st1 := After(x, b, at, st);
        ReadFramed(st, st1, b, at, o, v);
        HeapStoreRuns(c, v, o, r.value.0, x.result, b, at + |x.instrs|, r.value.1, st1);
      }
    case Enclosed(inner) =>
      AssignRuns(c, inner, v, t, o, b, at, s, st);
  }

  lemma PrintRuns(c: Scope, o: Operand, n: int, b: nat, at: nat, s: Memory, st: State)
    requires SoundScope(c) && Related(c, s, st) && b != 0 && Read(st, o) == Some(IntV(n))
    ensures Effects(c, [Printf(o)], b, at, Some(s.(out := s.out + [n])), st)
  {
    ExecOne(Printf(o), b, at, st);
    var s', st' := s.(out := s.out + [n]), st.(out := st.out + [n]);
    forall x | x in c.table
      ensures Holds(c, s'.vars, st', x)
    {
      assert Holds(c, s.vars, st, x);
    }
    SetKeeps(c, s', st', b, at, IntV(0));
  }

  lemma FreeRuns(c: Scope, o: Operand, p: Value, b: nat, at: nat, s: Memory, st: State)
    requires SoundScope(c) && Related(c, s, st) && b != 0 && Read(st, o) == Some(p)
    ensures var h := HeapFree(s.heap, p);
            Effects(c, [Cast(o), Free(Reg(b, at))], b, at, if h.Some? then Some(s.(heap := h.value)) else None, st)
  {
    var st1 := Set(st, b, at, p);
    SetKeeps(c, s, st, b, at, p);
    assert [Cast(o), Free(Reg(b, at))][1..] == [Free(Reg(b, at))];
    ExecOne(Free(Reg(b, at)), b, at + 1, st1);
    var h := HeapFree(s.heap, p);
    if h.Some? {
      forall x | x in c.table
        ensures Holds(c, s.vars, st1.(heap := h.value), x)
      {
        assert Holds(c, s.vars, st1, x);
      }
    }
  }

  /** Code for an expression, then code that uses its value. */
  lemma UseRuns(c: Scope, e: Expr, t: DclType, tail: seq<Instr>, b: nat, s: Memory, r: Option<Memory>, st: State)
    requires SoundScope(c) && Related(c, s, st) && b != 0 && ExprHasType(c.env, e, t) && PlainExpr(c.env, e)
    requires EvalExpr(e, s).None? ==> r.None?
    requires var x := ExprCode(c, e, b, 0);
             var v := EvalExpr(e, s);
             var st1 := After(x, b, 0, st);
             v.Some? && Related(c, v.value.1, st1) && HasKind(v.value.0, t) && Read(st1, x.result) == Some(v.value.0) &&
             Before(x.result, b, |x.instrs|) ==>
               Effects(c, tail, b, |x.instrs|, r, st1)
    ensures Effects(c, ExprCode(c, e, b, 0).instrs + tail, b, 0, r, st)
  {
    hide Related, SoundScope, HasKind, ExprCode, EvalExpr, ExprHasType, PlainExpr;
    ExprRuns(c, e, t, b, 0, s, st);
    ExecAppend(ExprCode(c, e, b, 0).instrs, tail, b, 0, st);
  }

  lemma AssignmentRuns(c: Scope, l: Lvalue, e: Expr, t: DclType, b: nat, s: Memory, st: State)
    requires SoundScope(c) && Related(c, s, st) && b != 0
    requires LvalueHasType(c.env, l, t) && ExprHasType(c.env, e, t) && PlainLvalue(c.env, l) && PlainExpr(c.env, e)
    ensures Effects(c, SimpleCode(c, Assign(l, e), b, 0), b, 0, ExecSimple(Assign(l, e), s), st)
  {
    hide Related, SoundScope, ExprCode, EvalExpr, ExprHasType, PlainExpr, LvalueCode, LvalueHasType, PlainLvalue,
         AssignTo, Effects;
    var x := ExprCode(c, e, b, 0);
    var k := |x.instrs|;
    var a := LvalueCode(c, l, b, k);
    var tail := a.instrs + [Store(x.result, a.result)];
    var v := EvalExpr(e, s);
    var st1 := After(x, b, 0, st);
    if v.Some? && Related(c, v.value.1, st1) && HasKind(v.value.0, t) && Read(st1, x.result) == Some(v.value.0) &&
      Before(x.result, b, k) {
      AssignRuns(c, l, v.value.0, t, x.result, b, k, v.value.1, st1);
    }
    assert x.instrs + a.instrs + [Store(x.result, a.result)] == x.instrs + tail;
    UseRuns(c, e, t, tail, b, s, ExecSimple(Assign(l, e), s), st);
  }

  lemma SimpleRuns(c: Scope, s: Statement, b: nat, store: Memory, st: State)
    requires SoundScope(c) && Related(c, store, st) && b != 0
    requires IsSimple(s) && StatementIsTyped(c.env, s) && PlainStatement(c.env, s)
    ensures Effects(c, SimpleCode(c, s, b, 0), b, 0, ExecSimple(s, store), st)
  {
    hide Related, SoundScope, ExprCode, EvalExpr, ExprHasType, PlainExpr, LvalueCode, LvalueHasType, PlainLvalue,
         AssignTo, Effects;
    var e := s.expr;
    var x := ExprCode(c, e, b, 0);
    var k := |x.instrs|;
    var v := EvalExpr(e, store);
    var st1 := After(x, b, 0, st);
    match s
    case Assign(lvalue, _) =>
      var t := if ExprHasType(c.env, e, Int) && LvalueHasType(c.env, lvalue, Int) then Int else IntStar;
      AssignmentRuns(c, lvalue, e, t, b, store, st);
    case Println(_) =>
      if v.Some? && Related(c, v.value.1, st1) && HasKind(v.value.0, Int) && Read(st1, x.result) == Some(v.value.0) {
        PrintRuns(c, x.result, v.value.0.i, b, k, v.value.1, st1);
      }
      UseRuns(c, e, Int, [Printf(x.result)], b, store, ExecSimple(s, store), st);
    case Delete(_) =>
      if v.Some? && Related(c, v.value.1, st1) && Read(st1, x.result) == Some(v.value.0) {
        FreeRuns(c, x.result, v.value.0, b, k, v.value.1, st1);
      }
      UseRuns(c, e, IntStar, [Cast(x.result), Free(Reg(b, k))], b, store, ExecSimple(s, store), st);
  }
}
