/** What WLP4 code means, read off its syntax: an evaluator with a budget of loop iterations. Operands are
    evaluated right to left, and an assignment evaluates its expression before its target. */
module Semantics {
  import opened Options
  import opened Symbols
  import opened Ast
  import opened Machine
  import opened Numerals

  /** The variables of the running procedure, the heap, the lines printed so far, and the world of the run. */
  datatype Memory = Memory(vars: map<string, Value>, heap: Heap, out: seq<int>, world: World)

  /** Pointer arithmetic counts words. */
  function Displace(p: Value, n: int): Value
    requires p.PtrV?
  {
    PtrV(p.block, p.offset + n)
  }

  function AddValues(v: Value, w: Value): Option<Value> {
    if v.IntV? && w.IntV? then Some(IntV(Wrap(v.i + w.i)))
    else if v.PtrV? && w.IntV? then Some(Displace(v, w.i))
    else if v.IntV? && w.PtrV? then Some(Displace(w, v.i))
    else None
  }

  /** Moving a pointer back by n is moving it by the 32-bit negation of n. */
  function SubtractValues(v: Value, w: Value): Option<Value> {
    if v.IntV? && w.IntV? then Some(IntV(Wrap(v.i - w.i)))
    else if v.PtrV? && w.IntV? then Some(Displace(v, Wrap(-w.i)))
    else None
  }

  function ArithValues(op: BinOp, v: Value, w: Value): Option<Value> {
    if v.IntV? && w.IntV? then
      var r :- Arith(op, v.i, w.i);
      Some(IntV(r))
    else None
  }

  /** The size in words an array of n elements gets. */
  function ArrayWords(n: int): nat {
    WordsOf(Wrap(4 * n))
  }

  function EvalExpr(e: Expr, s: Memory): Option<(Value, Memory)> {
    match e
    case JustTerm(term) => EvalTerm(term, s)
    case Plus(left, term) =>
      var (w, s1) :- EvalTerm(term, s);
      var (v, s2) :- EvalExpr(left, s1);
      var r :- AddValues(v, w);
      Some((r, s2))
    case Minus(left, term) =>
      var (w, s1) :- EvalTerm(term, s);
      var (v, s2) :- EvalExpr(left, s1);
      var r :- SubtractValues(v, w);
      Some((r, s2))
  }

  function EvalTerm(t: Term, s: Memory): Option<(Value, Memory)> {
    match t
    case JustFactor(factor) => EvalFactor(factor, s)
    case _ =>
      var (w, s1) :- EvalFactor(t.factor, s);
      var (v, s2) :- EvalTerm(t.left, s1);
      var r :- ArithValues(if t.Times? then Mul else if t.Slash? then SDiv else SRem, v, w);
      Some((r, s2))
  }

  function EvalFactor(f: Factor, s: Memory): Option<(Value, Memory)> {
    match f
    case Id(name) => if name in s.vars then Some((s.vars[name], s)) else None
    case Num(n) => Some((IntV(n), s))
    case NullValue => Some((NULL_POINTER, s))
    case Paren(e) => EvalExpr(e, s)
    case NewArray(size) =>
      var (n, s1) :- EvalExpr(size, s);
      if n.IntV? then
        var (h, p) := HeapAlloc(s1.heap, ArrayWords(n.i));
        Some((p, s1.(heap := h)))
      else None
    case Deref(pointer) =>
      var (p, s1) :- EvalFactor(pointer, s);
      var v :- HeapLoad(s1.heap, p);
      Some((IntV(v), s1))
    case AddressOf(_) => None
    case Call(callee, args) =>
      var (vs, s1) :- EvalArgs(args, s);
      var q := Request(callee, vs, s1.heap);
      if q in s1.world.replies then
        var r := s1.world.replies[q];
        Some((IntV(r.val), s1.(heap := r.heap, out := s1.out + r.lines)))
      else None
  }

  /** Arguments are evaluated first to last. */
  function EvalArgs(args: Arglist, s: Memory): Option<(seq<Value>, Memory)> {
    match args
    case NoArgs => Some(([], s))
    case Args(e, rest) =>
      var (v, s1) :- EvalExpr(e, s);
      var (vs, s2) :- EvalArgs(rest, s1);
      Some(([v] + vs, s2))
  }

  function EvalTest(t: Test, s: Memory): Option<(bool, Memory)> {
    var (w, s1) :- EvalExpr(t.right, s);
    var (v, s2) :- EvalExpr(t.left, s1);
    var r :- CompareValues(s2.world, t.op, v, w);
    Some((r, s2))
  }

  /** Storing v where l says. */
  function AssignTo(l: Lvalue, v: Value, s: Memory): Option<Memory> {
    match l
    case Var(name) => if name in s.vars then Some(s.(vars := s.vars[name := v])) else None
    case Target(pointer) =>
      var (p, s1) :- EvalFactor(pointer, s);
      var h :- HeapStore(s1.heap, p, v);
      Some(s1.(heap := h))
    case Enclosed(inner) => AssignTo(inner, v, s)
  }

  /** The statements without inner statements. */
  function ExecSimple(s: Statement, store: Memory): Option<Memory>
    requires s.Assign? || s.Println? || s.Delete?
  {
    match s
    case Assign(lvalue, e) =>
      var (v, s1) :- EvalExpr(e, store);
      AssignTo(lvalue, v, s1)
    case Println(e) =>
      var (v, s1) :- EvalExpr(e, store);
      if v.IntV? then Some(s1.(out := s1.out + [v.i])) else None
    case Delete(e) =>
      var (v, s1) :- EvalExpr(e, store);
      var h :- HeapFree(s1.heap, v);
      Some(s1.(heap := h))
  }

  datatype Result = Done(store: Memory) | Error | OutOfFuel

  /** Running a statement with at most fuel iterations of any loop. */
  function Exec(fuel: nat, s: Statement, store: Memory): Result
    decreases fuel, s, 0
  {
    match s
    case If(test, onTrue, onFalse) =>
      (match EvalTest(test, store)
       case None => Error
       case Some((b, s1)) => ExecAll(fuel, if b then onTrue else onFalse, s1))
    case While(test, body) =>
      if fuel == 0 then OutOfFuel
      else
        (match EvalTest(test, store)
         case None => Error
         case Some((false, s1)) => Done(s1)
         case Some((true, s1)) =>
           match ExecAll(fuel - 1, body, s1)
           case Done(s2) => Exec(fuel - 1, s, s2)
           case r => r)
    case _ =>
      match ExecSimple(s, store)
      case None => Error
      case Some(s1) => Done(s1)
  }

  function ExecAll(fuel: nat, stmts: seq<Statement>, store: Memory): Result
    decreases fuel, stmts, 1
  {
    if stmts == [] then Done(store)
    else
      match Exec(fuel, stmts[0], store)
      case Done(s1) => ExecAll(fuel, stmts[1..], s1)
      case r => r
  }

  /** A returned value with the heap and the output, an error, or more iterations than the budget. */
  datatype Outcome = Finished(val: Value, heap: Heap, out: seq<int>) | Fault | Unfinished

  /** Each declaration bound to its value. */
  function Bound(ds: seq<Dcl>, vals: seq<Value>): map<string, Value>
    requires |ds| == |vals|
  {
    if ds == [] then map[]
    else Bound(ds[..|ds| - 1], vals[..|vals| - 1])[ds[|ds| - 1].id := vals[|vals| - 1]]
  }

  function InitialValue(d: Dcl): Value {
    if d.dclType == Int then IntV(Stoi(d.value).GetOr(0)) else NULL_POINTER
  }

  function InitialValues(ds: seq<Dcl>): (vals: seq<Value>)
    ensures |vals| == |ds|
    ensures forall i :: 0 <= i < |ds| ==> vals[i] == InitialValue(ds[i])
  {
    if ds == [] then [] else InitialValues(ds[..|ds| - 1]) + [InitialValue(ds[|ds| - 1])]
  }

  /** Binds parameters and declarations, runs the statements and evaluates the result. */
  function RunProcedure(world: World, fuel: nat, p: Procedure, args: seq<Value>, heap: Heap): Outcome
    requires |args| == |p.params|
  {
    var vars := Bound(p.params + p.dcls, args + InitialValues(p.dcls));
    match ExecAll(fuel, p.stmts, Memory(vars, heap, [], world))
    case Error => Fault
    case OutOfFuel => Unfinished
    case Done(m) =>
      match EvalExpr(p.ret, m)
      case None => Fault
      case Some((v, m')) => Finished(v, m'.heap, m'.out)
  }
}
