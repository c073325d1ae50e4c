/** The abstract machine the generated code runs on: basic blocks of instructions with one terminator each,
    stack slots, a heap of allocations, 32-bit wrapping integers and an output trace. */
module Machine {
  import opened Options
  import opened Symbols
  import opened Ast

  // ----- 32-bit arithmetic -----

  const MIN_INT: int := -0x8000_0000
  const MAX_INT: int := 0x7fff_ffff

  predicate InRange(i: int) {
    MIN_INT <= i <= MAX_INT
  }

  /** The 32-bit two's complement number congruent to i. */
  function Wrap(i: int): (w: int)
    ensures InRange(w)
    ensures InRange(i) ==> w == i
  {
    (i + 0x8000_0000) % 0x1_0000_0000 - 0x8000_0000
  }

  /** Division rounding toward zero. */
  function Quotient(a: int, b: int): int
    requires b != 0
  {
    if a >= 0 then a / b else -((-a) / b)
  }

  datatype BinOp = Add | Sub | Mul | SDiv | SRem

  /** Division by zero and the one quotient that overflows are errors. */
  function Arith(op: BinOp, a: int, b: int): Option<int> {
    match op
    case Add => Some(Wrap(a + b))
    case Sub => Some(Wrap(a - b))
    case Mul => Some(Wrap(a * b))
    case SDiv => if b == 0 || (a == MIN_INT && b == -1) then None else Some(Wrap(Quotient(a, b)))
    case SRem => if b == 0 || (a == MIN_INT && b == -1) then None else Some(Wrap(a - b * Quotient(a, b)))
  }

  function Compare(op: Symbol, a: int, b: int): bool {
    if op == EQ then a == b
    else if op == NE then a != b
    else if op == LT then a < b
    else if op == LE then a <= b
    else if op == GE then a >= b
    else a > b
  }

  // ----- values and the heap -----

  datatype Value = IntV(i: int) | PtrV(block: nat, offset: int) | SlotV(slot: nat) | BoolV(b: bool)

  const NULL_POINTER: Value := PtrV(0, 0)

  /** Live allocations by number; number 0 is never given out. */
  datatype Heap = Heap(next: nat, live: map<nat, seq<int>>)

  /** The number of words in an allocation of the given size in bytes, read as an unsigned number. */
  function WordsOf(bytes: int): nat {
    (bytes % 0x1_0000_0000) / 4
  }

  function HeapAlloc(h: Heap, words: nat): (Heap, Value) {
    var n := h.next + 1;
    (Heap(n, h.live[n := seq(words, _ => 0)]), PtrV(n, 0))
  }

  function HeapFree(h: Heap, p: Value): Option<Heap> {
    if p == NULL_POINTER then Some(h)
    else if p.PtrV? && p.block in h.live && p.offset == 0 then Some(Heap(h.next, h.live - {p.block}))
    else None
  }

  function HeapLoad(h: Heap, p: Value): Option<int> {
    if p.PtrV? && p.block in h.live && 0 <= p.offset < |h.live[p.block]| then Some(h.live[p.block][p.offset]) else None
  }

  function HeapStore(h: Heap, p: Value, v: Value): Option<Heap> {
    if p.PtrV? && p.block in h.live && 0 <= p.offset < |h.live[p.block]| && v.IntV? then
      Some(Heap(h.next, h.live[p.block := h.live[p.block][p.offset := v.i]]))
    else None
  }

  // ----- what a run does not decide itself -----

  /** A procedure asked for with argument values, in a heap. */
  datatype Request = Request(callee: string, args: seq<Value>, heap: Heap)

  /** The returned number, the heap then, and the lines printed on the way. */
  datatype Reply = Reply(val: int, heap: Heap, lines: seq<int>)

  /** How calls are answered, and the numeric addresses of pointers. A request without a reply fails. */
  datatype World = World(replies: imap<Request, Reply>, address: Value -> int)

  // ----- code -----

  datatype Operand = ConstInt(i: int) | ConstNull | Arg(n: nat) | Reg(block: nat, index: nat)

  datatype Instr =
    | Alloca(ty: DclType)
    | Load(addr: Operand)
    | Store(val: Operand, addr: Operand)
    | Bin(op: BinOp, a: Operand, b: Operand)
    | ICmp(cmp: Symbol, a: Operand, b: Operand)
    | Gep(base: Operand, idx: Operand)
    | Malloc(bytes: Operand)
    | Cast(a: Operand)
    | PtrToInt(a: Operand)
    | Free(a: Operand)
    | Printf(a: Operand)
    | Invoke(callee: string, args: seq<Operand>)

  datatype Terminator = Open | Br(target: nat) | CondBr(cond: Operand, onTrue: nat, onFalse: nat) | Ret(val: Operand)

  datatype Block = Block(instrs: seq<Instr>, term: Terminator)

  const EMPTY_BLOCK: Block := Block([], Open)

  type Graph = seq<Block>

  // ----- execution -----

  /** Registers are named by the block and the position of the instruction that sets them. */
  datatype State = State(
    args: seq<Value>,
    regs: map<(nat, nat), Value>,
    slots: map<nat, Value>,
    heap: Heap,
    out: seq<int>,
    world: World)

  function Read(st: State, o: Operand): Option<Value> {
    match o
    case ConstInt(i) => Some(IntV(i))
    case ConstNull => Some(NULL_POINTER)
    case Arg(n) => if n < |st.args| then Some(st.args[n]) else None
    case Reg(b, i) => if (b, i) in st.regs then Some(st.regs[(b, i)]) else None
  }

  function ReadInt(st: State, o: Operand): Option<int> {
    var v :- Read(st, o);
    if v.IntV? then Some(v.i) else None
  }

  function ReadAll(st: State, os: seq<Operand>): Option<seq<Value>> {
    if os == [] then Some([])
    else
      var v :- Read(st, os[0]);
      var vs :- ReadAll(st, os[1..]);
      Some([v] + vs)
  }

  function Set(st: State, b: nat, i: nat, v: Value): State {
    st.(regs := st.regs[(b, i) := v])
  }

  /** The effect of the instruction at position i of block b; None is an error. */
  function ExecInstr(instr: Instr, b: nat, i: nat, st: State): Option<State> {
    match instr
    case Alloca(ty) =>
      Some(Set(st.(slots := st.slots[i := if ty == Int then IntV(0) else NULL_POINTER]), b, i, SlotV(i)))
    case Load(a) =>
      var p :- Read(st, a);
      if p.SlotV? then
        if p.slot in st.slots then Some(Set(st, b, i, st.slots[p.slot])) else None
      else
        var v :- HeapLoad(st.heap, p);
        Some(Set(st, b, i, IntV(v)))
    case Store(o, a) =>
      var v :- Read(st, o);
      var p :- Read(st, a);
      if p.SlotV? then
        if p.slot in st.slots then Some(st.(slots := st.slots[p.slot := v])) else None
      else
        var h :- HeapStore(st.heap, p, v);
        Some(st.(heap := h))
    case Bin(op, x, y) =>
      var m :- ReadInt(st, x);
      var n :- ReadInt(st, y);
      var r :- Arith(op, m, n);
      Some(Set(st, b, i, IntV(r)))
    case ICmp(cmp, x, y) =>
      var v :- Read(st, x);
      var w :- Read(st, y);
      var r :- CompareValues(st.world, cmp, v, w);
      Some(Set(st, b, i, BoolV(r)))
    case Gep(base, idx) =>
      var p :- Read(st, base);
      var n :- ReadInt(st, idx);
      if p.PtrV? then Some(Set(st, b, i, PtrV(p.block, p.offset + n))) else None
    case Malloc(bytes) =>
      var n :- ReadInt(st, bytes);
      var (h, p) := HeapAlloc(st.heap, WordsOf(n));
      Some(Set(st.(heap := h), b, i, p))
    case Cast(o) =>
      var v :- Read(st, o);
      Some(Set(st, b, i, v))
    case PtrToInt(o) =>
      var p :- Read(st, o);
      if p.PtrV? then Some(Set(st, b, i, IntV(Wrap(st.world.address(p))))) else None
    case Free(o) =>
      var p :- Read(st, o);
      var h :- HeapFree(st.heap, p);
      Some(st.(heap := h))
    case Invoke(callee, os) =>
      var vs :- ReadAll(st, os);
      var q := Request(callee, vs, st.heap);
      if q in st.world.replies then
        var r := st.world.replies[q];
        Some(Set(st.(heap := r.heap, out := st.out + r.lines), b, i, IntV(r.val)))
      else None
    case Printf(o) =>
      var n :- ReadInt(st, o);
      Some(Set(st.(out := st.out + [n]), b, i, IntV(0)))
  }

  /** Integers compare by value; pointers are the same or not, and are ordered by their addresses. */
  function CompareValues(world: World, op: Symbol, v: Value, w: Value): Option<bool> {
    if v.IntV? && w.IntV? then Some(Compare(op, v.i, w.i))
    else if v.PtrV? && w.PtrV? && op == EQ then Some(v == w)
    else if v.PtrV? && w.PtrV? && op == NE then Some(v != w)
    else if v.PtrV? && w.PtrV? then Some(Compare(op, world.address(v), world.address(w)))
    else None
  }

  /** The instructions of block b from position at on. */
  function ExecSeq(code: seq<Instr>, b: nat, at: nat, st: State): Option<State> {
    if code == [] then Some(st)
    else
      var st' :- ExecInstr(code[0], b, at, st);
      ExecSeq(code[1..], b, at + 1, st')
  }

  /** Before a block, or halted with a value or an error. */
  datatype Config = At(block: nat, st: State) | Returned(val: Value, heap: Heap, out: seq<int>) | Trapped

  predicate Halted(c: Config) {
    !c.At?
  }

  /** One block is executed as one step. */
  function StepBlock(g: Graph, b: nat, st: State): Config {
    if b >= |g| then Trapped
    else
      match ExecSeq(g[b].instrs, b, 0, st)
      case None => Trapped
      case Some(st') => Jump(g[b].term, st')
  }

  function Jump(t: Terminator, st: State): Config {
    match t
    case Open => Trapped
    case Br(n) => At(n, st)
    case CondBr(c, onTrue, onFalse) =>
      (match Read(st, c)
       case Some(BoolV(v)) => At(if v then onTrue else onFalse, st)
       case _ => Trapped)
    case Ret(o) =>
      (match Read(st, o)
       case Some(v) => Returned(v, st.heap, st.out)
       case None => Trapped)
  }

  function Steps(g: Graph, c: Config, k: nat): Config
    decreases k
  {
    if k == 0 || Halted(c) then c else Steps(g, StepBlock(g, c.block, c.st), k - 1)
  }

  lemma {:induction false} StepsCompose(g: Graph, c: Config, j: nat, k: nat)
    ensures Steps(g, c, j + k) == Steps(g, Steps(g, c, j), k)
    decreases j
  {
    if j > 0 && c.At? {
      StepsCompose(g, StepBlock(g, c.block, c.st), j - 1, k);
    }
  }

  lemma {:induction false} ExecAppend(x: seq<Instr>, y: seq<Instr>, b: nat, at: nat, st: State)
    ensures ExecSeq(x + y, b, at, st) ==
            match ExecSeq(x, b, at, st) case None => None case Some(st') => ExecSeq(y, b, at + |x|, st')
  {
    if x == [] {
      assert x + y == y;
    } else {
      assert (x + y)[0] == x[0] && (x + y)[1..] == x[1..] + y;
      match ExecInstr(x[0], b, at, st)
      case None =>
      case Some(st') => ExecAppend(x[1..], y, b, at + 1, st');
    }
  }
}
