/** The compiled procedure and the source procedure have the same outcomes. */
module Correctness {
  import opened Options
  import opened Numerals
  import opened Symbols
  import opened Ast
  import opened Types
  import opened Machine
  import opened Semantics
  import opened Lowering
  import opened Procedures
  import opened Simulation
  import opened Runs

  /** The first n slots of the entry block are set up, and nothing else happened. */
  ghost predicate Allocated(st: State, st': State, n: nat) {
    && st'.args == st.args && st'.heap == st.heap && st'.out == st.out && st'.world == st.world
    && forall j: nat :: j < n ==> (0, j) in st'.regs && st'.regs[(0, j)] == SlotV(j) && j in st'.slots
  }

  lemma {:induction false} AllocasRun(ds: seq<Dcl>, st: State)
    ensures var end := ExecSeq(AllocaCode(ds), 0, 0, st); end.Some? && Allocated(st, end.value, |ds|)
  {
    if ds != [] {
      var front, last := ds[..|ds| - 1], Alloca(ds[|ds| - 1].dclType);
      AllocasRun(front, st);
      AllocaCodeIsAllocas(front);
      ExecAppend(AllocaCode(front), [last], 0, 0, st);
      ExecOne(last, 0, |front|, ExecSeq(AllocaCode(front), 0, 0, st).value);
    }
  }

  /** Slots base, base + 1, ... got the values, and nothing else changed. */
  ghost predicate Stored(st: State, st': State, base: nat, vals: seq<Value>) {
    && st'.args == st.args && st'.heap == st.heap && st'.out == st.out && st'.world == st.world && st'.regs == st.regs
    && st'.slots.Keys == st.slots.Keys
    && forall j :: j in st'.slots ==> st'.slots[j] == if base <= j < base + |vals| then vals[j - base] else st.slots[j]
  }

  /** One more slot gets a value. */
  lemma StoredOneMore(c: Scope, st: State, st1: State, o: Operand, name: string, base: nat, vals: seq<Value>, v: Value,
                      at: nat)
    requires Stored(st, st1, base, vals) && Read(st1, o) == Some(v)
    requires InSlot(c, name, base + |vals|, st)
    ensures var end := ExecInstr(Store(o, Lookup(c, name)), 0, at, st1);
            end.Some? && Stored(st, end.value, base, vals + [v])
  {
  }

  /** A name has slot k, and the slot is set up. */
  predicate InSlot(c: Scope, name: string, k: nat, st: State) {
    Lookup(c, name) == Reg(0, k) && (0, k) in st.regs && st.regs[(0, k)] == SlotV(k) && k in st.slots
  }

  /** The declarations have slots base, base + 1, ... */
  ghost predicate InSlots(c: Scope, ds: seq<Dcl>, base: nat, st: State) {
    forall j :: 0 <= j < |ds| ==> InSlot(c, ds[j].id, base + j, st)
  }

  lemma ArgumentReads(n: nat, st: State)
    requires n < |st.args|
    ensures Read(st, Arg(n)) == Some(st.args[n])
  {
  }

  lemma EmptyStored(c: Scope, base: nat, at: nat, st: State)
    ensures ExecSeq([], 0, at, st) == Some(st) && Stored(st, st, base, [])
  {
  }

  lemma {:induction false} ParamStoresRun(c: Scope, ds: seq<Dcl>, at: nat, st: State)
    requires InSlots(c, ds, 0, st) && |ds| <= |st.args|
    ensures var end := ExecSeq(ParamStores(c, ds), 0, at, st); end.Some? && Stored(st, end.value, 0, st.args[..|ds|])
    ensures |ds| == |st.args| ==> st.args[..|ds|] == st.args
  {
    hide ExecInstr, Lookup, InSlot, Read, ExecSeq;
    if ds == [] {
      EmptyStored(c, 0, at, st);
    } else {
      var n := |ds| - 1;
      var front, last := ds[..n], Store(Arg(n), Lookup(c, ds[n].id));
      assert forall j :: 0 <= j < n ==> front[j] == ds[j];
      ParamStoresRun(c, front, at, st);
      assert InSlot(c, ds[n].id, n, st);
      var st1 := ExecSeq(ParamStores(c, front), 0, at, st).value;
      ExecAppend(ParamStores(c, front), [last], 0, at, st);
      ExecOne(last, 0, at + |ParamStores(c, front)|, st1);
      ArgumentReads(n, st1);
      StoredOneMore(c, st, st1, Arg(n), ds[n].id, 0, st.args[..n], st.args[n], at + |ParamStores(c, front)|);
      assert st.args[..n] + [st.args[n]] == st.args[..|ds|];
    }
  }

  lemma InitialOperandReads(d: Dcl, st: State)
    requires HasInitialValue(d)
    ensures Read(st, InitialOperand(d)) == Some(InitialValue(d))
  {
  }

  lemma {:induction false} DclStoresRun(c: Scope, ds: seq<Dcl>, base: nat, at: nat, st: State)
    requires InSlots(c, ds, base, st) && forall i :: 0 <= i < |ds| ==> HasInitialValue(ds[i])
    ensures var end := ExecSeq(DclStores(c, ds), 0, at, st); end.Some? && Stored(st, end.value, base, InitialValues(ds))
  {
    hide HasInitialValue, InitialOperand, InitialValue, ExecInstr, Lookup, InSlot, Read, ExecSeq;
    if ds == [] {
      EmptyStored(c, base, at, st);
    } else {
      var n := |ds| - 1;
      var front, o := ds[..n], InitialOperand(ds[n]);
      var last := Store(o, Lookup(c, ds[n].id));
      assert forall j :: 0 <= j < n ==> front[j] == ds[j];
      DclStoresRun(c, front, base, at, st);
      assert InSlot(c, ds[n].id, base + n, st);
      var st1 := ExecSeq(DclStores(c, front), 0, at, st).value;
      ExecAppend(DclStores(c, front), [last], 0, at, st);
      ExecOne(last, 0, at + |DclStores(c, front)|, st1);
      InitialOperandReads(ds[n], st1);
      StoredOneMore(c, st, st1, o, ds[n].id, base, InitialValues(front), InitialValue(ds[n]),
                    at + |DclStores(c, front)|);
    }
  }

  /** Binding distinct names. */
  lemma {:induction false} BoundDistinct(ds: seq<Dcl>, vals: seq<Value>)
    requires |ds| == |vals| && DistinctIds(ds)
    ensures Bound(ds, vals).Keys == TableOf(ds).Keys
    ensures forall i :: 0 <= i < |ds| ==> ds[i].id in Bound(ds, vals) && Bound(ds, vals)[ds[i].id] == vals[i]
  {
    if ds != [] {
      BoundDistinct(ds[..|ds| - 1], vals[..|vals| - 1]);
    }
  }

  /** What the parser guarantees of a procedure, and the fragment it stays in. */
  ghost predicate IsSound(p: Procedure) {
    var ds := p.params + p.dcls;
    && HasInitialValues(p)
    && DistinctIds(ds)
    && (forall i :: 0 <= i < |ds| ==> ds[i].dclType != Invalid)
    && (forall i :: 0 <= i < |p.stmts| ==>
                      StatementIsTyped(EnvOf(ds), p.stmts[i]) && PlainStatement(EnvOf(ds), p.stmts[i]))
    && ExprHasType(EnvOf(ds), p.ret, Int) && PlainExpr(EnvOf(ds), p.ret)
  }

  /** One argument of the right kind for each parameter. */
  ghost predicate ArgumentsFit(p: Procedure, args: seq<Value>) {
    |args| == |p.params| && forall i :: 0 <= i < |args| ==> HasKind(args[i], p.params[i].dclType)
  }

  function ScopeOf(p: Procedure): Scope {
    Scope(EnvOf(p.params + p.dcls), TableOf(p.params + p.dcls))
  }

  function Start(world: World, args: seq<Value>, heap: Heap): State {
    State(args, map[], map[], heap, [], world)
  }

  function InitialMemory(world: World, p: Procedure, args: seq<Value>, heap: Heap): Memory
    requires |args| == |p.params|
  {
    Memory(Bound(p.params + p.dcls, args + InitialValues(p.dcls)), heap, [], world)
  }

  lemma ScopeIsSound(p: Procedure)
    requires DistinctIds(p.params + p.dcls)
    ensures SoundScope(ScopeOf(p))
  {
    var ds := p.params + p.dcls;
    TableOfDistinct(ds);
    forall x, y | x in TableOf(ds) && y in TableOf(ds) && TableOf(ds)[x] == TableOf(ds)[y]
      ensures x == y
    {
      var i :| 0 <= i < |ds| && ds[i].id == x;
      var j :| 0 <= j < |ds| && ds[j].id == y;
    }
  }

  /** After the entry code, slot j holds value j. */
  ghost predicate Initialised(st: State, vals: seq<Value>) {
    forall j: nat :: j < |vals| ==>
      (0, j) in st.regs && st.regs[(0, j)] == SlotV(j) && j in st.slots && st.slots[j] == vals[j]
  }

  /** Declaration i has slot i and its own type, and there are no other names. */
  ghost predicate Numbered(c: Scope, ds: seq<Dcl>) {
    && (forall i :: 0 <= i < |ds| ==> HasNumber(c, ds[i], i))
    && (forall x :: x in c.table ==> exists i: nat :: i < |ds| && ds[i].id == x)
  }

  predicate HasNumber(c: Scope, d: Dcl, i: nat) {
    d.id in c.table && c.table[d.id] == Reg(0, i) && d.id in c.env && c.env[d.id] == d.dclType
  }

  lemma ScopeIsNumbered(p: Procedure)
    requires DistinctIds(p.params + p.dcls)
    ensures Numbered(ScopeOf(p), p.params + p.dcls)
  {
    TableOfDistinct(p.params + p.dcls);
  }

  lemma SlotsAreReady(c: Scope, xs: seq<Dcl>, ys: seq<Dcl>, st: State, st': State)
    requires Numbered(c, xs + ys) && Allocated(st, st', |xs + ys|)
    ensures InSlots(c, xs, 0, st') && InSlots(c, ys, |xs|, st')
  {
    forall j | 0 <= j < |xs| + |ys|
      ensures InSlot(c, (xs + ys)[j].id, j, st')
    {
      assert HasNumber(c, (xs + ys)[j], j);
    }
    assert forall j :: 0 <= j < |xs| ==> xs[j] == (xs + ys)[j];
    assert forall j :: 0 <= j < |ys| ==> ys[j] == (xs + ys)[|xs| + j];
  }

  lemma AllocatedKeeps(st: State, st': State, n: nat)
    requires Allocated(st, st', n)
    ensures st'.args == st.args
  {
  }

  lemma StoredKeeps(st: State, st': State, base: nat, vals: seq<Value>)
    requires Stored(st, st', base, vals)
    ensures st'.regs == st.regs && st'.slots.Keys == st.slots.Keys
  {
  }

  lemma InSlotsPersists(c: Scope, ds: seq<Dcl>, base: nat, st: State, st': State)
    requires InSlots(c, ds, base, st) && st'.regs == st.regs && st'.slots.Keys == st.slots.Keys
    ensures InSlots(c, ds, base, st')
  {
  }

  /** Two runs of stores, one after the other. */
  lemma StoredInOrder(st: State, st1: State, st2: State, xs: seq<Value>, ys: seq<Value>)
    requires Stored(st, st1, 0, xs) && Stored(st1, st2, |xs|, ys)
    ensures Stored(st, st2, 0, xs + ys)
  {
  }

  lemma StoredInitialises(st: State, st1: State, st2: State, vals: seq<Value>)
    requires Allocated(st, st1, |vals|) && Stored(st1, st2, 0, vals)
    ensures st2.heap == st.heap && st2.out == st.out && st2.world == st.world && Initialised(st2, vals)
  {
  }

  /** The stores of parameters and declarations, in a state with the slots set up. */
  lemma StoresRun(c: Scope, p: Procedure, at: nat, st: State)
    requires InSlots(c, p.params, 0, st) && InSlots(c, p.dcls, |p.params|, st)
    requires HasInitialValues(p) && |st.args| == |p.params|
    ensures var end := ExecSeq(ParamStores(c, p.params) + DclStores(c, p.dcls), 0, at, st);
            end.Some? && Stored(st, end.value, 0, st.args + InitialValues(p.dcls))
  {
    hide InSlots, InitialValues, ParamStores, DclStores, Stored, ExecSeq;
    var y, z := ParamStores(c, p.params), DclStores(c, p.dcls);
    ParamStoresRun(c, p.params, at, st);
    var st2 := ExecSeq(y, 0, at, st).value;
    StoredKeeps(st, st2, 0, st.args);
    InSlotsPersists(c, p.dcls, |p.params|, st, st2);
    DclStoresRun(c, p.dcls, |p.params|, at + |y|, st2);
    ExecAppend(y, z, 0, at, st);
    StoredInOrder(st, st2, ExecSeq(z, 0, at + |y|, st2).value, st.args, InitialValues(p.dcls));
  }

  lemma EntryInitialises(world: World, c: Scope, p: Procedure, args: seq<Value>, heap: Heap)
    requires Numbered(c, p.params + p.dcls) && HasInitialValues(p) && |args| == |p.params|
    ensures var end := ExecSeq(EntryCode(c, p), 0, 0, Start(world, args, heap));
            end.Some? && end.value.heap == heap && end.value.out == [] && end.value.world == world &&
            Initialised(end.value, args + InitialValues(p.dcls))
  {
    hide InSlots, InitialValues, AllocaCode, ParamStores, DclStores, Allocated, Stored, Initialised, Numbered, ExecSeq;
    var ds, st := p.params + p.dcls, Start(world, args, heap);
    var x, y := AllocaCode(ds), ParamStores(c, p.params) + DclStores(c, p.dcls);
    AllocasRun(ds, st);
    var st1 := ExecSeq(x, 0, 0, st).value;
    SlotsAreReady(c, p.params, p.dcls, st, st1);
    AllocatedKeeps(st, st1, |ds|);
    StoresRun(c, p, |x|, st1);
    ExecAppend(x, y, 0, 0, st);
    assert EntryCode(c, p) == x + y;
    StoredInitialises(st, st1, ExecSeq(y, 0, |x|, st1).value, args + InitialValues(p.dcls));
  }

  /** The i-th name starts with the i-th value. */
  lemma NameStarts(c: Scope, ds: seq<Dcl>, vals: seq<Value>, st: State, i: nat)
    requires Numbered(c, ds) && DistinctIds(ds) && |vals| == |ds| && i < |ds|
    requires HasKind(vals[i], ds[i].dclType) && Initialised(st, vals)
    ensures var x, vars := ds[i].id, Bound(ds, vals);
            x in c.table && x in c.env && x in vars && Holds(c, vars, st, x) && HasKind(vars[x], c.env[x])
  {
    BoundDistinct(ds, vals);
    assert HasNumber(c, ds[i], i);
  }

  lemma ValuesFit(p: Procedure, args: seq<Value>, i: nat)
    requires ArgumentsFit(p, args) && i < |p.params + p.dcls| && (p.params + p.dcls)[i].dclType != Invalid
    ensures HasKind((args + InitialValues(p.dcls))[i], (p.params + p.dcls)[i].dclType)
  {
  }

  lemma InitialIsRelated(world: World, c: Scope, p: Procedure, args: seq<Value>, heap: Heap, st: State)
    requires c == ScopeOf(p) && DistinctIds(p.params + p.dcls) && ArgumentsFit(p, args)
    requires forall i :: 0 <= i < |p.params + p.dcls| ==> (p.params + p.dcls)[i].dclType != Invalid
    requires st.heap == heap && st.out == [] && st.world == world && Initialised(st, args + InitialValues(p.dcls))
    ensures Related(c, InitialMemory(world, p, args, heap), st)
  {
    hide Initialised, TableOf, EnvOf, Bound, InitialValues, DistinctIds, Holds;
    var ds, vals := p.params + p.dcls, args + InitialValues(p.dcls);
    ScopeIsNumbered(p);
    BoundDistinct(ds, vals);
    forall x | x in c.table
      ensures Holds(c, Bound(ds, vals), st, x) && HasKind(Bound(ds, vals)[x], c.env[x])
    {
      var i: nat :| i < |ds| && ds[i].id == x;
      ValuesFit(p, args, i);
      NameStarts(c, ds, vals, st, i);
    }
    TableOfDistinct(ds);
  }

  /** The entry block leaves the machine in the state the source starts from. */
  lemma EntryRuns(world: World, p: Procedure, args: seq<Value>, heap: Heap)
    requires IsSound(p) && ArgumentsFit(p, args)
    ensures var end := ExecSeq(EntryCode(ScopeOf(p), p), 0, 0, Start(world, args, heap));
            end.Some? && Related(ScopeOf(p), InitialMemory(world, p, args, heap), end.value)
  {
    hide EntryCode, Related, Initialised, Numbered;
    ScopeIsNumbered(p);
    EntryInitialises(world, ScopeOf(p), p, args, heap);
    var st := ExecSeq(EntryCode(ScopeOf(p), p), 0, 0, Start(world, args, heap)).value;
    InitialIsRelated(world, ScopeOf(p), p, args, heap, st);
  }

  /** The machine's configuration for an outcome. */
  function Halt(o: Outcome): Config
    requires o != Unfinished
  {
    if o.Finished? then Returned(o.val, o.heap, o.out) else Trapped
  }

  /** The return block gives the value of the result expression. */
  lemma ReturnSteps(c: Scope, g: Graph, e: Expr, r: nat, mem: Memory, st: State)
    requires SoundScope(c) && Related(c, mem, st) && r != 0 && ExprHasType(c.env, e, Int) && PlainExpr(c.env, e)
    requires var code := ExprCode(c, e, r, 0); IsBlock(g, r, code.instrs, Ret(code.result))
    ensures var end := Steps(g, At(r, st), 1);
            match EvalExpr(e, mem)
            case None => end == Trapped
            case Some((v, mem')) => end == Returned(v, mem'.heap, mem'.out)
  {
    hide SoundScope, ExprCode, EvalExpr, ExprHasType, PlainExpr;
    ExprRuns(c, e, Int, r, 0, mem, st);
    OneStep(g, r, st);
  }

  /** For every budget: the outcome within it, or a run at least that long. */
  lemma ProcedureRuns(world: World, g: Graph, p: Procedure, r: nat, args: seq<Value>, heap: Heap, fuel: nat)
      returns (k: nat)
    requires IsSound(p) && ArgumentsFit(p, args) && ProcedureAt(ScopeOf(p), g, p, r)
    ensures var end := Steps(g, At(0, Start(world, args, heap)), k);
            var o := RunProcedure(world, fuel, p, args, heap);
            if o == Unfinished then end.At? && k >= fuel else end == Halt(o)
  {
    hide Related, SoundScope, ExprCode, EvalExpr, ExprHasType, PlainExpr, BodyAt, ExecAll, EntryCode, StatementIsTyped,
         PlainStatement;
    var c, st, mem := ScopeOf(p), Start(world, args, heap), InitialMemory(world, p, args, heap);
    var n: nat :| IsBlock(g, 0, EntryCode(c, p), Br(n)) && BodyAt(c, g, p.stmts, n, r);
    ScopeIsSound(p);
    EntryRuns(world, p, args, heap);
    OneStep(g, 0, st);
    var st1 := Steps(g, At(0, st), 1).st;
    var j := BodyRuns(c, g, p.stmts, n, r, fuel, mem, st1);
    var result := ExecAll(fuel, p.stmts, mem);
    FollowsOn(c, g, 0, st, 1, n, st1, j, r, result, fuel, fuel);
    k := 1 + j;
    if result.Done? {
      var st2 := Steps(g, At(0, st), k).st;
      ReturnSteps(c, g, p.ret, r, result.store, st2);
      StepsCompose(g, At(0, st), k, 1);
      k := k + 1;
    }
  }

  /** Halted configurations do not change. */
  lemma HaltedStays(g: Graph, c: Config, j: nat, k: nat)
    requires Halted(Steps(g, c, j)) && j <= k
    ensures Steps(g, c, k) == Steps(g, c, j)
  {
    StepsCompose(g, c, j, k - j);
  }

  /** Meaning preservation: the source halts with an outcome within some budget if and only if the blocks, run from
      the entry, halt with the same value, heap and output, or both end in an error. */
  lemma ProcedureIsCorrect(world: World, g: Graph, p: Procedure, r: nat, args: seq<Value>, heap: Heap, o: Outcome)
    requires IsSound(p) && ArgumentsFit(p, args) && ProcedureAt(ScopeOf(p), g, p, r) && o != Unfinished
    ensures (exists fuel: nat :: RunProcedure(world, fuel, p, args, heap) == o) <==>
            (exists k: nat :: Steps(g, At(0, Start(world, args, heap)), k) == Halt(o))
  {
    var c := At(0, Start(world, args, heap));
    if fuel: nat :| RunProcedure(world, fuel, p, args, heap) == o {
      var k := ProcedureRuns(world, g, p, r, args, heap, fuel);
    }
    if k: nat :| Steps(g, c, k) == Halt(o) {
      var j := ProcedureRuns(world, g, p, r, args, heap, k);
      var o' := RunProcedure(world, k, p, args, heap);
      HaltedStays(g, c, k, if j < k then k else j);
      if o' != Unfinished {
        HaltedStays(g, c, j, if j < k then k else j);
        assert Halt(o') == Halt(o);
      }
    }
  }

  /** The source runs on under every budget if and only if the blocks never halt. */
  lemma DivergenceIsPreserved(world: World, g: Graph, p: Procedure, r: nat, args: seq<Value>, heap: Heap)
    requires IsSound(p) && ArgumentsFit(p, args) && ProcedureAt(ScopeOf(p), g, p, r)
    ensures (forall fuel: nat :: RunProcedure(world, fuel, p, args, heap) == Unfinished) <==>
            (forall k: nat :: !Halted(Steps(g, At(0, Start(world, args, heap)), k)))
  {
    var c := At(0, Start(world, args, heap));
    if fuel: nat :| RunProcedure(world, fuel, p, args, heap) != Unfinished {
      var k := ProcedureRuns(world, g, p, r, args, heap, fuel);
      assert Halted(Steps(g, c, k));
    }
    if k: nat :| Halted(Steps(g, c, k)) {
      var j := ProcedureRuns(world, g, p, r, args, heap, k);
      HaltedStays(g, c, k, if j < k then k else j);
      assert RunProcedure(world, k, p, args, heap) != Unfinished;
    }
  }
}
