/** The code of a whole procedure: slots and initial stores in the entry block, the statements, and the return block. */
module Procedures {
  import opened Options
  import opened Numerals
  import opened Symbols
  import opened Ast
  import opened Types
  import opened Machine
  import opened Lowering
  import opened Flow

  /** The n-th declaration is stored in the slot set up by instruction n of the entry block. */
  function TableOf(ds: seq<Dcl>): map<string, Operand> {
    if ds == [] then map[] else TableOf(ds[..|ds| - 1])[ds[|ds| - 1].id := Reg(0, |ds| - 1)]
  }

  function EnvOf(ds: seq<Dcl>): TypeEnv {
    if ds == [] then map[] else EnvOf(ds[..|ds| - 1])[ds[|ds| - 1].id := ds[|ds| - 1].dclType]
  }

  predicate DistinctIds(ds: seq<Dcl>) {
    forall i, j :: 0 <= i < j < |ds| ==> ds[i].id != ds[j].id
  }

  predicate HasInitialValue(d: Dcl) {
    d.dclType == Int ==> Stoi(d.value).Some?
  }

  function InitialOperand(d: Dcl): Operand
    requires HasInitialValue(d)
  {
    if d.dclType == Int then ConstInt(Stoi(d.value).value) else ConstNull
  }

  function AllocaCode(ds: seq<Dcl>): seq<Instr> {
    if ds == [] then [] else AllocaCode(ds[..|ds| - 1]) + [Alloca(ds[|ds| - 1].dclType)]
  }

  function ParamStores(c: Scope, ds: seq<Dcl>): seq<Instr> {
    if ds == [] then []
    else ParamStores(c, ds[..|ds| - 1]) + [Store(Arg(|ds| - 1), Lookup(c, ds[|ds| - 1].id))]
  }

  function DclStores(c: Scope, ds: seq<Dcl>): seq<Instr>
    requires forall i :: 0 <= i < |ds| ==> HasInitialValue(ds[i])
  {
    if ds == [] then []
    else DclStores(c, ds[..|ds| - 1]) + [Store(InitialOperand(ds[|ds| - 1]), Lookup(c, ds[|ds| - 1].id))]
  }

  predicate HasInitialValues(p: Procedure) {
    forall i :: 0 <= i < |p.dcls| ==> HasInitialValue(p.dcls[i])
  }

  function EntryCode(c: Scope, p: Procedure): seq<Instr>
    requires HasInitialValues(p)
  {
    AllocaCode(p.params + p.dcls) + ParamStores(c, p.params) + DclStores(c, p.dcls)
  }

  /** The blocks of g are the code of p, with the return in block r. */
  ghost predicate ProcedureAt(c: Scope, g: Graph, p: Procedure, r: nat) {
    && HasInitialValues(p)
    && r != 0
    && IsBlock(g, r, ExprCode(c, p.ret, r, 0).instrs, Ret(ExprCode(c, p.ret, r, 0).result))
    && exists n: nat :: IsBlock(g, 0, EntryCode(c, p), Br(n)) && BodyAt(c, g, p.stmts, n, r)
  }

  /** One return block; every other block jumps inside the graph and lies on a way from the entry to the return;
      operands are defined before they are used. */
  ghost predicate IsWellFormed(c: Scope, g: Graph, r: nat) {
    && r < |g|
    && g[r].term.Ret?
    && UsesAreDefined(c, r, [], g[r].instrs)
    && Usable(c, g[r].term.val, r, g[r].instrs, |g[r].instrs|)
    && (forall b :: 0 <= b < |g| && b != r ==> IsFinished(c, g, b))
    && Spans(g, 0, r, 0, |g|)
  }

  /** Every name is stored in a slot that the entry block sets up before its first store. */
  ghost predicate SlotsAreAllocated(c: Scope, g: Graph) {
    forall x :: x in c.table ==>
      var o := c.table[x];
      && o.Reg? && o.block == 0 && 0 < |g| && o.index < |g[0].instrs|
      && g[0].instrs[o.index].Alloca?
      && forall i :: 0 <= i <= o.index ==> g[0].instrs[i].Alloca?
  }

  lemma {:induction false} AllocaCodeIsAllocas(ds: seq<Dcl>)
    ensures |AllocaCode(ds)| == |ds|
    ensures forall i :: 0 <= i < |ds| ==> AllocaCode(ds)[i] == Alloca(ds[i].dclType)
  {
    if ds != [] {
      AllocaCodeIsAllocas(ds[..|ds| - 1]);
    }
  }

  lemma {:induction false} TableKeys(ds: seq<Dcl>)
    ensures forall x :: x in TableOf(ds) <==> exists i :: 0 <= i < |ds| && ds[i].id == x
    ensures forall x :: x in EnvOf(ds) <==> x in TableOf(ds)
  {
    if ds != [] {
      var front := ds[..|ds| - 1];
      TableKeys(front);
      forall x
        ensures x in TableOf(ds) <==> exists i :: 0 <= i < |ds| && ds[i].id == x
      {
        if i :| 0 <= i < |ds| && ds[i].id == x && i < |front| {
          assert front[i].id == x;
        }
      }
    }
  }

  lemma {:induction false} TableSlots(ds: seq<Dcl>)
    ensures forall x :: x in TableOf(ds) ==>
              TableOf(ds)[x].Reg? && TableOf(ds)[x].block == 0 && TableOf(ds)[x].index < |ds|
  {
    if ds != [] {
      TableSlots(ds[..|ds| - 1]);
    }
  }

  lemma {:induction false} TableValues(ds: seq<Dcl>)
    requires DistinctIds(ds)
    ensures forall i :: 0 <= i < |ds| ==> ds[i].id in TableOf(ds) && TableOf(ds)[ds[i].id] == Reg(0, i)
    ensures forall i :: 0 <= i < |ds| ==> ds[i].id in EnvOf(ds) && EnvOf(ds)[ds[i].id] == ds[i].dclType
  {
    if ds != [] {
      TableValues(ds[..|ds| - 1]);
    }
  }

  /** With distinct names, declaration i has slot i and its own type. */
  lemma TableOfDistinct(ds: seq<Dcl>)
    ensures forall x :: x in TableOf(ds) <==> exists i :: 0 <= i < |ds| && ds[i].id == x
    ensures forall x :: x in EnvOf(ds) <==> x in TableOf(ds)
    ensures forall x :: x in TableOf(ds) ==>
              TableOf(ds)[x].Reg? && TableOf(ds)[x].block == 0 && TableOf(ds)[x].index < |ds|
    ensures DistinctIds(ds) ==>
              forall i :: 0 <= i < |ds| ==> TableOf(ds)[ds[i].id] == Reg(0, i) && EnvOf(ds)[ds[i].id] == ds[i].dclType
  {
    hide TableOf, EnvOf, DistinctIds;
    TableKeys(ds);
    TableSlots(ds);
    if DistinctIds(ds) {
      TableValues(ds);
    }
  }

  /** Every operand of the code is a constant, an argument or the slot of a name. */
  ghost predicate UsesOnlySlots(c: Scope, code: seq<Instr>) {
    forall i, k :: 0 <= i < |code| && 0 <= k < |Operands(code[i])| ==>
                     Operands(code[i])[k].Reg? ==> Operands(code[i])[k] in c.table.Values
  }

  lemma {:induction false} ParamStoresUseSlots(c: Scope, ds: seq<Dcl>)
    ensures UsesOnlySlots(c, ParamStores(c, ds))
  {
    if ds != [] {
      ParamStoresUseSlots(c, ds[..|ds| - 1]);
    }
  }

  lemma {:induction false} DclStoresUseSlots(c: Scope, ds: seq<Dcl>)
    requires forall i :: 0 <= i < |ds| ==> HasInitialValue(ds[i])
    ensures UsesOnlySlots(c, DclStores(c, ds))
  {
    if ds != [] {
      DclStoresUseSlots(c, ds[..|ds| - 1]);
    }
  }

  lemma EntryIsDefined(c: Scope, p: Procedure)
    requires HasInitialValues(p)
    ensures UsesAreDefined(c, 0, [], EntryCode(c, p))
  {
    AllocaCodeIsAllocas(p.params + p.dcls);
    ParamStoresUseSlots(c, p.params);
    DclStoresUseSlots(c, p.dcls);
    assert UsesOnlySlots(c, EntryCode(c, p));
  }

  lemma EntryAllocates(c: Scope, g: Graph, p: Procedure, r: nat)
    requires c.table == TableOf(p.params + p.dcls) && ProcedureAt(c, g, p, r)
    ensures SlotsAreAllocated(c, g)
  {
    hide TableOf, AllocaCode, ParamStores, DclStores, BodyAt, HasInitialValues;
    var ds := p.params + p.dcls;
    TableSlots(ds);
    AllocaCodeIsAllocas(ds);
    var n: nat :| IsBlock(g, 0, EntryCode(c, p), Br(n)) && BodyAt(c, g, p.stmts, n, r);
    assert forall i :: 0 <= i < |ds| ==> g[0].instrs[i] == AllocaCode(ds)[i];
  }
}
