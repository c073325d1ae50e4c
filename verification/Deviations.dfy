/** Exactly when the generated code computes what the operators of the language say. */
module Deviations {
  import opened Options
  import opened Numerals
  import opened Ast
  import opened Yields
  import opened Procedures
  import opened Programs
  import opened Types
  import opened Machine
  import opened Semantics
  import opened Lowering
  import opened Simulation
  import opened Laws

  /** The size in bytes is computed in 32 bits and read as unsigned: an array has as many elements as the wanted number
      modulo 2^30, which is that number if and only if it is at least 0 and below 2^30. */
  lemma ArraysHaveTheirSize(n: int)
    requires InRange(n)
    ensures ArrayWords(n) == n % 0x4000_0000
    ensures ArrayWords(n) == n <==> 0 <= n < 0x4000_0000
  {
    hide Wrap;
    WrapIsCongruent(4 * n);
    SameResidue(Wrap(4 * n), 4 * n);
    FourTimes(n);
  }

  lemma SameResidue(x: int, y: int)
    requires IsCongruent(x, y)
    ensures x % 0x1_0000_0000 == y % 0x1_0000_0000
  {
  }

  lemma FourTimes(n: int)
    ensures (4 * n) % 0x1_0000_0000 == 4 * (n % 0x4000_0000)
  {
  }

  /** A pointer is moved back by adding the 32-bit negation: right for every number but the smallest, for which the
      pointer moves back as well when it should move forward. */
  lemma PointersMoveBack(p: Value, n: int)
    requires p.PtrV? && InRange(n)
    ensures SubtractValues(p, IntV(n)).value == Displace(p, -n) <==> n != MIN_INT
    ensures SubtractValues(p, IntV(n)) == Some(PtrV(p.block, p.offset - if n == MIN_INT then -n else n))
  {
  }

  /** The expression that has the value of the lvalue. */
  function ValueOf(l: Lvalue): Factor {
    match l
    case Var(name) => Id(name)
    case Target(pointer) => Deref(pointer)
    case Enclosed(inner) => ValueOf(inner)
  }

  lemma {:induction false} LoadedCode(c: Scope, l: Lvalue, b: nat, at: nat)
    ensures FactorCode(c, AddressOf(l), b, at) == FactorCode(c, ValueOf(l), b, at)
    ensures LvalueHasType(c.env, l, Int) && PlainLvalue(c.env, l) ==>
              FactorHasType(c.env, ValueOf(l), Int) && PlainFactor(c.env, ValueOf(l))
  {
    match l
    case Var(x) =>
      var v := LvalueCode(c, l, b, at);
      assert v.instrs + [Load(v.result)] == [Load(Lookup(c, x))];
    case Target(p) =>
      assert LvalueCode(c, l, b, at) == FactorCode(c, p, b, at);
    case Enclosed(inner) =>
      LoadedCode(c, inner, b, at);
  }

  /** The code for the address of any lvalue that holds an int, which should give a pointer, computes the value of the
      lvalue: where it does not fail it ends with an int, never with an address. */
  lemma AddressIsLoaded(c: Scope, l: Lvalue, b: nat, at: nat, s: Memory, st: State)
    requires SoundScope(c) && Related(c, s, st) && b != 0
    requires LvalueHasType(c.env, l, Int) && PlainLvalue(c.env, l)
    ensures FactorHasType(c.env, AddressOf(l), IntStar)
    ensures Computes(c, FactorCode(c, AddressOf(l), b, at), b, at, s, EvalFactor(ValueOf(l), s), Int, st)
    ensures var code := FactorCode(c, AddressOf(l), b, at); var end := ExecSeq(code.instrs, b, at, st);
            end.Some? ==> Read(end.value, code.result).Some? && Read(end.value, code.result).value.IntV?
  {
    LoadedCode(c, l, b, at);
    FactorRuns(c, ValueOf(l), Int, b, at, s, st);
    hide Related, FactorCode, ExecSeq, EvalFactor, Framed;
  }

  /** The quotient of two addresses, if there is one. */
  function AddressQuotient(world: World, p: Value, q: Value): Option<Value> {
    ArithValues(SDiv, IntV(Wrap(world.address(p))), IntV(Wrap(world.address(q))))
  }

  function DifferenceCode(v: Operand, w: Operand, b: nat, at: nat): Code {
    Code([PtrToInt(w), PtrToInt(v), Bin(SDiv, Reg(b, at + 1), Reg(b, at))], Reg(b, at + 2))
  }

  lemma AddressRuns(c: Scope, o: Operand, p: Value, b: nat, at: nat, s: Memory, st: State)
    requires SoundScope(c) && Related(c, s, st) && b != 0 && p.PtrV? && Read(st, o) == Some(p)
    ensures var x := IntV(Wrap(s.world.address(p)));
            && Computes(c, Code([PtrToInt(o)], Reg(b, at)), b, at, s, Some((x, s)), Int, st)
            && ExecSeq([PtrToInt(o)], b, at, st) == Some(Set(st, b, at, x))
  {
    ExecOne(PtrToInt(o), b, at, st);
    OneSets(c, PtrToInt(o), b, at, s, IntV(Wrap(s.world.address(p))), Int, st);
  }

  /** Both pointers known: their addresses are divided, the left operand's by the right one's. */
  lemma DifferenceRuns(c: Scope, v: Operand, w: Operand, p: Value, q: Value, b: nat, at: nat, s: Memory, st: State)
    requires SoundScope(c) && Related(c, s, st) && b != 0
    requires OperandsReady(st, v, w, p, q, b, at) && p.PtrV? && q.PtrV?
    ensures var r := AddressQuotient(s.world, p, q);
            Computes(c, DifferenceCode(v, w, b, at), b, at, s, if r.Some? then Some((r.value, s)) else None, Int, st)
  {
    hide Related, SoundScope, Computes, Wrap, HasKind;
    var y := IntV(Wrap(s.world.address(q)));
    var r := AddressQuotient(s.world, p, q);
    var result := if r.Some? then Some((r.value, s)) else None;
    var st1 := Set(st, b, at, y);
    AddressRuns(c, w, q, b, at, s, st);
    SetKeeps(c, s, st, b, at, y);
    ReadFramed(st, st1, b, at, v, p);
    SecondAddressRuns(c, v, p, q, b, at, s, st1);
    var div := Bin(SDiv, Reg(b, at + 1), Reg(b, at));
    TailRuns(c, [PtrToInt(w)], Code([PtrToInt(v), div], Reg(b, at + 2)), b, at, s, s, result, Int, st, st1);
    assert [PtrToInt(w)] + [PtrToInt(v), div] == DifferenceCode(v, w, b, at).instrs;
  }

  /** The second address, and the division by the first. */
  lemma SecondAddressRuns(c: Scope, v: Operand, p: Value, q: Value, b: nat, at: nat, s: Memory, st: State)
    requires SoundScope(c) && Related(c, s, st) && b != 0 && p.PtrV?
    requires Read(st, v) == Some(p) && Read(st, Reg(b, at)) == Some(IntV(Wrap(s.world.address(q))))
    ensures var r := AddressQuotient(s.world, p, q);
            Computes(c, Code([PtrToInt(v), Bin(SDiv, Reg(b, at + 1), Reg(b, at))], Reg(b, at + 2)), b, at + 1, s,
                     if r.Some? then Some((r.value, s)) else None, Int, st)
  {
    hide Related, SoundScope, Computes, Wrap, HasKind;
    var x, y := IntV(Wrap(s.world.address(p))), IntV(Wrap(s.world.address(q)));
    var r := AddressQuotient(s.world, p, q);
    var st1, div := Set(st, b, at + 1, x), Bin(SDiv, Reg(b, at + 1), Reg(b, at));
    AddressRuns(c, v, p, b, at + 1, s, st);
    SetKeeps(c, s, st, b, at + 1, x);
    ProductRuns(c, SDiv, Reg(b, at + 1), Reg(b, at), x, y, b, at + 2, s, st1);
    TailRuns(c, [PtrToInt(v)], Code([div], Reg(b, at + 2)), b, at + 1, s, s,
             if r.Some? then Some((r.value, s)) else None, Int, st, st1);
    assert [PtrToInt(v)] + [div] == [PtrToInt(v), div];
  }

  lemma CodeOfDifference(c: Scope, l: Expr, t: Term, b: nat, at: nat)
    requires ExprHasType(c.env, l, IntStar) && TermHasType(c.env, t, IntStar)
    ensures var x := TermCode(c, t, b, at);
            var y := ExprCode(c, l, b, at + |x.instrs|);
            var z := DifferenceCode(y.result, x.result, b, at + |x.instrs| + |y.instrs|);
            ExprCode(c, Minus(l, t), b, at) == Code(x.instrs + y.instrs + z.instrs, z.result)
  {
    TermTypeIsUnique(c.env, t, IntStar);
    ExprTypeIsUnique(c.env, l, IntStar);
    TypeOfDifference(c.env, l, t);
    hide TermCode, TermType, TermHasType, ExprType, ExprHasType;
    var x := TermCode(c, t, b, at);
    var y := ExprCode(c, l, b, at + |x.instrs|);
    var k := at + |x.instrs| + |y.instrs|;
    assert SumCode(c, Minus(l, t), y.result, x.result, b, k) == DifferenceCode(y.result, x.result, b, k);
  }

  lemma TypeOfDifference(env: TypeEnv, l: Expr, t: Term)
    requires ExprType(env, l) == IntStar && TermType(env, t) == IntStar
    ensures ExprType(env, Minus(l, t)) == Int
  {
    hide TermType;
  }

  /** The code of the difference of two pointers gives, rounded toward zero, the quotient of the address of the left one
      by that of the right one, and fails exactly where there is none. */
  lemma DifferenceIsQuotient(c: Scope, l: Expr, t: Term, b: nat, at: nat, s: Memory, s1: Memory, s2: Memory, p: Value,
                             q: Value, st: State)
    requires SoundScope(c) && Related(c, s, st) && b != 0
    requires ExprHasType(c.env, l, IntStar) && PlainExpr(c.env, l)
    requires TermHasType(c.env, t, IntStar) && PlainTerm(c.env, t)
    requires EvalTerm(t, s) == Some((q, s1)) && EvalExpr(l, s1) == Some((p, s2))
    ensures var x, y := Wrap(s2.world.address(p)), Wrap(s2.world.address(q));
            var code := ExprCode(c, Minus(l, t), b, at);
            var end := ExecSeq(code.instrs, b, at, st);
            && (end.None? <==> HasNoQuotient(x, y))
            && (end.Some? ==>
                  && Related(c, s2, end.value)
                  && exists n, r :: IsDivision(x, y, n, r) && Read(end.value, code.result) == Some(IntV(n)))
  {
    hide SoundScope, Related, EvalTerm, EvalExpr, TermCode, ExprCode, PlainExpr, PlainTerm, IsDivision, HasNoQuotient,
         Wrap, DifferenceCode, Arith, ExecSeq, ExprHasType, TermHasType, OperandsReady, Framed;
    CodeOfDifference(c, l, t, b, at);
    var r := DifferenceComputes(c, l, t, b, at, s, s1, s2, p, q, st);
    ArithIsDivision(Wrap(s2.world.address(p)), Wrap(s2.world.address(q)));
  }

  lemma DifferenceComputes(c: Scope, l: Expr, t: Term, b: nat, at: nat, s: Memory, s1: Memory, s2: Memory, p: Value,
                           q: Value, st: State) returns (r: Option<(Value, Memory)>)
    requires SoundScope(c) && Related(c, s, st) && b != 0
    requires ExprHasType(c.env, l, IntStar) && PlainExpr(c.env, l)
    requires TermHasType(c.env, t, IntStar) && PlainTerm(c.env, t)
    requires EvalTerm(t, s) == Some((q, s1)) && EvalExpr(l, s1) == Some((p, s2))
    ensures var v := AddressQuotient(s2.world, p, q); r == if v.Some? then Some((v.value, s2)) else None
    ensures Computes(c, ExprCode(c, Minus(l, t), b, at), b, at, s, r, Int, st)
  {
    hide SoundScope, Related, EvalTerm, EvalExpr, TermCode, PlainExpr, PlainTerm, AddressQuotient, DifferenceCode,
         ExprHasType, TermHasType, ExecSeq, Computes, OperandsReady, HasKind;
    var v := AddressQuotient(s2.world, p, q);
    r := if v.Some? then Some((v.value, s2)) else None;
    CodeOfDifference(c, l, t, b, at);
    var x := TermCode(c, t, b, at);
    var k1 := at + |x.instrs|;
    var y := ExprCode(c, l, b, k1);
    var z := DifferenceCode(y.result, x.result, b, k1 + |y.instrs|);
    TermRuns(c, t, IntStar, b, at, s, st);
    var st1 := After(x, b, at, st);
    Computed(c, x, b, at, s, q, s1, IntStar, st);
    ExprRuns(c, l, IntStar, b, k1, s1, st1);
    var st2 := After(y, b, k1, st1);
    Computed(c, y, b, k1, s1, p, s2, IntStar, st1);
    if OperandsReady(st2, y.result, x.result, p, q, b, k1 + |y.instrs|) {
      KindsArePointers(p);
      KindsArePointers(q);
      DifferenceRuns(c, y.result, x.result, p, q, b, k1 + |y.instrs|, s2, st2);
    }
    BinaryRuns(c, x, y, z, b, at, s, Some((q, s1)), IntStar, Some((p, s2)), IntStar, r, Int, st);
  }

  /** If an operand of the difference fails, its code does. */
  lemma DifferenceFails(c: Scope, l: Expr, t: Term, b: nat, at: nat, s: Memory, st: State)
    requires SoundScope(c) && Related(c, s, st) && b != 0
    requires ExprHasType(c.env, l, IntStar) && PlainExpr(c.env, l)
    requires TermHasType(c.env, t, IntStar) && PlainTerm(c.env, t)
    requires EvalTerm(t, s).None? || EvalExpr(l, EvalTerm(t, s).value.1).None?
    ensures ExecSeq(ExprCode(c, Minus(l, t), b, at).instrs, b, at, st).None?
  {
    hide SoundScope, Related, EvalTerm, EvalExpr, TermCode, PlainExpr, PlainTerm, DifferenceCode, ExprHasType,
         TermHasType, ExecSeq, OperandsReady, HasKind, Framed;
    CodeOfDifference(c, l, t, b, at);
    var x := TermCode(c, t, b, at);
    var k1 := at + |x.instrs|;
    var y := ExprCode(c, l, b, k1);
    var z := DifferenceCode(y.result, x.result, b, k1 + |y.instrs|);
    TermRuns(c, t, IntStar, b, at, s, st);
    ExecAppend(x.instrs + y.instrs, z.instrs, b, at, st);
    ExecAppend(x.instrs, y.instrs, b, at, st);
    if EvalTerm(t, s).Some? {
      var (v, s1) := EvalTerm(t, s).value;
      var st1 := After(x, b, at, st);
      Computed(c, x, b, at, s, v, s1, IntStar, st);
      ExprRuns(c, l, IntStar, b, k1, s1, st1);
    }
  }

  lemma KindsArePointers(p: Value)
    requires HasKind(p, IntStar)
    ensures p.PtrV?
  {
  }

  /** An initial value is taken as it is if and only if it is of the declaration's own kind. An int that starts with
      NULL is left without a number, so that no code is generated; a pointer that starts with a number starts with
      NULL. */
  lemma InitialValuesAreTaken(d: Dcl)
    requires d.dclType != Invalid && (StartsNull(d) || Stoi(d.value).Some?)
    ensures AsTaken(d) == d <==> (d.dclType == IntStar <==> StartsNull(d))
    ensures HasInitialValue(AsTaken(d)) <==> !(d.dclType == Int && StartsNull(d))
    ensures d.dclType == IntStar ==> InitialOperand(AsTaken(d)) == ConstNull
  {
    assert !IsDigit("NULL"[0]) && !IsDigit(";"[0]) && !IsDigit("="[0]);
  }
}
