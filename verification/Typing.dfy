/** The types of the generated values: which code is typed as the builder demands, given what each procedure takes. */
module Typing {
  import opened Options
  import opened Symbols
  import opened Ast
  import opened Types
  import opened Machine
  import opened Lowering
  import opened Procedures

  /** One bit, i8*, i32, and the address of a typed place; stores and frees have no value. */
  datatype ValueType = Bit | Bytes | Word | Address(of: ValueType) | Nothing

  function Lowered(t: DclType): ValueType {
    if t == IntStar then Address(Word) else Word
  }

  /** What each procedure takes. */
  type Signatures = map<string, seq<ValueType>>

  /** An operand in block b whose values so far have the types ts; the names ds have their slots in the entry block. */
  function OperandType(ds: seq<Dcl>, o: Operand, b: nat, ts: seq<ValueType>): Option<ValueType> {
    match o
    case ConstInt(_) => Some(Word)
    case ConstNull => Some(Address(Word))
    case Arg(n) => if n < |ds| then Some(Lowered(ds[n].dclType)) else None
    case Reg(m, i) =>
      if m == b then (if i < |ts| then Some(ts[i]) else None)
      else if m == 0 && i < |ds| then Some(Address(Lowered(ds[i].dclType)))
      else None
  }

  function ArgumentTypes(ds: seq<Dcl>, os: seq<Operand>, b: nat, ts: seq<ValueType>): Option<seq<ValueType>> {
    if os == [] then Some([])
    else
      var t :- OperandType(ds, os[0], b, ts);
      var rest :- ArgumentTypes(ds, os[1..], b, ts);
      Some([t] + rest)
  }

  /** The type of the instruction's value, if its operands have the types it demands. */
  function InstrType(sig: Signatures, ds: seq<Dcl>, i: Instr, b: nat, ts: seq<ValueType>): Option<ValueType> {
    match i
    case Alloca(t) => Some(Address(Lowered(t)))
    case Load(a) =>
      var t :- OperandType(ds, a, b, ts);
      if t.Address? then Some(t.of) else None
    case Store(v, a) =>
      var t :- OperandType(ds, v, b, ts);
      var u :- OperandType(ds, a, b, ts);
      if u == Address(t) then Some(Nothing) else None
    case Bin(_, v, w) =>
      var t :- OperandType(ds, v, b, ts);
      var u :- OperandType(ds, w, b, ts);
      if t == u == Word then Some(Word) else None
    case ICmp(_, v, w) =>
      var t :- OperandType(ds, v, b, ts);
      var u :- OperandType(ds, w, b, ts);
      if t == u && (t == Word || t == Address(Word)) then Some(Bit) else None
    case Gep(v, w) =>
      var t :- OperandType(ds, v, b, ts);
      var u :- OperandType(ds, w, b, ts);
      if t == Address(Word) && u == Word then Some(Address(Word)) else None
    case Malloc(v) =>
      var t :- OperandType(ds, v, b, ts);
      if t == Word then Some(Bytes) else None
    case Cast(v) =>
      var t :- OperandType(ds, v, b, ts);
      if t == Bytes then Some(Address(Word)) else if t == Address(Word) then Some(Bytes) else None
    case PtrToInt(v) =>
      var t :- OperandType(ds, v, b, ts);
      if t == Address(Word) then Some(Word) else None
    case Free(v) =>
      var t :- OperandType(ds, v, b, ts);
      if t == Bytes then Some(Nothing) else None
    case Printf(v) =>
      var t :- OperandType(ds, v, b, ts);
      if t == Word then Some(Word) else None
    case Invoke(callee, args) =>
      var types :- ArgumentTypes(ds, args, b, ts);
      if callee in sig && sig[callee] == types then Some(Word) else None
  }

  /** The types of all values after the instructions, if each is typed. */
  function CodeTypes(sig: Signatures, ds: seq<Dcl>, x: seq<Instr>, b: nat, ts: seq<ValueType>)
    : (r: Option<seq<ValueType>>)
    ensures r.Some? ==> |r.value| == |ts| + |x| && ts <= r.value
    decreases |x|
  {
    if x == [] then Some(ts)
    else
      var t :- InstrType(sig, ds, x[0], b, ts);
      CodeTypes(sig, ds, x[1..], b, ts + [t])
  }

  lemma {:induction false} TypesAppend(sig: Signatures, ds: seq<Dcl>, x: seq<Instr>, y: seq<Instr>, b: nat,
                                       ts: seq<ValueType>)
    ensures CodeTypes(sig, ds, x + y, b, ts) ==
            match CodeTypes(sig, ds, x, b, ts)
            case None => None
            case Some(us) => CodeTypes(sig, ds, y, b, us)
    decreases |x|
  {
    hide InstrType;
    if x == [] {
      assert x + y == y;
    } else {
      assert (x + y)[1..] == x[1..] + y;
      var t := InstrType(sig, ds, x[0], b, ts);
      if t.Some? {
        TypesAppend(sig, ds, x[1..], y, b, ts + [t.value]);
      }
    }
  }

  lemma TypeOfOne(sig: Signatures, ds: seq<Dcl>, i: Instr, b: nat, ts: seq<ValueType>)
    ensures CodeTypes(sig, ds, [i], b, ts) ==
            match InstrType(sig, ds, i, b, ts) case None => None case Some(t) => Some(ts + [t])
  {
    hide InstrType;
  }

  lemma TypeStays(ds: seq<Dcl>, o: Operand, b: nat, ts: seq<ValueType>, us: seq<ValueType>)
    requires OperandType(ds, o, b, ts).Some? && ts <= us
    ensures OperandType(ds, o, b, us) == OperandType(ds, o, b, ts)
  {
  }

  // ----- when the code of a tree is typed -----

  /** An address taken, which is in fact loaded. */
  predicate IsAddress(e: Expr) {
    e.JustTerm? && TermIsAddress(e.term)
  }

  predicate TermIsAddress(t: Term) {
    t.JustFactor? && FactorIsAddress(t.factor)
  }

  predicate FactorIsAddress(f: Factor) {
    match f
    case Paren(e) => IsAddress(e)
    case AddressOf(_) => true
    case _ => false
  }

  /** The type of the value generated for a tree of type t. */
  function Generated(t: DclType, isAddress: bool): ValueType {
    if isAddress then Word else Lowered(t)
  }

  /** No address is an operand, and every call has arguments as the callee takes them. */
  predicate ExprFits(sig: Signatures, env: TypeEnv, e: Expr) {
    match e
    case JustTerm(t) => TermFits(sig, env, t)
    case _ => ExprFits(sig, env, e.left) && TermFits(sig, env, e.term) && !IsAddress(e.left) && !TermIsAddress(e.term)
  }

  predicate TermFits(sig: Signatures, env: TypeEnv, t: Term) {
    match t
    case JustFactor(f) => FactorFits(sig, env, f)
    case _ => TermFits(sig, env, t.left) && FactorFits(sig, env, t.factor)
  }

  predicate FactorFits(sig: Signatures, env: TypeEnv, f: Factor) {
    match f
    case Paren(e) => ExprFits(sig, env, e)
    case NewArray(size) => ExprFits(sig, env, size)
    case AddressOf(l) => LvalueFits(sig, env, l) && !IsMisplaced(l)
    case Deref(g) => FactorFits(sig, env, g) && !FactorIsAddress(g)
    case Call(callee, args) => ArgsFit(sig, env, args) && callee in sig && sig[callee] == ArgTypes(env, args)
    case _ => true
  }

  predicate ArgsFit(sig: Signatures, env: TypeEnv, args: Arglist) {
    match args
    case NoArgs => true
    case Args(e, rest) => ExprFits(sig, env, e) && ArgsFit(sig, env, rest)
  }

  function ArgTypes(env: TypeEnv, args: Arglist): seq<ValueType> {
    match args
    case NoArgs => []
    case Args(e, rest) => [Generated(ExprType(env, e), IsAddress(e))] + ArgTypes(env, rest)
  }

  predicate LvalueFits(sig: Signatures, env: TypeEnv, l: Lvalue) {
    match l
    case Var(_) => true
    case Target(f) => FactorFits(sig, env, f)
    case Enclosed(inner) => LvalueFits(sig, env, inner)
  }

  /** The lvalue is what an address that was loaded is said to point to. */
  predicate IsMisplaced(l: Lvalue) {
    match l
    case Var(_) => false
    case Target(f) => FactorIsAddress(f)
    case Enclosed(inner) => IsMisplaced(inner)
  }

  function PlaceType(t: DclType, l: Lvalue): ValueType {
    if IsMisplaced(l) then Word else Address(Lowered(t))
  }

  // ----- the code of every typed tree -----

  /** The names of the scope are those of ds, each in its slot. */
  predicate IsScopeOf(c: Scope, ds: seq<Dcl>) {
    c == Scope(EnvOf(ds), TableOf(ds))
  }

  /** The code is typed exactly if it fits, and its result then has the type t. */
  predicate IsTypedIf(sig: Signatures, ds: seq<Dcl>, code: Code, b: nat, ts: seq<ValueType>, fits: bool, t: ValueType) {
    var r := CodeTypes(sig, ds, code.instrs, b, ts);
    (r.Some? <==> fits) && (fits ==> OperandType(ds, code.result, b, r.value) == Some(t))
  }

  lemma {:induction false} NameIsTyped(ds: seq<Dcl>, name: string, b: nat, ts: seq<ValueType>)
    requires b != 0 && name in EnvOf(ds) && EnvOf(ds)[name] != Invalid
    ensures name in TableOf(ds)
    ensures OperandType(ds, TableOf(ds)[name], b, ts) == Some(Address(Lowered(EnvOf(ds)[name])))
  {
    if ds != [] && ds[|ds| - 1].id != name {
      var front := ds[..|ds| - 1];
      NameIsTyped(front, name, b, ts);
      SlotStays(front, ds, TableOf(front)[name], b, ts);
    }
  }

  /** A slot keeps its type when there are more names. */
  lemma SlotStays(front: seq<Dcl>, ds: seq<Dcl>, o: Operand, b: nat, ts: seq<ValueType>)
    requires front <= ds && OperandType(front, o, b, ts).Some?
    ensures OperandType(ds, o, b, ts) == OperandType(front, o, b, ts)
  {
  }

  /** One more instruction after code that is typed if it fits. */
  lemma OneMoreTyped(sig: Signatures, ds: seq<Dcl>, code: Code, i: Instr, b: nat, ts: seq<ValueType>, fits: bool,
                     t: ValueType, u: Option<ValueType>)
    requires IsTypedIf(sig, ds, code, b, ts, fits, t)
    requires fits ==> InstrType(sig, ds, i, b, CodeTypes(sig, ds, code.instrs, b, ts).value) == u
    ensures var code' := Code(code.instrs + [i], Reg(b, |ts| + |code.instrs|));
            IsTypedIf(sig, ds, code', b, ts, fits && u.Some?, if u.Some? then u.value else Nothing)
  {
    hide InstrType;
    TypesAppend(sig, ds, code.instrs, [i], b, ts);
    if fits {
      TypeOfOne(sig, ds, i, b, CodeTypes(sig, ds, code.instrs, b, ts).value);
    }
  }

  /** Two operands, one after the other: both are typed at the end. */
  lemma BothTyped(sig: Signatures, ds: seq<Dcl>, w: Code, v: Code, b: nat, ts: seq<ValueType>, fw: bool, tw: ValueType,
                  fv: bool, tv: ValueType)
    requires IsTypedIf(sig, ds, w, b, ts, fw, tw)
    requires fw ==> IsTypedIf(sig, ds, v, b, CodeTypes(sig, ds, w.instrs, b, ts).value, fv, tv)
    ensures var r := CodeTypes(sig, ds, w.instrs + v.instrs, b, ts);
            && (r.Some? <==> fw && fv)
            && (fw && fv ==> OperandType(ds, w.result, b, r.value) == Some(tw) &&
                             OperandType(ds, v.result, b, r.value) == Some(tv))
  {
    TypesAppend(sig, ds, w.instrs, v.instrs, b, ts);
    if fw && fv {
      var us := CodeTypes(sig, ds, w.instrs, b, ts).value;
      TypeStays(ds, w.result, b, us, CodeTypes(sig, ds, v.instrs, b, us).value);
    }
  }

  lemma {:induction false} AddressIsPointer(env: TypeEnv, e: Expr, t: DclType)
    requires ExprHasType(env, e, t) && IsAddress(e)
    ensures t == IntStar
    decreases e
  {
    FactorAddressIsPointer(env, e.term.factor, t);
  }

  lemma {:induction false} FactorAddressIsPointer(env: TypeEnv, f: Factor, t: DclType)
    requires FactorHasType(env, f, t) && FactorIsAddress(f)
    ensures t == IntStar
    decreases f
  {
    if f.Paren? {
      AddressIsPointer(env, f.expr, t);
    }
  }

  /** Adding or subtracting two typed operands: none of them may be an address that was loaded. */
  lemma SumTyped(sig: Signatures, c: Scope, ds: seq<Dcl>, e: Expr, t: DclType, tl: DclType, tt: DclType, v: Operand,
                 w: Operand, b: nat, ts: seq<ValueType>)
    requires !e.JustTerm? && ExprHasType(c.env, e, t)
    requires tl == ExprType(c.env, e.left) && tt == TermType(c.env, e.term) && tl != Invalid && tt != Invalid
    requires OperandType(ds, v, b, ts) == Some(Generated(tl, IsAddress(e.left)))
    requires OperandType(ds, w, b, ts) == Some(Generated(tt, TermIsAddress(e.term)))
    requires (IsAddress(e.left) ==> tl == IntStar) && (TermIsAddress(e.term) ==> tt == IntStar)
    ensures IsTypedIf(sig, ds, SumCode(c, e, v, w, b, |ts|), b, ts, !IsAddress(e.left) && !TermIsAddress(e.term),
                      Lowered(t))
  {
    ExprTypeIsUnique(c.env, e, t);
    hide ExprHasType, TermType, IsAddress, TermIsAddress;
    if t == IntStar && e.Minus? {
      var neg, gep := Bin(Sub, ConstInt(0), w), Gep(v, Reg(b, |ts|));
      assert InstrType(sig, ds, neg, b, ts) == Some(Word);
      TwoTypes(sig, ds, neg, gep, b, ts);
      TypeStays(ds, v, b, ts, ts + [Word]);
    } else if t == Int && e.Minus? && tt == IntStar && tl == IntStar {
      DifferenceTyped(sig, ds, v, w, b, ts);
    } else {
      var i := SumCode(c, e, v, w, b, |ts|).instrs[0];
      TypeOfOne(sig, ds, i, b, ts);
    }
  }

  lemma TwoTypes(sig: Signatures, ds: seq<Dcl>, i: Instr, j: Instr, b: nat, ts: seq<ValueType>)
    ensures CodeTypes(sig, ds, [i, j], b, ts) ==
            match InstrType(sig, ds, i, b, ts)
            case None => None
            case Some(t) =>
              match InstrType(sig, ds, j, b, ts + [t]) case None => None case Some(u) => Some(ts + [t] + [u])
  {
    TypesAppend(sig, ds, [i], [j], b, ts);
    assert [i] + [j] == [i, j];
    TypeOfOne(sig, ds, i, b, ts);
    if InstrType(sig, ds, i, b, ts).Some? {
      TypeOfOne(sig, ds, j, b, ts + [InstrType(sig, ds, i, b, ts).value]);
    }
  }

  /** The quotient of two addresses. */
  lemma DifferenceTyped(sig: Signatures, ds: seq<Dcl>, v: Operand, w: Operand, b: nat, ts: seq<ValueType>)
    requires OperandType(ds, v, b, ts).Some? && OperandType(ds, w, b, ts).Some?
    ensures var code := Code([PtrToInt(w), PtrToInt(v), Bin(SDiv, Reg(b, |ts| + 1), Reg(b, |ts|))], Reg(b, |ts| + 2));
            IsTypedIf(sig, ds, code, b, ts,
                      OperandType(ds, v, b, ts).value == OperandType(ds, w, b, ts).value == Address(Word), Word)
  {
    var p, q, d := PtrToInt(w), PtrToInt(v), Bin(SDiv, Reg(b, |ts| + 1), Reg(b, |ts|));
    assert [p, q] + [d] == [p, q, d];
    TypesAppend(sig, ds, [p, q], [d], b, ts);
    TwoTypes(sig, ds, p, q, b, ts);
    TypeStays(ds, v, b, ts, ts + [Word]);
    TypeOfOne(sig, ds, d, b, ts + [Word] + [Word]);
  }

  /** More code after code that is typed if it fits. */
  lemma ThenTyped(sig: Signatures, ds: seq<Dcl>, x: seq<Instr>, code: Code, b: nat, ts: seq<ValueType>, fx: bool,
                  fits: bool, t: ValueType)
    requires CodeTypes(sig, ds, x, b, ts).Some? <==> fx
    requires fx ==> IsTypedIf(sig, ds, code, b, CodeTypes(sig, ds, x, b, ts).value, fits, t)
    ensures IsTypedIf(sig, ds, Code(x + code.instrs, code.result), b, ts, fx && fits, t)
  {
    TypesAppend(sig, ds, x, code.instrs, b, ts);
  }

  lemma {:induction false} ExprIsTyped(sig: Signatures, c: Scope, ds: seq<Dcl>, e: Expr, t: DclType, b: nat,
                                       ts: seq<ValueType>)
    requires IsScopeOf(c, ds) && b != 0 && ExprHasType(c.env, e, t)
    ensures IsTypedIf(sig, ds, ExprCode(c, e, b, |ts|), b, ts, ExprFits(sig, c.env, e), Generated(t, IsAddress(e)))
    decreases e
  {
    hide CodeTypes, OperandType, TermCode, TermHasType, SumCode;
    if e.JustTerm? {
      TermIsTyped(sig, c, ds, e.term, t, b, ts);
    } else {
      var tl, tt := OperandTypes(c.env, e, t);
      var w := TermCode(c, e.term, b, |ts|);
      TermIsTyped(sig, c, ds, e.term, tt, b, ts);
      var r := CodeTypes(sig, ds, w.instrs, b, ts);
      var v := ExprCode(c, e.left, b, |ts| + |w.instrs|);
      if r.Some? {
        ExprIsTyped(sig, c, ds, e.left, tl, b, r.value);
      }
      SumIsTyped(sig, c, ds, e, t, tl, tt, v, w, b, ts);
    }
  }

  lemma SumIsTyped(sig: Signatures, c: Scope, ds: seq<Dcl>, e: Expr, t: DclType, tl: DclType, tt: DclType, v: Code,
                   w: Code, b: nat, ts: seq<ValueType>)
    requires !e.JustTerm? && ExprHasType(c.env, e, t)
    requires ExprHasType(c.env, e.left, tl) && TermHasType(c.env, e.term, tt)
    requires tl == ExprType(c.env, e.left) && tt == TermType(c.env, e.term) && tl != Invalid && tt != Invalid
    requires IsTypedIf(sig, ds, w, b, ts, TermFits(sig, c.env, e.term), Generated(tt, TermIsAddress(e.term)))
    requires var r := CodeTypes(sig, ds, w.instrs, b, ts);
             r.Some? ==> IsTypedIf(sig, ds, v, b, r.value, ExprFits(sig, c.env, e.left),
                                   Generated(tl, IsAddress(e.left)))
    ensures var sum := SumCode(c, e, v.result, w.result, b, |ts| + |w.instrs| + |v.instrs|);
            IsTypedIf(sig, ds, Code(w.instrs + v.instrs + sum.instrs, sum.result), b, ts, ExprFits(sig, c.env, e),
                      Lowered(t))
  {
    hide CodeTypes, OperandType, ExprHasType, TermHasType, SumCode, IsAddress, TermIsAddress, Lowered,
         ExprType, TermType;
    var fw, fv := TermFits(sig, c.env, e.term), ExprFits(sig, c.env, e.left);
    BothTyped(sig, ds, w, v, b, ts, fw, Generated(tt, TermIsAddress(e.term)), fv, Generated(tl, IsAddress(e.left)));
    if IsAddress(e.left) { AddressIsPointer(c.env, e.left, tl); }
    TermAddressIsPointer(c.env, e.term, tt);
    var x := CodeTypes(sig, ds, w.instrs + v.instrs, b, ts);
    var sum := SumCode(c, e, v.result, w.result, b, |ts| + |w.instrs| + |v.instrs|);
    if fw && fv {
      SumTyped(sig, c, ds, e, t, tl, tt, v.result, w.result, b, x.value);
    }
    ThenTyped(sig, ds, w.instrs + v.instrs, sum, b, ts, fw && fv, !IsAddress(e.left) && !TermIsAddress(e.term),
              Lowered(t));
    FitsByParts(sig, c.env, e);
  }

  lemma TermAddressIsPointer(env: TypeEnv, t: Term, ty: DclType)
    requires TermHasType(env, t, ty)
    ensures TermIsAddress(t) ==> ty == IntStar
  {
    if TermIsAddress(t) {
      FactorAddressIsPointer(env, t.factor, ty);
    }
  }

  lemma FitsByParts(sig: Signatures, env: TypeEnv, e: Expr)
    requires !e.JustTerm?
    ensures ExprFits(sig, env, e) <==>
            ExprFits(sig, env, e.left) && TermFits(sig, env, e.term) && !IsAddress(e.left) && !TermIsAddress(e.term)
  {
  }

  lemma {:induction false} TermIsTyped(sig: Signatures, c: Scope, ds: seq<Dcl>, t: Term, ty: DclType, b: nat,
                                       ts: seq<ValueType>)
    requires IsScopeOf(c, ds) && b != 0 && TermHasType(c.env, t, ty)
    ensures IsTypedIf(sig, ds, TermCode(c, t, b, |ts|), b, ts, TermFits(sig, c.env, t),
                      Generated(ty, TermIsAddress(t)))
    decreases t
  {
    hide CodeTypes, OperandType, FactorCode, FactorHasType;
    if t.JustFactor? {
      FactorIsTyped(sig, c, ds, t.factor, ty, b, ts);
    } else {
      var w := FactorCode(c, t.factor, b, |ts|);
      FactorIsTyped(sig, c, ds, t.factor, Int, b, ts);
      if FactorIsAddress(t.factor) { FactorAddressIsPointer(c.env, t.factor, Int); }
      if TermIsAddress(t.left) { FactorAddressIsPointer(c.env, t.left.factor, Int); }
      var r := CodeTypes(sig, ds, w.instrs, b, ts);
      var v := TermCode(c, t.left, b, |ts| + |w.instrs|);
      if r.Some? {
        TermIsTyped(sig, c, ds, t.left, Int, b, r.value);
      }
      var fw, fv := FactorFits(sig, c.env, t.factor), TermFits(sig, c.env, t.left);
      WordsTyped(sig, ds, w, v, if t.Times? then Mul else if t.Slash? then SDiv else SRem, b, ts, fw, fv);
    }
  }

  /** Arithmetic on two numbers. */
  lemma WordsTyped(sig: Signatures, ds: seq<Dcl>, w: Code, v: Code, op: BinOp, b: nat, ts: seq<ValueType>, fw: bool,
                   fv: bool)
    requires IsTypedIf(sig, ds, w, b, ts, fw, Word)
    requires fw ==> IsTypedIf(sig, ds, v, b, CodeTypes(sig, ds, w.instrs, b, ts).value, fv, Word)
    ensures IsTypedIf(sig, ds, Then(w, v, Bin(op, v.result, w.result), b, |ts|), b, ts, fw && fv, Word)
  {
    BothTyped(sig, ds, w, v, b, ts, fw, Word, fv, Word);
    hide CodeTypes, OperandType;
    var both := Code(w.instrs + v.instrs, v.result);
    OneMoreTyped(sig, ds, both, Bin(op, v.result, w.result), b, ts, fw && fv, Word, Some(Word));
  }

  lemma {:induction false} FactorIsTyped(sig: Signatures, c: Scope, ds: seq<Dcl>, f: Factor, t: DclType, b: nat,
                                         ts: seq<ValueType>)
    requires IsScopeOf(c, ds) && b != 0 && FactorHasType(c.env, f, t)
    ensures IsTypedIf(sig, ds, FactorCode(c, f, b, |ts|), b, ts, FactorFits(sig, c.env, f),
                      Generated(t, FactorIsAddress(f)))
    decreases f
  {
    hide CodeTypes, OperandType, InstrType, EnvOf, TableOf, ExprHasType, ExprCode, LvalueCode, LvalueHasType;
    match f
    case Id(name) => VariableIsTyped(sig, c, ds, name, t, b, ts);
    case Num(n) => ConstantIsTyped(sig, ds, ConstInt(n), b, ts);
    case NullValue => ConstantIsTyped(sig, ds, ConstNull, b, ts);
    case Paren(e) => ExprIsTyped(sig, c, ds, e, t, b, ts);
    case NewArray(size) =>
      ExprIsTyped(sig, c, ds, size, Int, b, ts);
      if IsAddress(size) { AddressIsPointer(c.env, size, Int); }
      ArrayIsTyped(sig, ds, ExprCode(c, size, b, |ts|), b, ts, ExprFits(sig, c.env, size));
    case AddressOf(l) =>
      LvalueIsTyped(sig, c, ds, l, Int, b, ts);
      LoadIsTyped(sig, ds, LvalueCode(c, l, b, |ts|), b, ts, LvalueFits(sig, c.env, l), PlaceType(Int, l));
    case Deref(g) =>
      FactorIsTyped(sig, c, ds, g, IntStar, b, ts);
      LoadIsTyped(sig, ds, FactorCode(c, g, b, |ts|), b, ts, FactorFits(sig, c.env, g),
                  Generated(IntStar, FactorIsAddress(g)));
    case Call(callee, args) =>
      ArgsAreTyped(sig, c, ds, args, b, ts);
      CallIsTyped(sig, c, ds, callee, args, b, ts);
  }

  lemma ConstantIsTyped(sig: Signatures, ds: seq<Dcl>, o: Operand, b: nat, ts: seq<ValueType>)
    requires o.ConstInt? || o.ConstNull?
    ensures IsTypedIf(sig, ds, Code([], o), b, ts, true, if o.ConstInt? then Word else Address(Word))
  {
  }

  lemma VariableIsTyped(sig: Signatures, c: Scope, ds: seq<Dcl>, name: string, t: DclType, b: nat, ts: seq<ValueType>)
    requires IsScopeOf(c, ds) && b != 0 && name in c.env && c.env[name] == t && t != Invalid
    ensures IsTypedIf(sig, ds, Code([Load(Lookup(c, name))], Reg(b, |ts|)), b, ts, true, Lowered(t))
  {
    NameIsTyped(ds, name, b, ts);
    hide EnvOf, TableOf;
    TypeOfOne(sig, ds, Load(Lookup(c, name)), b, ts);
  }

  /** A load after code that is typed if it fits: what it gives must be an address. */
  lemma LoadIsTyped(sig: Signatures, ds: seq<Dcl>, code: Code, b: nat, ts: seq<ValueType>, fits: bool, t: ValueType)
    requires IsTypedIf(sig, ds, code, b, ts, fits, t) && (t == Word || t == Address(Word))
    ensures IsTypedIf(sig, ds, Code(code.instrs + [Load(code.result)], Reg(b, |ts| + |code.instrs|)), b, ts,
                      fits && t == Address(Word), Word)
  {
    hide CodeTypes, OperandType;
    OneMoreTyped(sig, ds, code, Load(code.result), b, ts, fits, t, if t == Word then None else Some(Word));
  }

  lemma ArrayIsTyped(sig: Signatures, ds: seq<Dcl>, n: Code, b: nat, ts: seq<ValueType>, fits: bool)
    requires IsTypedIf(sig, ds, n, b, ts, fits, Word)
    ensures var k := |ts| + |n.instrs|;
            var x := n.instrs + [Bin(Mul, n.result, ConstInt(4)), Malloc(Reg(b, k)), Cast(Reg(b, k + 1))];
            IsTypedIf(sig, ds, Code(x, Reg(b, k + 2)), b, ts, fits, Address(Word))
  {
    var k := |ts| + |n.instrs|;
    var mul, malloc, cast := Bin(Mul, n.result, ConstInt(4)), Malloc(Reg(b, k)), Cast(Reg(b, k + 1));
    OneMoreTyped(sig, ds, n, mul, b, ts, fits, Word, Some(Word));
    var x := Code(n.instrs + [mul], Reg(b, k));
    hide CodeTypes, OperandType;
    OneMoreTyped(sig, ds, x, malloc, b, ts, fits, Word, Some(Bytes));
    var y := Code(x.instrs + [malloc], Reg(b, k + 1));
    OneMoreTyped(sig, ds, y, cast, b, ts, fits, Bytes, Some(Address(Word)));
    assert n.instrs + [mul] + [malloc] + [cast] == n.instrs + [mul, malloc, cast];
  }

  /** The arguments have these types at the end of their code. */
  predicate ArgsTypedIf(sig: Signatures, ds: seq<Dcl>, code: ArgsResult, b: nat, ts: seq<ValueType>, fits: bool,
                        types: seq<ValueType>) {
    var r := CodeTypes(sig, ds, code.instrs, b, ts);
    (r.Some? <==> fits) && (fits ==> ArgumentTypes(ds, code.results, b, r.value) == Some(types))
  }

  lemma {:induction false} ArgsAreTyped(sig: Signatures, c: Scope, ds: seq<Dcl>, args: Arglist, b: nat,
                                        ts: seq<ValueType>)
    requires IsScopeOf(c, ds) && b != 0 && ArgsHaveTypes(c.env, args)
    ensures ArgsTypedIf(sig, ds, ArgsCode(c, args, b, |ts|), b, ts, ArgsFit(sig, c.env, args), ArgTypes(c.env, args))
    decreases args
  {
    hide CodeTypes, OperandType, ExprCode, ExprHasType, ExprFits;
    match args
    case NoArgs => NoTypes(sig, ds, b, ts);
    case Args(e, rest) =>
      var t := if ExprHasType(c.env, e, Int) then Int else IntStar;
      ExprTypeIsUnique(c.env, e, t);
      var v := ExprCode(c, e, b, |ts|);
      ExprIsTyped(sig, c, ds, e, t, b, ts);
      var r := CodeTypes(sig, ds, v.instrs, b, ts);
      var w := ArgsCode(c, rest, b, |ts| + |v.instrs|);
      if r.Some? {
        ArgsAreTyped(sig, c, ds, rest, b, r.value);
      }
      TypesAppend(sig, ds, v.instrs, w.instrs, b, ts);
      var us := CodeTypes(sig, ds, v.instrs + w.instrs, b, ts);
      if us.Some? {
        TypeStays(ds, v.result, b, r.value, us.value);
        assert ([v.result] + w.results)[1..] == w.results;
      }
  }

  lemma NoTypes(sig: Signatures, ds: seq<Dcl>, b: nat, ts: seq<ValueType>)
    ensures CodeTypes(sig, ds, [], b, ts) == Some(ts)
  {
  }

  lemma CallIsTyped(sig: Signatures, c: Scope, ds: seq<Dcl>, callee: string, args: Arglist, b: nat, ts: seq<ValueType>)
    requires ArgsTypedIf(sig, ds, ArgsCode(c, args, b, |ts|), b, ts, ArgsFit(sig, c.env, args), ArgTypes(c.env, args))
    ensures IsTypedIf(sig, ds, FactorCode(c, Call(callee, args), b, |ts|), b, ts,
                      FactorFits(sig, c.env, Call(callee, args)), Word)
  {
    hide OperandType, ArgsCode, ArgTypes, ArgsFit;
    var code := ArgsCode(c, args, b, |ts|);
    var i := Invoke(callee, code.results);
    TypesAppend(sig, ds, code.instrs, [i], b, ts);
    var r := CodeTypes(sig, ds, code.instrs, b, ts);
    if r.Some? {
      TypeOfOne(sig, ds, i, b, r.value);
      RegIsTyped(ds, b, r.value, Word);
    }
  }

  lemma RegIsTyped(ds: seq<Dcl>, b: nat, ts: seq<ValueType>, t: ValueType)
    ensures OperandType(ds, Reg(b, |ts|), b, ts + [t]) == Some(t)
  {
  }

  lemma {:induction false} LvalueIsTyped(sig: Signatures, c: Scope, ds: seq<Dcl>, l: Lvalue, t: DclType, b: nat,
                                         ts: seq<ValueType>)
    requires IsScopeOf(c, ds) && b != 0 && LvalueHasType(c.env, l, t)
    ensures IsTypedIf(sig, ds, LvalueCode(c, l, b, |ts|), b, ts, LvalueFits(sig, c.env, l), PlaceType(t, l))
    decreases l
  {
    match l
    case Var(name) =>
      NameIsTyped(ds, name, b, ts);
      NoTypes(sig, ds, b, ts);
    case Target(pointer) => FactorIsTyped(sig, c, ds, pointer, IntStar, b, ts);
    case Enclosed(inner) => LvalueIsTyped(sig, c, ds, inner, t, b, ts);
  }

  // ----- tests and statements without inner statements -----

  /** Both sides, or none, are addresses that were loaded. */
  predicate TestFits(sig: Signatures, env: TypeEnv, t: Test) {
    ExprFits(sig, env, t.left) && ExprFits(sig, env, t.right) && (IsAddress(t.left) <==> IsAddress(t.right))
  }

  lemma TestCodeIsTyped(sig: Signatures, c: Scope, ds: seq<Dcl>, t: Test, b: nat)
    requires IsScopeOf(c, ds) && b != 0 && TestIsTyped(c.env, t)
    ensures IsTypedIf(sig, ds, TestCode(c, t, b, 0), b, [], TestFits(sig, c.env, t), Bit)
  {
    hide CodeTypes, OperandType, ExprCode, ExprHasType, ExprFits, IsAddress;
    var ty := if ExprHasType(c.env, t.left, Int) && ExprHasType(c.env, t.right, Int) then Int else IntStar;
    var w := ExprCode(c, t.right, b, 0);
    ExprIsTyped(sig, c, ds, t.right, ty, b, []);
    var r := CodeTypes(sig, ds, w.instrs, b, []);
    var v := ExprCode(c, t.left, b, |w.instrs|);
    if r.Some? {
      ExprIsTyped(sig, c, ds, t.left, ty, b, r.value);
    }
    if IsAddress(t.left) { AddressIsPointer(c.env, t.left, ty); }
    if IsAddress(t.right) { AddressIsPointer(c.env, t.right, ty); }
    CompareTyped(sig, ds, w, v, t.op, b, ExprFits(sig, c.env, t.right), ExprFits(sig, c.env, t.left),
                 Generated(ty, IsAddress(t.right)), Generated(ty, IsAddress(t.left)));
  }

  lemma CompareTyped(sig: Signatures, ds: seq<Dcl>, w: Code, v: Code, op: Symbol, b: nat, fw: bool, fv: bool,
                     tw: ValueType, tv: ValueType)
    requires IsTypedIf(sig, ds, w, b, [], fw, tw) && (tw == Word || tw == Address(Word))
    requires fw ==> IsTypedIf(sig, ds, v, b, CodeTypes(sig, ds, w.instrs, b, []).value, fv, tv)
    ensures IsTypedIf(sig, ds, Then(w, v, ICmp(op, v.result, w.result), b, 0), b, [], fw && fv && tv == tw, Bit)
  {
    BothTyped(sig, ds, w, v, b, [], fw, tw, fv, tv);
    hide CodeTypes, OperandType;
    OneMoreTyped(sig, ds, Code(w.instrs + v.instrs, v.result), ICmp(op, v.result, w.result), b, [], fw && fv, tv,
                 if tv == tw then Some(Bit) else None);
  }

  /** Nothing that is stored or freed is an address that was loaded, and nothing is stored through one. */
  predicate SimpleFits(sig: Signatures, env: TypeEnv, s: Statement)
    requires IsSimple(s)
  {
    match s
    case Assign(l, e) => ExprFits(sig, env, e) && LvalueFits(sig, env, l) && !IsAddress(e) && !IsMisplaced(l)
    case Println(e) => ExprFits(sig, env, e)
    case Delete(e) => ExprFits(sig, env, e) && !IsAddress(e)
  }

  /** The code of a typed assignment, println or delete is typed, operands as demanded and stores as their places, if
      and only if it fits. */
  lemma SimpleIsTyped(sig: Signatures, c: Scope, ds: seq<Dcl>, s: Statement, b: nat)
    requires IsScopeOf(c, ds) && b != 0 && IsSimple(s) && StatementIsTyped(c.env, s)
    ensures CodeTypes(sig, ds, SimpleCode(c, s, b, 0), b, []).Some? <==> SimpleFits(sig, c.env, s)
  {
    hide CodeTypes, OperandType, ExprCode, ExprHasType, LvalueCode, LvalueHasType, ExprFits, LvalueFits, IsAddress,
         IsMisplaced;
    match s
    case Assign(l, e) => AssignIsTyped(sig, c, ds, l, e, b);
    case Println(e) =>
      ExprIsTyped(sig, c, ds, e, Int, b, []);
      if IsAddress(e) { AddressIsPointer(c.env, e, Int); }
      OneMoreTyped(sig, ds, ExprCode(c, e, b, 0), Printf(ExprCode(c, e, b, 0).result), b, [], ExprFits(sig, c.env, e),
                   Word, Some(Word));
    case Delete(e) =>
      ExprIsTyped(sig, c, ds, e, IntStar, b, []);
      DeleteTyped(sig, ds, ExprCode(c, e, b, 0), b, ExprFits(sig, c.env, e), Generated(IntStar, IsAddress(e)));
  }

  lemma DeleteTyped(sig: Signatures, ds: seq<Dcl>, v: Code, b: nat, fits: bool, t: ValueType)
    requires IsTypedIf(sig, ds, v, b, [], fits, t) && (t == Word || t == Address(Word))
    ensures CodeTypes(sig, ds, v.instrs + [Cast(v.result), Free(Reg(b, |v.instrs|))], b, []).Some? <==>
            fits && t == Address(Word)
  {
    hide CodeTypes, OperandType;
    var cast := Cast(v.result);
    OneMoreTyped(sig, ds, v, cast, b, [], fits, t, if t == Word then None else Some(Bytes));
    OneMoreTyped(sig, ds, Code(v.instrs + [cast], Reg(b, |v.instrs|)), Free(Reg(b, |v.instrs|)), b, [],
                 fits && t == Address(Word), Bytes, Some(Nothing));
    assert v.instrs + [cast] + [Free(Reg(b, |v.instrs|))] == v.instrs + [cast, Free(Reg(b, |v.instrs|))];
  }

  lemma AssignIsTyped(sig: Signatures, c: Scope, ds: seq<Dcl>, l: Lvalue, e: Expr, b: nat)
    requires IsScopeOf(c, ds) && b != 0 && StatementIsTyped(c.env, Assign(l, e))
    ensures CodeTypes(sig, ds, SimpleCode(c, Assign(l, e), b, 0), b, []).Some? <==>
            SimpleFits(sig, c.env, Assign(l, e))
  {
    hide CodeTypes, OperandType, ExprCode, ExprHasType, LvalueCode, LvalueHasType, ExprFits, LvalueFits, IsAddress,
         IsMisplaced;
    var ty := if LvalueHasType(c.env, l, Int) && ExprHasType(c.env, e, Int) then Int else IntStar;
    var v := ExprCode(c, e, b, 0);
    ExprIsTyped(sig, c, ds, e, ty, b, []);
    var r := CodeTypes(sig, ds, v.instrs, b, []);
    var a := LvalueCode(c, l, b, |v.instrs|);
    if r.Some? {
      LvalueIsTyped(sig, c, ds, l, ty, b, r.value);
    }
    if IsAddress(e) { AddressIsPointer(c.env, e, ty); }
    if IsMisplaced(l) { MisplacedIsInt(c.env, l, ty); }
    StoreTyped(sig, ds, v, a, b, ExprFits(sig, c.env, e), LvalueFits(sig, c.env, l), Generated(ty, IsAddress(e)),
               PlaceType(ty, l));
  }

  lemma {:induction false} MisplacedIsInt(env: TypeEnv, l: Lvalue, t: DclType)
    requires LvalueHasType(env, l, t) && IsMisplaced(l)
    ensures t == Int
  {
    if l.Enclosed? {
      MisplacedIsInt(env, l.lvalue, t);
    }
  }

  lemma StoreTyped(sig: Signatures, ds: seq<Dcl>, v: Code, a: Code, b: nat, fv: bool, fa: bool, tv: ValueType,
                   ta: ValueType)
    requires IsTypedIf(sig, ds, v, b, [], fv, tv)
    requires fv ==> IsTypedIf(sig, ds, a, b, CodeTypes(sig, ds, v.instrs, b, []).value, fa, ta)
    ensures CodeTypes(sig, ds, v.instrs + a.instrs + [Store(v.result, a.result)], b, []).Some? <==>
            fv && fa && ta == Address(tv)
  {
    BothTyped(sig, ds, v, a, b, [], fv, tv, fa, ta);
    hide CodeTypes, OperandType;
    OneMoreTyped(sig, ds, Code(v.instrs + a.instrs, a.result), Store(v.result, a.result), b, [], fv && fa, ta,
                 if ta == Address(tv) then Some(Nothing) else None);
  }

  // ----- the entry block -----

  function SlotTypes(ds: seq<Dcl>): (ts: seq<ValueType>)
    ensures |ts| == |ds|
  {
    seq(|ds|, i requires 0 <= i < |ds| => Address(Lowered(ds[i].dclType)))
  }

  lemma {:induction false} SlotsAreTyped(sig: Signatures, all: seq<Dcl>, ds: seq<Dcl>)
    ensures CodeTypes(sig, all, AllocaCode(ds), 0, []) == Some(SlotTypes(ds))
  {
    if ds == [] {
      NoTypes(sig, all, 0, []);
    } else {
      var front, d := ds[..|ds| - 1], ds[|ds| - 1];
      SlotsAreTyped(sig, all, front);
      TypesAppend(sig, all, AllocaCode(front), [Alloca(d.dclType)], 0, []);
      TypeOfOne(sig, all, Alloca(d.dclType), 0, SlotTypes(front));
      assert SlotTypes(front) + [Address(Lowered(d.dclType))] == SlotTypes(ds);
    }
  }

  /** Stores of typed operands into slots, after the slots are set up. */
  lemma StoreIsTyped(sig: Signatures, all: seq<Dcl>, i: nat, v: Operand, ts: seq<ValueType>)
    requires i < |all| && SlotTypes(all) <= ts && OperandType(all, v, 0, ts) == Some(Lowered(all[i].dclType))
    ensures CodeTypes(sig, all, [Store(v, Reg(0, i))], 0, ts) == Some(ts + [Nothing])
  {
    TypeOfOne(sig, all, Store(v, Reg(0, i)), 0, ts);
    assert ts[i] == SlotTypes(all)[i];
  }

  lemma {:induction false} ParamsAreStored(sig: Signatures, c: Scope, all: seq<Dcl>, n: nat, ts: seq<ValueType>)
    requires IsScopeOf(c, all) && DistinctIds(all) && n <= |all| && SlotTypes(all) <= ts
    ensures CodeTypes(sig, all, ParamStores(c, all[..n]), 0, ts).Some?
    decreases n
  {
    hide CodeTypes, InstrType, TableOf, EnvOf, DistinctIds, SlotTypes;
    if n == 0 {
      NoTypes(sig, all, 0, ts);
    } else {
      assert all[..n][..n - 1] == all[..n - 1] && all[..n][n - 1] == all[n - 1];
      ParamsAreStored(sig, c, all, n - 1, ts);
      TableOfDistinct(all);
      var i := Store(Arg(n - 1), Lookup(c, all[n - 1].id));
      TypesAppend(sig, all, ParamStores(c, all[..n - 1]), [i], 0, ts);
      StoreIsTyped(sig, all, n - 1, Arg(n - 1), CodeTypes(sig, all, ParamStores(c, all[..n - 1]), 0, ts).value);
    }
  }

  lemma {:induction false} InitialsAreStored(sig: Signatures, c: Scope, all: seq<Dcl>, ds: seq<Dcl>, at: nat,
                                             ts: seq<ValueType>)
    requires IsScopeOf(c, all) && DistinctIds(all) && at + |ds| <= |all| && all[at..at + |ds|] == ds
    requires SlotTypes(all) <= ts
    requires forall i :: 0 <= i < |ds| ==> HasInitialValue(ds[i]) && ds[i].dclType != Invalid
    ensures CodeTypes(sig, all, DclStores(c, ds), 0, ts).Some?
    decreases |ds|
  {
    hide CodeTypes, InstrType, TableOf, EnvOf, DistinctIds, HasInitialValue, SlotTypes;
    if ds == [] {
      NoTypes(sig, all, 0, ts);
    } else {
      var n := |ds| - 1;
      var front, d := ds[..n], ds[n];
      assert all[at..at + n] == front && all[at..at + |ds|][n] == all[at + n];
      InitialsAreStored(sig, c, all, front, at, ts);
      TableOfDistinct(all);
      var i := Store(InitialOperand(d), Lookup(c, d.id));
      TypesAppend(sig, all, DclStores(c, front), [i], 0, ts);
      var us := CodeTypes(sig, all, DclStores(c, front), 0, ts).value;
      StoreIsTyped(sig, all, at + n, InitialOperand(d), us);
    }
  }

  /** The entry block of a procedure with distinct names is typed: every name is stored as what its slot holds. */
  lemma EntryIsTyped(sig: Signatures, c: Scope, p: Procedure)
    requires IsScopeOf(c, p.params + p.dcls) && DistinctIds(p.params + p.dcls) && HasInitialValues(p)
    requires forall i :: 0 <= i < |p.dcls| ==> p.dcls[i].dclType != Invalid
    ensures CodeTypes(sig, p.params + p.dcls, EntryCode(c, p), 0, []).Some?
  {
    hide CodeTypes, InstrType, TableOf, EnvOf, DistinctIds, SlotTypes;
    var all := p.params + p.dcls;
    var x, y, z := AllocaCode(all), ParamStores(c, p.params), DclStores(c, p.dcls);
    SlotsAreTyped(sig, all, all);
    assert all[..|p.params|] == p.params && all[|p.params|..|p.params| + |p.dcls|] == p.dcls;
    ParamsAreStored(sig, c, all, |p.params|, SlotTypes(all));
    TypesAppend(sig, all, x, y, 0, []);
    var us := CodeTypes(sig, all, y, 0, SlotTypes(all)).value;
    InitialsAreStored(sig, c, all, p.dcls, |p.params|, us);
    TypesAppend(sig, all, x + y, z, 0, []);
  }
}
