/** Exactly when a sum, a product, a test or an argument list is given back as a tree, wherever the cursor ends: what is
    read for a left operand after a right one that opens with a call is what that call has left behind. */
module GivenBack {
  import opened Options
  import opened Symbols
  import opened Grammar
  import opened Earley
  import opened Wlp4Grammar
  import opened Tokens
  import opened Ast
  import opened Types
  import opened Yields
  import opened Items
  import opened Reading
  import opened Checking
  import opened ReadBack
  import opened ReadStatements

  // ----- what a call leaves on top -----

  /** The name on top of what the reader leaves behind: that of the first call that nothing in its own arguments
      precedes. */
  function ExprLeftover(e: Expr): string {
    match e
    case JustTerm(term) => TermLeftover(term)
    case _ => ExprLeftover(e.left)
  }

  function TermLeftover(t: Term): string {
    match t
    case JustFactor(factor) => FactorLeftover(factor)
    case _ => TermLeftover(t.left)
  }

  function FactorLeftover(f: Factor): string {
    match f
    case Paren(e) => ExprLeftover(e)
    case NewArray(size) => ExprLeftover(size)
    case AddressOf(lvalue) => LvalueLeftover(lvalue)
    case Deref(pointer) => FactorLeftover(pointer)
    case Call(_, Args(e, _)) => if ExprOpensWithCall(e) then ExprLeftover(e) else f.callee
    case Call(callee, NoArgs) => callee
    case _ => ""
  }

  function LvalueLeftover(l: Lvalue): string {
    match l
    case Var(_) => ""
    case Target(pointer) => FactorLeftover(pointer)
    case Enclosed(inner) => LvalueLeftover(inner)
  }

  /** The leftover name is inside parentheses, brackets or arguments of the tree. */
  predicate TermEncloses(t: Term) {
    match t
    case JustFactor(factor) => FactorEncloses(factor)
    case _ => TermEncloses(t.left)
  }

  predicate FactorEncloses(f: Factor) {
    match f
    case Call(_, Args(e, _)) => ExprOpensWithCall(e)
    case Call(_, NoArgs) => false
    case _ => true
  }

  /** A name as an expression. */
  function Named(name: string): Expr {
    JustTerm(JustFactor(Id(name)))
  }

  /** The items of a name that is an expression of its own, with nothing on top that a left operand could be. */
  ghost predicate TopIsName(residue: seq<Elem>, pre: seq<Elem>, s: nat, z: seq<Elem>) {
    residue == pre + [Done(35, s), Done(31, s), Done(28, s)] + z && Lacks(z, EXPR) && Lacks(z, TERM)
  }

  lemma {:induction false} ExprLeaves(tokens: seq<Token>, env: TypeEnv, e: Expr, ty: DclType, s: nat, k: seq<Elem>)
      returns (pre: seq<Elem>, s0: nat, z: seq<Elem>)
    requires ExprOpensWithCall(e) && ExprSpelled(tokens, s, e) && ExprHasType(env, e, ty) && Lacks(k, EXPR) &&
             Lacks(k, TERM)
    ensures TopIsName(ExprResidue(e, s, k), pre, s0, z) && Spells(tokens, s0, ExprLeftover(e))
    decreases e, 0
  {
    hide RuleAt, Lacks, TermResidue, TermSpelled, TermHasType, TermOpensWithCall, TermLeftover, Done;
    match e
    case JustTerm(term) =>
      var direct;
      direct, pre, s0, z := TermLeaves(tokens, env, term, ty, s, [Done(28, s)] + k);
      if direct {
        pre, s0, z := [], s, k;
        assert [Done(35, s), Done(31, s)] + ([Done(28, s)] + k) == [] + [Done(35, s), Done(31, s), Done(28, s)] + k;
      }
    case _ =>
      var tl, tt := OperandTypes(env, e, ty);
      pre, s0, z := ExprLeaves(tokens, env, e.left, tl, s, k);
  }

  /** A term leaves the name and what follows it, or an enclosed name. */
  lemma {:induction false} TermLeaves(tokens: seq<Token>, env: TypeEnv, t: Term, ty: DclType, s: nat, k: seq<Elem>)
      returns (direct: bool, pre: seq<Elem>, s0: nat, z: seq<Elem>)
    requires TermOpensWithCall(t) && TermSpelled(tokens, s, t) && TermHasType(env, t, ty)
    ensures direct <==> !TermEncloses(t)
    ensures direct ==> TermResidue(t, s, k) == [Done(35, s), Done(31, s)] + k && Spells(tokens, s, TermLeftover(t))
    ensures !direct ==> TopIsName(TermResidue(t, s, k), pre, s0, z) && Spells(tokens, s0, TermLeftover(t))
    decreases t, 0
  {
    hide RuleAt, Lacks, FactorResidue, FactorSpelled, FactorHasType, FactorOpensWithCall, FactorLeftover,
         FactorEncloses, Done;
    match t
    case JustFactor(factor) =>
      direct, pre, s0, z := FactorLeaves(tokens, env, factor, ty, s, [Done(31, s)] + k);
      assert [Done(35, s)] + ([Done(31, s)] + k) == [Done(35, s), Done(31, s)] + k;
    case _ =>
      direct, pre, s0, z := TermLeaves(tokens, env, t.left, Int, s, k);
  }

  lemma {:induction false} FactorLeaves(tokens: seq<Token>, env: TypeEnv, f: Factor, ty: DclType, s: nat, k: seq<Elem>)
      returns (direct: bool, pre: seq<Elem>, s0: nat, z: seq<Elem>)
    requires FactorOpensWithCall(f) && FactorSpelled(tokens, s, f) && FactorHasType(env, f, ty)
    ensures direct <==> !FactorEncloses(f)
    ensures direct ==> FactorResidue(f, s, k) == [Done(35, s)] + k && Spells(tokens, s, FactorLeftover(f))
    ensures !direct ==> TopIsName(FactorResidue(f, s, k), pre, s0, z) && Spells(tokens, s0, FactorLeftover(f))
    decreases f, 0
  {
    hide RuleAt, Lacks, ExprResidue, ExprSpelled, ExprHasType, ExprOpensWithCall, ExprLeftover, Done, TopIsName;
    direct, pre, s0, z := !FactorEncloses(f), [], 0, [];
    match f
    case Paren(e) =>
      LacksNone();
      pre, s0, z := ExprLeaves(tokens, env, e, ty, s + 1, []);
    case NewArray(size) =>
      LacksNone();
      pre, s0, z := ExprLeaves(tokens, env, size, Int, s + 3, []);
    case AddressOf(lvalue) => pre, s0, z := LvalueLeaves(tokens, env, lvalue, Int, s + 1, [Done(39, s)] + k);
    case Deref(pointer) =>
      var callee;
      CallIsInt(env, pointer);
      callee, pre, s0, z := FactorLeaves(tokens, env, pointer, IntStar, s + 1, [Done(40, s)] + k);
    case Call(_, args) =>
      if args.Args? {
        var e := args.expr;
        if ExprOpensWithCall(e) {
          LacksNone();
          LacksTop([], 44, s + 2);
          var p;
          p, s0, z := ExprLeaves(tokens, env, e, if ExprHasType(env, e, Int) then Int else IntStar, s + 2,
                                 [Done(44, s + 2)] + []);
          pre := [Done(35, s)] + k + p;
          Deeper([Done(35, s)] + k, ExprResidue(e, s + 2, [Done(44, s + 2)] + []), p, s0, z);
        } else {
          ExprLeavesNothing(e, s + 2, [Done(44, s + 2)] + []);
        }
      }
  }

  lemma CallIsInt(env: TypeEnv, f: Factor)
    requires FactorHasType(env, f, IntStar)
    ensures FactorEncloses(f)
  {
    hide ArgsHaveTypes, ExprHasType, ExprOpensWithCall;
  }

  lemma {:induction false} LvalueLeaves(tokens: seq<Token>, env: TypeEnv, l: Lvalue, ty: DclType, s: nat, k: seq<Elem>)
      returns (pre: seq<Elem>, s0: nat, z: seq<Elem>)
    requires LvalueOpensWithCall(l) && LvalueSpelled(tokens, s, l) && LvalueHasType(env, l, ty)
    ensures TopIsName(LvalueResidue(l, s, k), pre, s0, z) && Spells(tokens, s0, LvalueLeftover(l))
    decreases l, 0
  {
    hide RuleAt, Lacks, FactorResidue, FactorSpelled, FactorHasType, FactorOpensWithCall, FactorLeftover,
         FactorEncloses, Done, TopIsName;
    match l
    case Target(pointer) =>
      var callee;
      CallIsInt(env, pointer);
      callee, pre, s0, z := FactorLeaves(tokens, env, pointer, IntStar, s + 1, [Done(47, s)] + k);
    case Enclosed(inner) =>
      pre, s0, z := LvalueLeaves(tokens, env, inner, ty, s + 1, []);
  }

  lemma Deeper(xs: seq<Elem>, residue: seq<Elem>, pre: seq<Elem>, s: nat, z: seq<Elem>)
    requires TopIsName(residue, pre, s, z)
    ensures TopIsName(xs + residue, xs + pre, s, z)
  {
    hide Lacks, Done;
    var y := [Done(35, s), Done(31, s), Done(28, s)];
    assert xs + (pre + y + z) == (xs + pre) + y + z;
  }

  // ----- what is read next -----

  lemma ThreeOnTop(c: Context, j: int, xs: seq<Elem>, s: nat)
    requires Shows(c, j, xs + [Done(35, s), Done(31, s), Done(28, s)])
    ensures 2 <= j && Ready(c, j) && c.chart[j].rule == 28 && c.chart[j - 1].rule == 31 && c.chart[j - 2] == Done(35, s)
    ensures Shows(c, j - 1, xs + [Done(35, s), Done(31, s)]) && Shows(c, j - 3, xs) && j - 2 == |xs|
  {
    hide RuleAt;
    var x := Done(35, s);
    assert xs + [x, Done(31, s), Done(28, s)] == (xs + [x, Done(31, s)]) + [Done(28, s)];
    TopShows(c, j, xs + [x, Done(31, s)], 28, s);
    assert xs + [x, Done(31, s)] == (xs + [x]) + [Done(31, s)];
    TopShows(c, j - 1, xs + [x], 31, s);
    TopShows(c, j - 2, xs, 35, s);
  }

  /** A left operand that is an expression is read as the name on top. */
  lemma NameIsRead(c: Context, j: int, xs: seq<Elem>, residue: seq<Elem>, pre: seq<Elem>, s: nat, z: seq<Elem>,
                   name: string)
    requires Shows(c, j, xs + residue) && TopIsName(residue, pre, s, z) && Spells(c.tokens, s, name)
    ensures Shows(c, |xs + pre| - 1, xs + pre)
    ensures ReadExpr(c, j) ==
            if ExprType(c.env, Named(name)) == Invalid then Err(InvalidExpr) else Ok((Named(name), |xs + pre| - 1))
    ensures ReadTerm(c, j) == Ok((JustFactor(Id(name)), |xs + pre| - 1))
  {
    hide RuleAt, Lacks, ReadExpr, ReadTerm, ReadFactor, Shows, ExprType, TermType;
    var y := [Done(35, s), Done(31, s), Done(28, s)];
    assert xs + residue == ((xs + pre) + y) + z;
    SkipExpr(c, j, (xs + pre) + y, z);
    SkipTerm(c, j, (xs + pre) + y, z);
    var m := |(xs + pre) + y| - 1;
    ThreeOnTop(c, m, xs + pre, s);
    LeafStep(c, m - 2, Id(name));
    FactorAlone(c, m - 1, Id(name), m - 3);
    NameAlone(c, m, name, m - 3);
    TermBelow(c, m);
  }

  lemma NameAlone(c: Context, i: int, name: string, j: int)
    requires 0 <= i && Ready(c, i) && c.chart[i].rule == 28 && ReadTerm(c, i - 1) == Ok((JustFactor(Id(name)), j))
    ensures ReadExpr(c, i) == if ExprType(c.env, Named(name)) == Invalid then Err(InvalidExpr) else Ok((Named(name), j))
  {
    hide RuleAt, Find, Lhs, ReadTerm, ExprType;
    TheSingleTerm();
    FindHere(c.chart, EXPR, i);
  }

  lemma TheSingleTerm()
    ensures RuleAt(28) == Rule(EXPR, [TERM])
  {
  }

  lemma TermBelow(c: Context, i: int)
    requires 0 < i && Ready(c, i) && c.chart[i].rule == 28
    ensures ReadTerm(c, i) == ReadTerm(c, i - 1)
  {
    hide ReadFactor, TermType;
  }

  // ----- tests -----

  /** A test whose sides have their calls first is given back if and only if it is typed and resolves, and its right
      side does not open with a call, unless what that call leaves behind is the left side itself. */
  lemma TestIsGivenBack(c: Context, i: int, xs: seq<Elem>, t: Test, s: nat)
    requires Shows(c, i, xs + TestItems(t, s)) && TestSpelled(c.tokens, s, t)
    requires ExprCallsFirst(t.left) && ExprCallsFirst(t.right)
    ensures Ready(c, i)
    ensures ReadTest(c, i).Ok? && ReadTest(c, i).value.0 == t <==>
            && TestIsTyped(c.env, t) && TestResolves(c, t)
            && (ExprOpensWithCall(t.right) ==> t.left == Named(ExprLeftover(t.right)))
  {
    hide ReadExpr, ReadTest, RuleAt, Shows, Lacks, ExprItems, ExprResidue, ExprType, ExprHasType, ExprYield,
         ExprSpelled, ExprCallsFirst, ExprResolves, ExprOpensWithCall;
    var r, s' := TestRule(t.op), s + |ExprYield(t.left)| + 1;
    var x, y := ExprItems(t.left, s, []), ExprItems(t.right, s', [Done(r, s)]);
    assert xs + TestItems(t, s) == ((xs + x) + y) + [Done(r, s)];
    TopShows(c, i, (xs + x) + y, r, s);
    if ReadTest(c, i).Ok? && ReadTest(c, i).value.0 == t {
      ReadTestIsSound(c, i);
    }
    if TestIsTyped(c.env, t) && TestResolves(c, t) {
      TypedTest(c, i, xs, t, s);
    }
  }

  lemma TypedTest(c: Context, i: int, xs: seq<Elem>, t: Test, s: nat)
    requires 0 <= i && Ready(c, i) && c.chart[i].rule == TestRule(t.op) && TestSpelled(c.tokens, s, t)
    requires var s' := s + |ExprYield(t.left)| + 1;
             Shows(c, i - 1, (xs + ExprItems(t.left, s, [])) + ExprItems(t.right, s', [Done(TestRule(t.op), s)]))
    requires ExprCallsFirst(t.left) && ExprCallsFirst(t.right) && TestIsTyped(c.env, t) && TestResolves(c, t)
    ensures ReadTest(c, i).Ok? && ReadTest(c, i).value.0 == t <==>
            (ExprOpensWithCall(t.right) ==> t.left == Named(ExprLeftover(t.right)))
  {
    hide ReadExpr, ReadTest, RuleAt, Shows, Lacks, ExprItems, ExprResidue, ExprType, ExprHasType, ExprYield,
         ExprSpelled, ExprCallsFirst, ExprResolves, ExprOpensWithCall, ExprLeftover, TopIsName;
    var ty := if ExprHasType(c.env, t.left, Int) && ExprHasType(c.env, t.right, Int) then Int else IntStar;
    var top, s', x := [Done(TestRule(t.op), s)], s + |ExprYield(t.left)| + 1, ExprItems(t.left, s, []);
    LacksTest(TestRule(t.op), s);
    LacksNone();
    ExprReadBack(c, i - 1, xs + x, t.right, ty, s', top);
    ExprTypeIsUnique(c.env, t.left, ty);
    ExprTypeIsUnique(c.env, t.right, ty);
    var j := |(xs + x) + ExprResidue(t.right, s', top)| - 1;
    LeftOfTest(c, i, t, j);
    if ExprOpensWithCall(t.right) {
      var pre, s0, z := ExprLeaves(c.tokens, c.env, t.right, ty, s', top);
      NameIsRead(c, j, xs + x, ExprResidue(t.right, s', top), pre, s0, z, ExprLeftover(t.right));
    } else {
      ExprLeavesNothing(t.right, s', top);
      assert (xs + x) + [] == xs + x;
      ExprReadBack(c, j, xs, t.left, ty, s, []);
    }
  }

  /** A test is read from its two sides. */
  lemma LeftOfTest(c: Context, i: int, t: Test, j: int)
    requires 0 <= i && Ready(c, i) && c.chart[i].rule == TestRule(t.op) && IsComparison(t.op)
    requires ReadExpr(c, i - 1) == Ok((t.right, j)) && ExprType(c.env, t.left) == ExprType(c.env, t.right)
    ensures ReadTest(c, i).Ok? && ReadTest(c, i).value.0 == t <==>
            ReadExpr(c, j).Ok? && ReadExpr(c, j).value.0 == t.left
  {
    hide ReadExpr, ExprType;
    assert RuleAt(TestRule(t.op)) == Rule(TEST, [EXPR, t.op, EXPR]);
    assert Find(c.chart, TEST, i) == i;
  }

  // ----- sums -----

  /** What a sum is read as, where its right operand is read as t up to item j. */
  lemma SumIsRead(c: Context, i: int, r: nat, t: Term, j: int)
    requires 0 <= i && Ready(c, i) && c.chart[i].rule == r && 29 <= r <= 30 && ReadTerm(c, i - 1) == Ok((t, j))
    ensures ReadExpr(c, i).Ok? ==>
              && ReadExpr(c, j).Ok?
              && var l := ReadExpr(c, j).value.0; ReadExpr(c, i).value.0 == if r == 29 then Plus(l, t) else Minus(l, t)
  {
    hide RuleAt, Find, Lhs, ReadTerm, ExprType;
    var e := if r == 29 then Plus(JustTerm(t), t) else Minus(JustTerm(t), t);
    SumRule(e);
    FindHere(c.chart, EXPR, i);
  }

  lemma LeftOfSum(c: Context, i: int, e: Expr, j: int)
    requires 0 <= i && Ready(c, i) && !e.JustTerm? && c.chart[i].rule == ExprRule(e)
    requires ReadTerm(c, i - 1) == Ok((e.term, j)) && ExprType(c.env, e) != Invalid
    ensures ReadExpr(c, i).Ok? && ReadExpr(c, i).value.0 == e <==>
            ReadExpr(c, j).Ok? && ReadExpr(c, j).value.0 == e.left
  {
    hide RuleAt, ReadTerm, ReadExpr, ExprType, TermType;
    SumIsRead(c, i, ExprRule(e), e.term, j);
    if ReadExpr(c, j).Ok? && ReadExpr(c, j).value.0 == e.left {
      TermOfSum(c, i, e, j, ReadExpr(c, j).value.1);
    }
  }

  /** Two items of a name below the item of a sum. */
  lemma NameOfSum(c: Context, i: int, xs: seq<Elem>, name: string, s': nat, r: nat, s: nat)
    requires 29 <= r <= 30 && Shows(c, i, (xs + [Done(35, s'), Done(31, s')]) + [Done(r, s)]) &&
             Spells(c.tokens, s', name)
    ensures 0 <= i && Ready(c, i) && c.chart[i].rule == r && Shows(c, |xs| - 1, xs)
    ensures ReadTerm(c, i - 1) == Ok((JustFactor(Id(name)), |xs| - 1))
  {
    hide RuleAt, ReadTerm, ReadFactor, Shows;
    TopShows(c, i, xs + [Done(35, s'), Done(31, s')], r, s);
    assert xs + [Done(35, s'), Done(31, s')] == (xs + [Done(35, s')]) + [Done(31, s')];
    TopShows(c, i - 1, xs + [Done(35, s')], 31, s');
    TopShows(c, i - 2, xs, 35, s');
    LeafStep(c, i - 2, Id(name));
    FactorAlone(c, i - 1, Id(name), i - 3);
  }

  /** A sum of l and a name, at its top item, is not read as l. */
  lemma {:induction false} NotItsLeft(c: Context, i: int, xs: seq<Elem>, e: Expr, s: nat, k: seq<Elem>, name: string)
    requires !e.JustTerm? && e.term == JustFactor(Id(name)) && ExprSpelled(c.tokens, s, e)
    requires Shows(c, i, xs + ExprItems(e, s, k)) && Lacks(k, EXPR)
    ensures ReadExpr(c, i).Ok? ==> ReadExpr(c, i).value.0 != e.left
    decreases e
  {
    hide RuleAt, Lacks, ReadExpr, ReadTerm, Shows;
    var l, s' := e.left, s + |ExprYield(e.left)| + 1;
    SumWithName(xs, e, s, k, name);
    assert Spells(c.tokens, s', name) by { assert FactorSpelled(c.tokens, s', Id(name)); }
    hide ExprItems, ExprYield, ExprSpelled;
    NameOfSum(c, i, (xs + ExprItems(l, s, k)) + k, name, s', ExprRule(e), s);
    var j := |(xs + ExprItems(l, s, k)) + k| - 1;
    SumIsRead(c, i, ExprRule(e), e.term, j);
    SkipExpr(c, j, xs + ExprItems(l, s, k), k);
    if !l.JustTerm? && l.term == e.term {
      assert ExprSpelled(c.tokens, s, l) by { LeftIsSpelled(c.tokens, s, e); }
      NotItsLeft(c, |xs + ExprItems(l, s, k)| - 1, xs, l, s, k, name);
    }
  }

  lemma LeftIsSpelled(tokens: seq<Token>, s: nat, e: Expr)
    requires !e.JustTerm? && ExprSpelled(tokens, s, e)
    ensures ExprSpelled(tokens, s, e.left)
  {
    hide TermSpelled;
  }

  lemma SumWithName(xs: seq<Elem>, e: Expr, s: nat, k: seq<Elem>, name: string)
    requires !e.JustTerm? && e.term == JustFactor(Id(name))
    ensures var s' := s + |ExprYield(e.left)| + 1;
            xs + ExprItems(e, s, k) ==
            (((xs + ExprItems(e.left, s, k)) + k) + [Done(35, s'), Done(31, s')]) + [Done(ExprRule(e), s)]
  {
    hide RuleAt, ExprYield;
    var s', top := s + |ExprYield(e.left)| + 1, Done(ExprRule(e), s);
    assert FactorItems(Id(name), s', [Done(31, s')] + ([top] + k)) == [Done(35, s')];
    assert TermItems(e.term, s', [top] + k) == [Done(35, s')] + [Done(31, s')];
    assert ExprItems(e, s, k) == ExprItems(e.left, s, k) + k + TermItems(e.term, s', [top] + k) + [top];
    hide ExprItems, TermItems;
    assert [Done(35, s')] + [Done(31, s')] == [Done(35, s'), Done(31, s')];
  }

  /** After a right operand that is a call, what the call leaves behind is read with the left operand as another sum. */
  lemma CallIsAdded(c: Context, j: int, xs: seq<Elem>, e: Expr, s: nat, k: seq<Elem>, s': nat, name: string)
    requires !e.JustTerm? && ExprSpelled(c.tokens, s, e) && Spells(c.tokens, s', name) && Lacks(k, EXPR)
    requires Shows(c, j,
                   ((xs + ExprItems(e.left, s, k)) + k) + ([Done(35, s'), Done(31, s')] + ([Done(ExprRule(e), s)] + k)))
    ensures ReadExpr(c, j).Ok? ==> ReadExpr(c, j).value.0 != e.left
  {
    hide RuleAt, Lacks, ReadExpr, ReadTerm, Shows, ExprItems, ExprSpelled;
    var x, names, top := (xs + ExprItems(e.left, s, k)) + k, [Done(35, s'), Done(31, s')], [Done(ExprRule(e), s)];
    assert x + (names + (top + k)) == ((x + names) + top) + k;
    SkipExpr(c, j, (x + names) + top, k);
    var i := |(x + names) + top| - 1;
    NameOfSum(c, i, x, name, s', ExprRule(e), s);
    SumIsRead(c, i, ExprRule(e), JustFactor(Id(name)), |x| - 1);
    SkipExpr(c, |x| - 1, xs + ExprItems(e.left, s, k), k);
    if !e.left.JustTerm? && e.left.term == JustFactor(Id(name)) {
      LeftIsSpelled(c.tokens, s, e);
      NotItsLeft(c, |xs + ExprItems(e.left, s, k)| - 1, xs, e.left, s, k, name);
    }
  }

  /** A sum whose operands have their calls first is given back if and only if it is typed and resolves, and its right
      operand does not open with a call, unless an enclosed call leaves behind the left operand itself. */
  lemma SumIsGivenBack(c: Context, i: int, xs: seq<Elem>, e: Expr, s: nat, k: seq<Elem>)
    requires !e.JustTerm? && Shows(c, i, xs + ExprItems(e, s, k)) && Lacks(k, EXPR) && Lacks(k, TERM)
    requires ExprSpelled(c.tokens, s, e) && ExprCallsFirst(e.left) && TermCallsFirst(e.term)
    ensures Ready(c, i)
    ensures ReadExpr(c, i).Ok? && ReadExpr(c, i).value.0 == e <==>
            && ExprIsSound(c, e)
            && (TermOpensWithCall(e.term) ==> TermEncloses(e.term) && e.left == Named(TermLeftover(e.term)))
  {
    hide ReadExpr, ReadTerm, RuleAt, Lacks, Shows, TermItems, ExprType, TermType, ExprYield, ExprHasType, ExprResolves,
         ExprSpelled, TermCallsFirst, TermOpensWithCall, ExprCallsFirst;
    var top, s' := Done(ExprRule(e), s), s + |ExprYield(e.left)| + 1;
    var x, t := (xs + ExprItems(e.left, s, k)) + k, TermItems(e.term, s', [top] + k);
    assert xs + ExprItems(e, s, k) == (x + t) + [top];
    hide ExprItems;
    TopShows(c, i, x + t, ExprRule(e), s);
    if ReadExpr(c, i).Ok? && ReadExpr(c, i).value.0 == e {
      ReadExprIsSound(c, i);
    }
    if ExprIsSound(c, e) {
      TypedSum(c, i, xs, e, s, k);
    }
  }

  lemma TypedSum(c: Context, i: int, xs: seq<Elem>, e: Expr, s: nat, k: seq<Elem>)
    requires !e.JustTerm? && 0 <= i && Ready(c, i) && c.chart[i].rule == ExprRule(e) && Lacks(k, EXPR) && Lacks(k, TERM)
    requires var s' := s + |ExprYield(e.left)| + 1;
             Shows(c, i - 1, ((xs + ExprItems(e.left, s, k)) + k) + TermItems(e.term, s', [Done(ExprRule(e), s)] + k))
    requires ExprSpelled(c.tokens, s, e) && ExprCallsFirst(e.left) && TermCallsFirst(e.term) && ExprIsSound(c, e)
    ensures ReadExpr(c, i).Ok? && ReadExpr(c, i).value.0 == e <==>
            (TermOpensWithCall(e.term) ==> TermEncloses(e.term) && e.left == Named(TermLeftover(e.term)))
  {
    hide ReadExpr, ReadTerm, RuleAt, Lacks, Shows, ExprItems, TermItems, TermResidue, ExprType, TermType, TermHasType,
         ExprYield, TermSpelled, TermCallsFirst, TermOpensWithCall, ExprCallsFirst, TopIsName, TermLeftover,
         TermEncloses;
    var top, s' := [Done(ExprRule(e), s)], s + |ExprYield(e.left)| + 1;
    var x, residue := (xs + ExprItems(e.left, s, k)) + k, TermResidue(e.term, s', top + k);
    SoundOperands(c, e);
    var tl, tt := OperandTypes(c.env, e, ExprType(c.env, e));
    LacksTop(k, ExprRule(e), s);
    TermReadBack(c, i - 1, x, e.term, tt, s', top + k);
    var j := |x + residue| - 1;
    LeftOfSum(c, i, e, j);
    if TermOpensWithCall(e.term) {
      var direct, pre, s0, z := TermLeaves(c.tokens, c.env, e.term, tt, s', top + k);
      if direct {
        CallIsAdded(c, j, xs, e, s, k, s', TermLeftover(e.term));
      } else {
        NameIsRead(c, j, x, residue, pre, s0, z, TermLeftover(e.term));
        ExprTypeIsUnique(c.env, e.left, tl);
      }
    } else {
      TermLeavesNothing(e.term, s', top + k);
      assert x + [] == (xs + ExprItems(e.left, s, k)) + k;
      SkipExpr(c, j, xs + ExprItems(e.left, s, k), k);
      ExprReadBack(c, |xs + ExprItems(e.left, s, k)| - 1, xs, e.left, tl, s, k);
    }
  }

  lemma SoundOperands(c: Context, e: Expr)
    requires !e.JustTerm? && ExprIsSound(c, e)
    ensures ExprHasType(c.env, e, ExprType(c.env, e)) && ExprType(c.env, e) != Invalid
    ensures ExprResolves(c, e.left) && TermResolves(c, e.term)
  {
    ExprTypeIsUnique(c.env, e, ExprType(c.env, e));
    hide ExprType, TermType, TermHasType, TermResolves;
  }

  // ----- products -----

  function Product(r: nat, l: Term, f: Factor): Term {
    if r == 32 then Times(l, f) else if r == 33 then Slash(l, f) else Percent(l, f)
  }

  lemma ProductIsRead(c: Context, i: int, r: nat, f: Factor, j: int)
    requires 0 <= i && Ready(c, i) && c.chart[i].rule == r && 32 <= r <= 34 && ReadFactor(c, i - 1) == Ok((f, j))
    ensures ReadTerm(c, i).Ok? ==> ReadTerm(c, j).Ok? && ReadTerm(c, i).value.0 == Product(r, ReadTerm(c, j).value.0, f)
  {
    hide RuleAt, Find, Lhs, ReadFactor, TermType;
    ProductRule(Product(r, JustFactor(f), f));
    FindHere(c.chart, TERM, i);
  }

  lemma LeftOfProduct(c: Context, i: int, t: Term, j: int)
    requires 0 <= i && Ready(c, i) && !t.JustFactor? && c.chart[i].rule == TermRule(t)
    requires ReadFactor(c, i - 1) == Ok((t.factor, j)) && TermType(c.env, t) != Invalid
    ensures ReadTerm(c, i).Ok? && ReadTerm(c, i).value.0 == t <==>
            ReadTerm(c, j).Ok? && ReadTerm(c, j).value.0 == t.left
  {
    hide RuleAt, ReadTerm, ReadFactor, TermType, FactorType;
    ProductIsRead(c, i, TermRule(t), t.factor, j);
    if ReadTerm(c, j).Ok? && ReadTerm(c, j).value.0 == t.left {
      FactorOfProduct(c, i, t, j, ReadTerm(c, j).value.1);
    }
  }

  /** The item of a name below the item of a product. */
  lemma NameOfProduct(c: Context, i: int, xs: seq<Elem>, name: string, s': nat, r: nat, s: nat)
    requires 32 <= r <= 34 && Shows(c, i, (xs + [Done(35, s')]) + [Done(r, s)]) && Spells(c.tokens, s', name)
    ensures 0 <= i && Ready(c, i) && c.chart[i].rule == r && Shows(c, |xs| - 1, xs)
    ensures ReadFactor(c, i - 1) == Ok((Id(name), |xs| - 1))
  {
    hide RuleAt, ReadFactor, Shows;
    TopShows(c, i, xs + [Done(35, s')], r, s);
    TopShows(c, i - 1, xs, 35, s');
    LeafStep(c, i - 1, Id(name));
  }

  /** A product of l and a name, at its top item, is not read as l. */
  lemma {:induction false} NotItsLeftTerm(c: Context, i: int, xs: seq<Elem>, t: Term, s: nat, k: seq<Elem>,
                                          name: string)
    requires !t.JustFactor? && t.factor == Id(name) && TermSpelled(c.tokens, s, t)
    requires Shows(c, i, xs + TermItems(t, s, k)) && Lacks(k, TERM)
    ensures ReadTerm(c, i).Ok? ==> ReadTerm(c, i).value.0 != t.left
    decreases t
  {
    hide RuleAt, Lacks, ReadTerm, ReadFactor, Shows;
    var l, s' := t.left, s + |TermYield(t.left)| + 1;
    ProductWithName(xs, t, s, k, name);
    assert Spells(c.tokens, s', name) by { assert FactorSpelled(c.tokens, s', Id(name)); }
    LeftTermIsSpelled(c.tokens, s, t);
    hide TermItems, TermYield, TermSpelled;
    NameOfProduct(c, i, (xs + TermItems(l, s, k)) + k, name, s', TermRule(t), s);
    var j := |(xs + TermItems(l, s, k)) + k| - 1;
    ProductIsRead(c, i, TermRule(t), t.factor, j);
    SkipTerm(c, j, xs + TermItems(l, s, k), k);
    if !l.JustFactor? && l.factor == t.factor {
      NotItsLeftTerm(c, |xs + TermItems(l, s, k)| - 1, xs, l, s, k, name);
    }
  }

  lemma ProductWithName(xs: seq<Elem>, t: Term, s: nat, k: seq<Elem>, name: string)
    requires !t.JustFactor? && t.factor == Id(name)
    ensures var s' := s + |TermYield(t.left)| + 1;
            xs + TermItems(t, s, k) == (((xs + TermItems(t.left, s, k)) + k) + [Done(35, s')]) + [Done(TermRule(t), s)]
  {
    hide RuleAt, TermYield;
    var s', top := s + |TermYield(t.left)| + 1, Done(TermRule(t), s);
    assert FactorItems(Id(name), s', [top] + k) == [Done(35, s')];
    assert TermItems(t, s, k) == TermItems(t.left, s, k) + k + [Done(35, s')] + [top];
    hide TermItems;
  }

  lemma LeftTermIsSpelled(tokens: seq<Token>, s: nat, t: Term)
    requires !t.JustFactor? && TermSpelled(tokens, s, t)
    ensures TermSpelled(tokens, s, t.left)
  {
    hide FactorSpelled;
  }

  lemma CallIsMultiplied(c: Context, j: int, xs: seq<Elem>, t: Term, s: nat, k: seq<Elem>, s': nat, name: string)
    requires !t.JustFactor? && TermSpelled(c.tokens, s, t) && Spells(c.tokens, s', name) && Lacks(k, TERM)
    requires Shows(c, j, ((xs + TermItems(t.left, s, k)) + k) + ([Done(35, s')] + ([Done(TermRule(t), s)] + k)))
    ensures ReadTerm(c, j).Ok? ==> ReadTerm(c, j).value.0 != t.left
  {
    hide RuleAt, Lacks, ReadTerm, ReadFactor, Shows, TermItems, TermSpelled;
    var x, names, top := (xs + TermItems(t.left, s, k)) + k, [Done(35, s')], [Done(TermRule(t), s)];
    assert x + (names + (top + k)) == ((x + names) + top) + k;
    SkipTerm(c, j, (x + names) + top, k);
    var i := |(x + names) + top| - 1;
    NameOfProduct(c, i, x, name, s', TermRule(t), s);
    ProductIsRead(c, i, TermRule(t), Id(name), |x| - 1);
    SkipTerm(c, |x| - 1, xs + TermItems(t.left, s, k), k);
    if !t.left.JustFactor? && t.left.factor == Id(name) {
      LeftTermIsSpelled(c.tokens, s, t);
      NotItsLeftTerm(c, |xs + TermItems(t.left, s, k)| - 1, xs, t.left, s, k, name);
    }
  }

  /** The same for a product: its right factor does not open with a call, unless an enclosed call leaves behind the left
      operand itself. */
  lemma ProductIsGivenBack(c: Context, i: int, xs: seq<Elem>, t: Term, s: nat, k: seq<Elem>)
    requires !t.JustFactor? && Shows(c, i, xs + TermItems(t, s, k)) && Lacks(k, TERM)
    requires TermSpelled(c.tokens, s, t) && TermCallsFirst(t.left) && FactorCallsFirst(t.factor)
    ensures Ready(c, i)
    ensures ReadTerm(c, i).Ok? && ReadTerm(c, i).value.0 == t <==>
            && TermHasType(c.env, t, Int) && TermResolves(c, t)
            && (FactorOpensWithCall(t.factor) ==>
                  FactorEncloses(t.factor) && t.left == JustFactor(Id(FactorLeftover(t.factor))))
  {
    hide ReadTerm, ReadFactor, RuleAt, Lacks, Shows, FactorItems, FactorType, TermYield, FactorHasType, FactorResolves,
         TermSpelled, FactorCallsFirst, FactorOpensWithCall, TermCallsFirst;
    var top, s' := Done(TermRule(t), s), s + |TermYield(t.left)| + 1;
    var x, f := (xs + TermItems(t.left, s, k)) + k, FactorItems(t.factor, s', [top] + k);
    assert xs + TermItems(t, s, k) == (x + f) + [top];
    hide TermItems;
    TopShows(c, i, x + f, TermRule(t), s);
    if ReadTerm(c, i).Ok? && ReadTerm(c, i).value.0 == t {
      ReadTermIsSound(c, i);
      ReadProductIsTyped(c, i);
    }
    if TermHasType(c.env, t, Int) && TermResolves(c, t) {
      TypedProduct(c, i, xs, t, s, k);
    }
  }

  lemma ReadProductIsTyped(c: Context, i: int)
    requires Ready(c, i) && ReadTerm(c, i).Ok? && !ReadTerm(c, i).value.0.JustFactor?
    ensures TermType(c.env, ReadTerm(c, i).value.0) == Int
  {
    hide RuleAt, ReadFactor, FactorType, Find;
  }

  lemma TypedProduct(c: Context, i: int, xs: seq<Elem>, t: Term, s: nat, k: seq<Elem>)
    requires !t.JustFactor? && 0 <= i && Ready(c, i) && c.chart[i].rule == TermRule(t) && Lacks(k, TERM)
    requires var s' := s + |TermYield(t.left)| + 1;
             Shows(c, i - 1,
                   ((xs + TermItems(t.left, s, k)) + k) + FactorItems(t.factor, s', [Done(TermRule(t), s)] + k))
    requires TermSpelled(c.tokens, s, t) && TermCallsFirst(t.left) && FactorCallsFirst(t.factor)
    requires TermHasType(c.env, t, Int) && TermResolves(c, t)
    ensures ReadTerm(c, i).Ok? && ReadTerm(c, i).value.0 == t <==>
            (FactorOpensWithCall(t.factor) ==>
               FactorEncloses(t.factor) && t.left == JustFactor(Id(FactorLeftover(t.factor))))
  {
    hide ReadTerm, ReadFactor, RuleAt, Lacks, Shows, TermItems, FactorItems, FactorResidue, TermType, FactorType,
         FactorHasType, TermYield, FactorSpelled, FactorCallsFirst, FactorOpensWithCall, TermCallsFirst, TopIsName,
         FactorLeftover, FactorEncloses;
    var top, s' := [Done(TermRule(t), s)], s + |TermYield(t.left)| + 1;
    var x, residue := (xs + TermItems(t.left, s, k)) + k, FactorResidue(t.factor, s', top + k);
    TermTypeIsUnique(c.env, t, Int);
    FactorReadBack(c, i - 1, x, t.factor, Int, s', top + k);
    var j := |x + residue| - 1;
    LeftOfProduct(c, i, t, j);
    if FactorOpensWithCall(t.factor) {
      var direct, pre, s0, z := FactorLeaves(c.tokens, c.env, t.factor, Int, s', top + k);
      if direct {
        CallIsMultiplied(c, j, xs, t, s, k, s', FactorLeftover(t.factor));
      } else {
        NameIsRead(c, j, x, residue, pre, s0, z, FactorLeftover(t.factor));
      }
    } else {
      FactorLeavesNothing(t.factor, s', top + k);
      assert x + [] == (xs + TermItems(t.left, s, k)) + k;
      SkipTerm(c, j, xs + TermItems(t.left, s, k), k);
      TermReadBack(c, |xs + TermItems(t.left, s, k)| - 1, xs, t.left, Int, s, k);
    }
  }

  // ----- arguments -----

  /** What more arguments than one are read as, where the later ones are read up to item j. */
  lemma ArgsAreRead(c: Context, i: int, rest: Arglist, j: int)
    requires 0 <= i && Ready(c, i) && c.chart[i].rule == 45 && ReadArglist(c, i - 1) == Ok((rest, j))
    ensures ReadArglist(c, i) ==
            match ReadExpr(c, j) case Ok((e, m)) => Ok((Args(e, rest), m)) case Err(error) => Err(error)
  {
    hide ReadExpr;
  }

  /** The same for arguments: the second one does not open with a call, unless that call leaves behind the first one.
      The first one is then left where it is. */
  lemma ArgsAreGivenBack(c: Context, i: int, xs: seq<Elem>, args: Arglist, s: nat, k: seq<Elem>)
    requires args.Args? && args.rest.Args? && Shows(c, i, xs + ArgsItems(args, s, k)) && Lacks(k, EXPR) &&
             Lacks(k, TERM)
    requires ArgsSpelled(c.tokens, s, args) && ExprCallsFirst(args.expr) && ArgsCallsFirst(args.rest)
    ensures Ready(c, i)
    ensures ReadArglist(c, i).Ok? && ReadArglist(c, i).value.0 == args <==>
            && ArgsHaveTypes(c.env, args) && ArgsResolve(c, args)
            && (ExprOpensWithCall(args.rest.expr) ==> args.expr == Named(ExprLeftover(args.rest.expr)))
  {
    hide ReadExpr, ReadArglist, RuleAt, Lacks, Shows, ExprItems, ExprHasType, ExprYield, ExprSpelled, ExprResolves,
         ExprCallsFirst, ArgsCallsFirst, ExprOpensWithCall;
    var one, more, s' := [Done(44, s)] + k, [Done(45, s)] + k, s + |ExprYield(args.expr)| + 1;
    var x, y := (xs + ExprItems(args.expr, s, one)) + one, ArgsItems(args.rest, s', more);
    assert xs + ArgsItems(args, s, k) == (x + y) + [Done(45, s)];
    hide ArgsItems;
    TopShows(c, i, x + y, 45, s);
    if ReadArglist(c, i).Ok? && ReadArglist(c, i).value.0 == args {
      ReadArglistIsSound(c, i);
    }
    if ArgsHaveTypes(c.env, args) && ArgsResolve(c, args) {
      TypedArgs(c, i, xs, args, s, k);
    }
  }

  lemma TypedArgs(c: Context, i: int, xs: seq<Elem>, args: Arglist, s: nat, k: seq<Elem>)
    requires args.Args? && args.rest.Args? && 0 <= i && Ready(c, i) && c.chart[i].rule == 45 && Lacks(k, EXPR) &&
             Lacks(k, TERM)
    requires var one, more, s' := [Done(44, s)] + k, [Done(45, s)] + k, s + |ExprYield(args.expr)| + 1;
             Shows(c, i - 1, ((xs + ExprItems(args.expr, s, one)) + one) + ArgsItems(args.rest, s', more))
    requires ArgsSpelled(c.tokens, s, args) && ExprCallsFirst(args.expr) && ArgsCallsFirst(args.rest)
    requires ArgsHaveTypes(c.env, args) && ArgsResolve(c, args)
    ensures ReadArglist(c, i).Ok? && ReadArglist(c, i).value.0 == args <==>
            (ExprOpensWithCall(args.rest.expr) ==> args.expr == Named(ExprLeftover(args.rest.expr)))
  {
    hide ReadExpr, ReadArglist, RuleAt, Lacks, Shows, ExprItems, ExprResidue, ExprHasType, ExprYield, ExprSpelled,
         ExprCallsFirst, ExprResolves, ArgsItems, ArgsCallsFirst, ExprOpensWithCall, TopIsName, ExprLeftover, ExprType;
    var e, rest, one, more := args.expr, args.rest, [Done(44, s)] + k, [Done(45, s)] + k;
    var s', x := s + |ExprYield(e)| + 1, (xs + ExprItems(e, s, one)) + one;
    var ty := if ExprHasType(c.env, e, Int) then Int else IntStar;
    var tr := if ExprHasType(c.env, rest.expr, Int) then Int else IntStar;
    LacksTop(k, 44, s);
    LacksTop(k, 45, s);
    LacksTop(more, 44, s');
    ArgsReadBack(c, i - 1, x, rest, s', more);
    var residue := ExprResidue(rest.expr, s', [Done(44, s')] + more);
    var j := |x + residue| - 1;
    ArgsAreRead(c, i, rest, j);
    ExprTypeIsUnique(c.env, e, ty);
    if ExprOpensWithCall(rest.expr) {
      var pre, s0, z := ExprLeaves(c.tokens, c.env, rest.expr, tr, s', [Done(44, s')] + more);
      NameIsRead(c, j, x, residue, pre, s0, z, ExprLeftover(rest.expr));
    } else {
      ExprLeavesNothing(rest.expr, s', [Done(44, s')] + more);
      assert x + [] == (xs + ExprItems(e, s, one)) + one;
      SkipExpr(c, j, xs + ExprItems(e, s, one), one);
      ExprReadBack(c, |xs + ExprItems(e, s, one)| - 1, xs, e, ty, s, one);
    }
  }

  // ----- a call in a later argument that does no harm -----

  /** The call g(f, f()). */
  function CallWithCall(g: string, f: string): Factor {
    Call(g, Args(Named(f), Args(JustTerm(JustFactor(Call(f, NoArgs))), NoArgs)))
  }

  function FirstArgs(f: string): Arglist {
    Args(Named(f), LastArgs(f))
  }

  function LastArgs(f: string): Arglist {
    Args(JustTerm(JustFactor(Call(f, NoArgs))), NoArgs)
  }

  /** What is left of the items of g(f, f()) when it has been read: the name of g, and the first argument. */
  function LeftOfCall(f: string, s: nat): seq<Elem> {
    ([Done(35, s), Done(31, s), Done(28, s)] + ExprItems(Named(f), s + 2, [Done(44, s + 2)])) + [Done(44, s + 2)]
  }

  lemma ItemsOfCall(xs: seq<Elem>, g: string, f: string, s: nat)
    ensures var last := ArgsItems(LastArgs(f), s + 4, [Done(45, s + 2)]);
            xs + ExprItems(JustTerm(JustFactor(CallWithCall(g, f))), s, []) ==
            (((((xs + LeftOfCall(f, s)) + last) + [Done(45, s + 2)]) + [Done(43, s)]) + [Done(31, s)]) + [Done(28, s)]
  {
    hide RuleAt, Done;
    var x, more := [Done(44, s + 2)], [Done(45, s + 2)];
    var e, last := ExprItems(Named(f), s + 2, x), ArgsItems(LastArgs(f), s + 4, more);
    assert TermYield(JustFactor(Id(f))) == [ID];
    assert x + [] == x && more + [] == more && |ExprYield(Named(f))| == 1;
    assert ArgsItems(FirstArgs(f), s + 2, []) == e + [Done(44, s + 2)] + [] + last + [Done(45, s + 2)];
    var k := [Done(31, s)] + ([Done(28, s)] + []);
    hide ArgsItems, ExprYield;
    assert FactorItems(CallWithCall(g, f), s, k) ==
           [Done(35, s)] + k + ArgsItems(FirstArgs(f), s + 2, []) + [Done(43, s)];
    assert TermItems(JustFactor(CallWithCall(g, f)), s, [Done(28, s)] + []) ==
           FactorItems(CallWithCall(g, f), s, k) + [Done(31, s)];
    assert ExprItems(JustTerm(JustFactor(CallWithCall(g, f))), s, []) ==
           TermItems(JustFactor(CallWithCall(g, f)), s, [Done(28, s)] + []) + [Done(28, s)];
  }

  lemma LeftByLast(f: string, s: nat, more: seq<Elem>)
    requires Lacks(more, EXPR) && Lacks(more, TERM)
    ensures TopIsName(ArgsResidue(LastArgs(f), s, more), [], s, [Done(44, s)] + more)
  {
    LacksTop(more, 44, s);
    hide RuleAt, Done, Lacks;
    var k := [Done(44, s)] + more;
    assert FactorResidue(Call(f, NoArgs), s, [Done(31, s)] + ([Done(28, s)] + k)) ==
           [Done(35, s)] + ([Done(31, s)] + ([Done(28, s)] + k)) + [];
    assert TermResidue(JustFactor(Call(f, NoArgs)), s, [Done(28, s)] + k) ==
           FactorResidue(Call(f, NoArgs), s, [Done(31, s)] + ([Done(28, s)] + k));
    assert ArgsResidue(LastArgs(f), s, more) == TermResidue(JustFactor(Call(f, NoArgs)), s, [Done(28, s)] + k);
  }

  lemma LastIsSpelled(tokens: seq<Token>, s: nat, f: string)
    requires ArgsSpelled(tokens, s, LastArgs(f))
    ensures Spells(tokens, s, f)
  {
    var t := JustFactor(Call(f, NoArgs));
    assert ExprSpelled(tokens, s, JustTerm(t)) <==> TermSpelled(tokens, s, t);
    assert TermSpelled(tokens, s, t) <==> FactorSpelled(tokens, s, Call(f, NoArgs));
  }

  lemma ArgsWithCall(c: Context, g: string, f: string, s: nat)
    requires FactorSpelled(c.tokens, s, CallWithCall(g, f)) && f in c.env && c.env[f] == Int && Resolves(c, f, NoArgs)
    ensures Spells(c.tokens, s, g) && Spells(c.tokens, s + 4, f) && ArgsSpelled(c.tokens, s + 4, LastArgs(f))
    ensures ArgsCallsFirst(LastArgs(f)) && ArgsHaveTypes(c.env, LastArgs(f)) && ArgsResolve(c, LastArgs(f))
    ensures ExprType(c.env, Named(f)) == Int && TermType(c.env, JustFactor(CallWithCall(g, f))) != Invalid
    ensures !FactorCallsFirst(CallWithCall(g, f))
  {
    var call := Call(f, NoArgs);
    assert TermYield(JustFactor(Id(f))) == [ID] && |ExprYield(Named(f))| == 1;
    assert ArgsSpelled(c.tokens, s + 2, FirstArgs(f)) && ArgsSpelled(c.tokens, s + 4, LastArgs(f));
    LastIsSpelled(c.tokens, s + 4, f);
    assert FactorCallsFirst(call) && FactorHasType(c.env, call, Int) && FactorResolves(c, call) &&
           FactorOpensWithCall(call);
    assert TermCallsFirst(JustFactor(call)) && TermHasType(c.env, JustFactor(call), Int) &&
           TermResolves(c, JustFactor(call));
    assert TermOpensWithCall(JustFactor(call)) && ExprOpensWithCall(JustTerm(JustFactor(call)));
    assert FactorType(c.env, Id(f)) == Int && TermType(c.env, JustFactor(Id(f))) == Int;
    assert !ArgsCallsFirst(FirstArgs(f));
  }

  /** The call g(f, f()), where an int variable has the name of the procedure f, does not have its calls first and is
      given back: what f() leaves behind is read as the first argument, which is left. */
  lemma CallIsGivenBack(c: Context, i: int, xs: seq<Elem>, g: string, f: string, s: nat)
    requires Shows(c, i, xs + ExprItems(JustTerm(JustFactor(CallWithCall(g, f))), s, []))
    requires FactorSpelled(c.tokens, s, CallWithCall(g, f)) && f in c.env && c.env[f] == Int
    requires Resolves(c, f, NoArgs) && Resolves(c, g, FirstArgs(f))
    ensures !ExprCallsFirst(JustTerm(JustFactor(CallWithCall(g, f))))
    ensures Shows(c, |xs + LeftOfCall(f, s)| - 1, xs + LeftOfCall(f, s)) && Ready(c, i)
    ensures ReadExpr(c, i) == Ok((JustTerm(JustFactor(CallWithCall(g, f))), |xs + LeftOfCall(f, s)| - 1))
  {
    hide RuleAt, ReadExpr, ReadTerm, ReadFactor, ReadArglist, ExprItems, ArgsItems, Shows, LeftOfCall, FactorSpelled,
         ArgsSpelled, ArgsResidue, Resolves, TopIsName, Lacks, ArgsCallsFirst, ArgsHaveTypes, ArgsResolve, ExprType,
         TermType, Done;
    var x, more := xs + LeftOfCall(f, s), [Done(45, s + 2)];
    var last := ArgsItems(LastArgs(f), s + 4, more);
    ArgsWithCall(c, g, f, s);
    ItemsOfCall(xs, g, f, s);
    TopShows(c, i, (((x + last) + more) + [Done(43, s)]) + [Done(31, s)], 28, s);
    TopShows(c, i - 1, ((x + last) + more) + [Done(43, s)], 31, s);
    TopShows(c, i - 2, (x + last) + more, 43, s);
    TopShows(c, i - 3, x + last, 45, s + 2);
    LacksNone();
    LacksTop([], 45, s + 2);
    assert more + [] == more;
    ArgsReadBack(c, i - 4, x, LastArgs(f), s + 4, more);
    var residue := ArgsResidue(LastArgs(f), s + 4, more);
    LeftByLast(f, s + 4, more);
    assert x + [] == x;
    NameIsRead(c, |x + residue| - 1, x, residue, [], s + 4, [Done(44, s + 4)] + more, f);
    TopIs(c, i, s);
    EarlierArg(c, i - 3, Named(f), LastArgs(f), |x + residue| - 1, |x| - 1);
    CallStep(c, i - 2, g, FirstArgs(f), |x| - 1);
    FactorAlone(c, i - 1, CallWithCall(g, f), |x| - 1);
    TermAlone(c, i, JustFactor(CallWithCall(g, f)), |x| - 1);
  }

  lemma TopIs(c: Context, i: int, s: nat)
    requires 3 <= i < |c.chart| && c.chart[i] == Done(28, s) && c.chart[i - 1] == Done(31, s) &&
             c.chart[i - 2] == Done(43, s)
    requires c.chart[i - 3] == Done(45, s + 2)
    ensures c.chart[i].rule == 28 && c.chart[i - 1].rule == 31 && c.chart[i - 2].rule == 43 && c.chart[i - 2].start == s
    ensures c.chart[i - 3].rule == 45
  {
    hide RuleAt;
  }
}
