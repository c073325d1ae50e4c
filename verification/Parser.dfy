/** The parser: a cursor that walks the final chart from its end, and the tables it fills on the way. */
module Parser {
  import opened Options
  import opened Symbols
  import opened Tokens
  import opened Earley
  import opened Wlp4Grammar
  import opened Numerals
  import opened Ast
  import opened Types
  import opened Reading
  import opened Passes

  /** The outcome of a method with the cursor it leaves is the one computed by a reading function. */
  predicate Agrees<T(==)>(spec: Result<(T, int)>, r: Result<T>, cursor: int) {
    match spec
    case Err(error) => r == Err(error)
    case Ok((value, j)) => r == Ok(value) && cursor == j
  }

  /** A procedure while its parts are collected. */
  class ProcedureNode {
    const name: string
    var params: seq<Dcl>
    var dcls: seq<Dcl>
    var stmts: seq<Statement>
    var ret: Option<Expr>

    constructor (name: string)
      ensures View() == Draft(name, [], [], [], None)
    {
      this.name := name;
      params, dcls, stmts, ret := [], [], [], None;
    }

    function View(): Draft
      reads this
    {
      Draft(name, params, dcls, stmts, ret)
    }

    /** Whether the name is not yet declared. */
    method ValidateName(id: string) returns (ok: bool)
      ensures ok <==> !Declares(View(), id)
    {
      for i := 0 to |params|
        invariant forall j :: 0 <= j < i ==> params[j].id != id
      {
        if params[i].id == id {
          return false;
        }
      }
      for i := 0 to |dcls|
        invariant forall j :: 0 <= j < i ==> dcls[j].id != id
      {
        if dcls[i].id == id {
          return false;
        }
      }
      ok := true;
    }

    method AddParam(d: Dcl) returns (r: Result<()>)
      modifies this`params
      ensures match Passes.AddParam(old(View()), d)
              case Err(error) => r == Err(error) && View() == old(View())
              case Ok(p) => r == Ok(()) && View() == p
    {
      var ok := ValidateName(d.id);
      if !ok {
        return Err(Redeclared(d.id));
      }
      params := params + [d];
      return Ok(());
    }

    method AddDeclaration(d: Dcl) returns (r: Result<()>)
      modifies this`dcls
      ensures match Passes.AddDeclaration(old(View()), d)
              case Err(error) => r == Err(error) && View() == old(View())
              case Ok(p) => r == Ok(()) && View() == p
    {
      var ok := ValidateName(d.id);
      if !ok {
        return Err(Redeclared(d.id));
      }
      dcls := dcls + [d];
      return Ok(());
    }

    method AddStatement(s: Statement)
      modifies this`stmts
      ensures View() == old(View()).(stmts := [s] + old(stmts))
    {
      stmts := [s] + stmts;
    }

    method SetReturnExpr(e: Expr)
      modifies this`ret
      ensures View() == old(View()).(ret := Some(e))
    {
      ret := Some(e);
    }
  }

  /** Once the caller is passed, no callee is declared in time. */
  lemma NoneLater(names: seq<string>, caller: string, callee: string, i: nat)
    requires i < |names| && names[i] == caller
    requires !exists j :: 0 <= j <= i && names[j] == callee && caller !in names[..j]
    ensures !DeclaredInTime(names, caller, callee)
  {
    forall j | i < j < |names|
      ensures caller in names[..j]
    {
      assert names[..j][i] == caller;
    }
  }

  /** Statements from item i: those read so far come after what is still to be read from item j, unless it is done. */
  ghost predicate BodySoFar(c: Context, i: int, j: int, done: bool, stmts: seq<Statement>)
    requires Ready(c, i) && Ready(c, j)
  {
    if done then ReadBody(c, i) == Ok((stmts, j))
    else
      match ReadStatement(c, j)
      case Err(error) => ReadBody(c, i) == Err(error)
      case Ok((s, m)) =>
        match ReadBody(c, m)
        case Err(error) => ReadBody(c, i) == Err(error)
        case Ok((front, n)) => ReadBody(c, i) == Ok((front + [s] + stmts, n))
  }

  lemma BodyStarts(c: Context, i: int, n: int, done: bool)
    requires Ready(c, i) && Ready(c, n)
    requires var k := Find(c.chart, STATEMENTS, i);
             k >= 0 && n == k - 1 && (done <==> RuleAt(c.chart[k].rule).rhs == [])
    ensures BodySoFar(c, i, n, done, [])
  {
    hide RuleAt, Find, ReadStatement;
    if !done && ReadStatement(c, n).Ok? && ReadBody(c, ReadStatement(c, n).value.1).Ok? {
      var (s, m) := ReadStatement(c, n).value;
      var front := ReadBody(c, m).value.0;
      assert front + [s] + [] == front + [s];
    }
  }

  lemma BodyMissing(c: Context, i: int)
    requires Ready(c, i)
    ensures Find(c.chart, STATEMENTS, i) < 0 ==> ReadBody(c, i) == Err(Missing(STATEMENTS))
  {
  }

  lemma BodyGoesOn(c: Context, i: int, j: int, m: int, n: int, done: bool, stmts: seq<Statement>, s: Statement)
    requires Ready(c, i) && Ready(c, j) && Ready(c, m) && Ready(c, n) && BodySoFar(c, i, j, false, stmts)
    requires ReadStatement(c, j) == Ok((s, m))
    requires var k := Find(c.chart, STATEMENTS, m);
             k >= 0 && n == k - 1 && (done <==> RuleAt(c.chart[k].rule).rhs == [])
    ensures BodySoFar(c, i, n, done, [s] + stmts)
  {
    hide RuleAt, Find, ReadStatement;
    if done {
      assert [] + [s] + stmts == [s] + stmts;
      assert ReadBody(c, m) == Ok(([], n));
    } else if ReadStatement(c, n).Ok? && ReadBody(c, ReadStatement(c, n).value.1).Ok? {
      var (t, j') := ReadStatement(c, n).value;
      var front := ReadBody(c, j').value.0;
      assert (front + [t]) + [s] + stmts == front + [t] + ([s] + stmts);
    }
  }

  class Parser {
    const chart: seq<Elem>
    const tokens: seq<Token>
    var elemIdx: int
    var name: string
    var types: map<string, TypeEnv>
    var names: seq<string>
    var arity: map<string, nat>
    var procedures: seq<Draft>

    constructor (chart: seq<Elem>, tokens: seq<Token>)
      requires IsChart(chart)
      ensures this.chart == chart && this.tokens == tokens && procedures == []
      ensures Valid() && elemIdx == |chart| - 1 && name == "" && State() == NO_TABLES
    {
      this.chart, this.tokens := chart, tokens;
      elemIdx, name, types, names, arity, procedures := |chart| - 1, "", map[], [], map[], [];
    }

    predicate Valid()
      reads this`elemIdx
    {
      IsChart(chart) && -1 <= elemIdx < |chart|
    }

    function State(): Tables
      reads this`types, this`names, this`arity
    {
      Tables(types, names, arity)
    }

    /** What the current procedure is read against. */
    function Current(): Context
      reads this`types, this`names, this`arity, this`name
    {
      ContextOf(chart, tokens, State(), name)
    }

    /** Fails when there is no item with the wanted left-hand side at or below the cursor. */
    method GotoCorrectRule(sym: Symbol) returns (r: Result<()>)
      requires Valid()
      modifies this`elemIdx
      ensures Valid() && elemIdx == Find(chart, sym, old(elemIdx))
      ensures r == if elemIdx < 0 then Err(Missing(sym)) else Ok(())
    {
      while elemIdx >= 0 && Lhs(chart, elemIdx) != sym
        invariant Valid() && Find(chart, sym, elemIdx) == Find(chart, sym, old(elemIdx))
        decreases elemIdx
      {
        elemIdx := elemIdx - 1;
      }
      r := if elemIdx < 0 then Err(Missing(sym)) else Ok(());
    }

    method GetToken(n: nat) returns (r: Result<string>)
      ensures r == ValueAt(tokens, n)
    {
      r := if n < |tokens| then Ok(tokens[n].value) else Err(OutOfRange);
    }

    // ----- expressions -----

    method ParseExpr() returns (r: Result<Expr>)
      requires Valid()
      modifies this`elemIdx
      ensures Valid() && Agrees(ReadExpr(Current(), old(elemIdx)), r, elemIdx)
      decreases elemIdx + 1
    {
      hide RuleAt, Find, ReadTerm, ExprType, TermType;
      var _ :- GotoCorrectRule(EXPR);
      var rhs := RuleAt(chart[elemIdx].rule).rhs;
      elemIdx := elemIdx - 1;
      var t :- ParseTerm();
      var e := JustTerm(t);
      if |rhs| > 1 {
        if rhs[1] == PLUS {
          var l :- ParseExpr();
          e := Plus(l, t);
        } else if rhs[1] == MINUS {
          var l :- ParseExpr();
          e := Minus(l, t);
        }
      }
      if ExprType(Current().env, e) == Invalid {
        return Err(InvalidExpr);
      }
      return Ok(e);
    }

    method ParseTerm() returns (r: Result<Term>)
      requires Valid()
      modifies this`elemIdx
      ensures Valid() && Agrees(ReadTerm(Current(), old(elemIdx)), r, elemIdx)
      decreases elemIdx + 1
    {
      hide RuleAt, Find, ReadFactor, TermType;
      var _ :- GotoCorrectRule(TERM);
      var rhs := RuleAt(chart[elemIdx].rule).rhs;
      elemIdx := elemIdx - 1;
      var f :- ParseFactor();
      if |rhs| <= 1 {
        return Ok(JustFactor(f));
      }
      var l :- ParseTerm();
      var t := if rhs[1] == STAR then Times(l, f) else if rhs[1] == SLASH then Slash(l, f) else Percent(l, f);
      if TermType(Current().env, t) == Invalid {
        return Err(IntsExpected);
      }
      return Ok(t);
    }

    /** The callee must be declared, and no later than the caller; wain does not call itself. */
    method CheckValidCall(caller: string, callee: string) returns (r: Result<()>)
      requires caller == name
      ensures r == match CheckCall(Current(), callee) case None => Ok(()) case Some(error) => Err(error)
      ensures r.Ok? ==> callee in arity
    {
      if callee !in arity {
        return Err(UnknownProcedure);
      } else if caller == "wain" && callee == "wain" {
        return Err(WainCallsItself);
      }
      var declaredBefore := false;
      for i := 0 to |names|
        invariant declaredBefore <==> exists j :: 0 <= j < i && names[j] == callee && caller !in names[..j]
        invariant !declaredBefore ==> caller !in names[..i]
      {
        assert names[..i + 1] == names[..i] + [names[i]];
        if names[i] == callee {
          declaredBefore := true;
        } else if names[i] == caller {
          if !declaredBefore {
            NoneLater(names, caller, callee, i);
          }
          break;
        }
      }
      if !declaredBefore {
        return Err(DeclaredLater);
      }
      return Ok(());
    }

    method ParseFactor() returns (r: Result<Factor>)
      requires Valid()
      modifies this`elemIdx
      ensures Valid() && Agrees(ReadFactor(Current(), old(elemIdx)), r, elemIdx)
      decreases elemIdx + 1
    {
      hide RuleAt, Find, ReadExpr, ReadLvalue, ReadLeaf, ReadCall, ExprType, LvalueType, FactorType;
      var _ :- GotoCorrectRule(FACTOR);
      FactorRules(chart[elemIdx].rule);
      var rhs := RuleAt(chart[elemIdx].rule).rhs;
      if |rhs| > 1 {
        if rhs[0] == ID {
          r := ParseCall();
        } else {
          elemIdx := elemIdx - 1;
          if rhs[0] == LPAREN {
            var e :- ParseExpr();
            return Ok(Paren(e));
          } else if rhs[0] == AMP {
            var l :- ParseLvalue();
            if LvalueType(Current().env, l) != Int {
              return Err(IntExpected);
            }
            return Ok(AddressOf(l));
          } else if rhs[0] == STAR {
            var f :- ParseFactor();
            if FactorType(Current().env, f) != IntStar {
              return Err(PointerExpected);
            }
            return Ok(Deref(f));
          } else {
            var e :- ParseExpr();
            if ExprType(Current().env, e) != Int {
              return Err(IntExpected);
            }
            return Ok(NewArray(e));
          }
        }
      } else {
        r := ParseLeaf();
      }
    }

    /** The part of ParseFactor for a single token. */
    method ParseLeaf() returns (r: Result<Factor>)
      requires Valid() && 0 <= elemIdx && Lhs(chart, elemIdx) == FACTOR
      modifies this`elemIdx
      ensures Valid() && Agrees(ReadLeaf(Current(), old(elemIdx)), r, elemIdx)
    {
      FactorRules(chart[elemIdx].rule);
      var rhs := RuleAt(chart[elemIdx].rule).rhs;
      var f := NullValue;
      if rhs[0] == ID {
        var value :- GetToken(chart[elemIdx].start);
        f := Id(value);
      } else if rhs[0] == NUM {
        var value :- GetToken(chart[elemIdx].start);
        match Stoi(value)
        case None => return Err(BadNumber);
        case Some(n) => f := Num(n);
      }
      elemIdx := elemIdx - 1;
      return Ok(f);
    }

    /** The part of ParseFactor for calls. */
    method ParseCall() returns (r: Result<Factor>)
      requires Valid() && 0 <= elemIdx
      modifies this`elemIdx
      ensures Valid() && Agrees(ReadCall(Current(), old(elemIdx)), r, elemIdx)
      decreases elemIdx + 1, 0
    {
      var rhs := RuleAt(chart[elemIdx].rule).rhs;
      var callee :- GetToken(chart[elemIdx].start);
      var _ :- CheckValidCall(name, callee);
      elemIdx := elemIdx - 1;
      if |rhs| == 3 {
        if arity[callee] != 0 {
          return Err(WrongArity);
        }
        return Ok(Call(callee, NoArgs));
      }
      var args :- ParseArglist();
      if NumArgs(args) != arity[callee] {
        return Err(WrongArity);
      }
      return Ok(Call(callee, args));
    }

    method ParseLvalue() returns (r: Result<Lvalue>)
      requires Valid()
      modifies this`elemIdx
      ensures Valid() && Agrees(ReadLvalue(Current(), old(elemIdx)), r, elemIdx)
      decreases elemIdx + 1
    {
      hide RuleAt, Find, ReadFactor, FactorType;
      var _ :- GotoCorrectRule(LVALUE);
      LvalueRules(chart[elemIdx].rule);
      var rhs := RuleAt(chart[elemIdx].rule).rhs;
      if rhs[0] == ID {
        var value :- GetToken(chart[elemIdx].start);
        elemIdx := elemIdx - 1;
        return Ok(Var(value));
      }
      elemIdx := elemIdx - 1;
      if rhs[0] == STAR {
        var f :- ParseFactor();
        if FactorType(Current().env, f) != IntStar {
          return Err(PointerExpected);
        }
        return Ok(Target(f));
      }
      var l :- ParseLvalue();
      return Ok(Enclosed(l));
    }

    method ParseArglist() returns (r: Result<Arglist>)
      requires Valid()
      modifies this`elemIdx
      ensures Valid() && Agrees(ReadArglist(Current(), old(elemIdx)), r, elemIdx)
      decreases elemIdx + 1
    {
      hide RuleAt, Find, ReadExpr;
      var _ :- GotoCorrectRule(ARGLIST);
      var rhs := RuleAt(chart[elemIdx].rule).rhs;
      elemIdx := elemIdx - 1;
      if |rhs| == 1 {
        var e :- ParseExpr();
        return Ok(Args(e, NoArgs));
      }
      var rest :- ParseArglist();
      var e :- ParseExpr();
      return Ok(Args(e, rest));
    }

    // ----- statements -----

    /** Whether the statements are the empty list. */
    method ParseStatements() returns (r: Result<bool>)
      requires Valid()
      modifies this`elemIdx
      ensures Valid()
      ensures var k := Find(chart, STATEMENTS, old(elemIdx));
              if k < 0 then r == Err(Missing(STATEMENTS))
              else r == Ok(RuleAt(chart[k].rule).rhs == []) && elemIdx == k - 1
    {
      var _ :- GotoCorrectRule(STATEMENTS);
      var rhs := RuleAt(chart[elemIdx].rule).rhs;
      elemIdx := elemIdx - 1;
      return Ok(rhs == []);
    }

    /** The loop that reads a list of statements and prepends each one. */
    method ParseBody() returns (r: Result<seq<Statement>>)
      requires Valid()
      modifies this`elemIdx
      ensures Valid() && Agrees(ReadBody(Current(), old(elemIdx)), r, elemIdx)
      decreases elemIdx + 1
    {
      hide RuleAt, Find, ReadStatement, ReadBody;
      var stmts := [];
      BodyMissing(Current(), elemIdx);
      var done :- ParseStatements();
      BodyStarts(Current(), old(elemIdx), elemIdx, done);
      while !done
        invariant Valid() && elemIdx < old(elemIdx)
        invariant BodySoFar(Current(), old(elemIdx), elemIdx, done, stmts)
        decreases elemIdx + 1, !done
      {
        ghost var j := elemIdx;
        var s :- ParseStatement();
        ghost var m := elemIdx;
        BodyMissing(Current(), m);
        done :- ParseStatements();
        BodyGoesOn(Current(), old(elemIdx), j, m, elemIdx, done, stmts, s);
        stmts := [s] + stmts;
      }
      return Ok(stmts);
    }

    method ParseStatement() returns (r: Result<Statement>)
      requires Valid()
      modifies this`elemIdx
      ensures Valid() && Agrees(ReadStatement(Current(), old(elemIdx)), r, elemIdx)
      decreases elemIdx + 1
    {
      hide RuleAt, Find, ReadExpr, ReadLvalue, ReadBody, ReadTest, ExprType, LvalueType;
      var _ :- GotoCorrectRule(STATEMENT);
      StatementRules(chart[elemIdx].rule);
      var rhs := RuleAt(chart[elemIdx].rule).rhs;
      elemIdx := elemIdx - 1;
      if rhs[0] == LVALUE {
        var e :- ParseExpr();
        var l :- ParseLvalue();
        if ExprType(Current().env, e) != LvalueType(Current().env, l) {
          return Err(DifferentTypes);
        }
        return Ok(Assign(l, e));
      } else if rhs[0] == IF {
        var onFalse :- ParseBody();
        var onTrue :- ParseBody();
        var test :- ParseTest();
        return Ok(If(test, onTrue, onFalse));
      } else if rhs[0] == WHILE {
        var body :- ParseBody();
        var test :- ParseTest();
        return Ok(While(test, body));
      } else if rhs[0] == PRINTLN {
        var e :- ParseExpr();
        if ExprType(Current().env, e) != Int {
          return Err(IntExpected);
        }
        return Ok(Println(e));
      } else {
        var e :- ParseExpr();
        if ExprType(Current().env, e) != IntStar {
          return Err(PointerExpected);
        }
        return Ok(Delete(e));
      }
    }

    method ParseTest() returns (r: Result<Test>)
      requires Valid()
      modifies this`elemIdx
      ensures Valid() && Agrees(ReadTest(Current(), old(elemIdx)), r, elemIdx)
    {
      hide RuleAt, Find, ReadExpr, ExprType;
      var _ :- GotoCorrectRule(TEST);
      TestRules(chart[elemIdx].rule);
      var rhs := RuleAt(chart[elemIdx].rule).rhs;
      elemIdx := elemIdx - 1;
      var right :- ParseExpr();
      var left :- ParseExpr();
      if ExprType(Current().env, right) != ExprType(Current().env, left) {
        return Err(DifferentTypes);
      }
      return Ok(Test(rhs[1], left, right));
    }

    // ----- declarations and parameters -----

    method AddDclToProc(d: Dcl)
      modifies this`types
      ensures State() == AddDcl(old(State()), name, d)
    {
      if name !in types {
        types := types[name := map[]];
      }
      types := types[name := types[name][d.id := d.dclType]];
    }

    /** The kind of the initial value of the last declaration, if there is one. */
    method ParseDcls() returns (r: Result<Option<Symbol>>)
      requires Valid()
      modifies this`elemIdx
      ensures Valid()
      ensures var k := Find(chart, DCLS, old(elemIdx));
              if k < 0 then r == Err(Missing(DCLS))
              else
                && elemIdx == k - 1
                && r == Ok(if RuleAt(chart[k].rule).rhs == [] then None
                           else (DclsRules(chart[k].rule); Some(RuleAt(chart[k].rule).rhs[3])))
    {
      var _ :- GotoCorrectRule(DCLS);
      var rhs := RuleAt(chart[elemIdx].rule).rhs;
      if rhs != [] {
        DclsRules(chart[elemIdx].rule);
      }
      elemIdx := elemIdx - 1;
      return Ok(if rhs == [] then None else Some(rhs[3]));
    }

    method ParseDcl(sym: Option<Symbol>) returns (r: Result<Dcl>)
      requires Valid()
      modifies this`elemIdx, this`types
      ensures Valid() && Agrees(ReadDcl(chart, tokens, old(elemIdx), sym), r, elemIdx)
      ensures State() == match r case Err(_) => old(State()) case Ok(d) => AddDcl(old(State()), name, d)
    {
      var _ :- GotoCorrectRule(DCL);
      hide RuleAt, Find;
      var value := "";
      if sym.Some? {
        value :- GetToken(chart[elemIdx].start + if sym.value == NUM then 3 else 4);
      }
      elemIdx := elemIdx - 1;
      if elemIdx < 0 {
        return Err(OutOfRange);
      }
      var isInt := |RuleAt(chart[elemIdx].rule).rhs| == 1;
      var id :- GetToken(chart[elemIdx].start + if isInt then 1 else 2);
      elemIdx := elemIdx - 1;
      var d := Dcl(id, if isInt then Int else IntStar, value);
      AddDclToProc(d);
      return Ok(d);
    }

    /** Whether the parameters are the empty list. */
    method ParseParams() returns (r: Result<bool>)
      requires Valid()
      modifies this`elemIdx
      ensures Valid()
      ensures var k := Find(chart, PARAMS, old(elemIdx));
              if k < 0 then r == Err(Missing(PARAMS))
              else r == Ok(RuleAt(chart[k].rule).rhs == []) && elemIdx == k - 1
    {
      var _ :- GotoCorrectRule(PARAMS);
      var rhs := RuleAt(chart[elemIdx].rule).rhs;
      elemIdx := elemIdx - 1;
      return Ok(rhs == []);
    }

    method ParseWainParams() returns (r: Result<(Dcl, Dcl)>)
      requires Valid()
      modifies this`elemIdx, this`types
      ensures Valid()
      ensures match ReadWainParams(chart, tokens, old(elemIdx))
              case Err(error) => r == Err(error)
              case Ok((d1, d2, j)) =>
                r == Ok((d1, d2)) && elemIdx == j && State() == AddDcl(AddDcl(old(State()), name, d2), name, d1)
    {
      hide ReadDcl;
      var d2 :- ParseDcl(None);
      if d2.dclType != Int {
        return Err(IntExpected);
      }
      var d1 :- ParseDcl(None);
      return Ok((d1, d2));
    }

    // ----- the first pass -----

    /** The declarations of a procedure, for their types alone. */
    method SkimDcls() returns (r: Result<()>)
      requires Valid()
      modifies this`elemIdx, this`types
      ensures Valid()
      ensures match CollectDcls(chart, tokens, old(elemIdx), old(State()), name, None)
              case Err(error) => r == Err(error)
              case Ok((t, _, j)) => r == Ok(()) && State() == t && elemIdx == j
    {
      hide RuleAt, Find, ReadDcl;
      while true
        invariant Valid() && elemIdx <= old(elemIdx)
        invariant CollectDcls(chart, tokens, elemIdx, State(), name, None) ==
                  CollectDcls(chart, tokens, old(elemIdx), old(State()), name, None)
        decreases elemIdx + 1
      {
        var sym :- ParseDcls();
        if sym.None? {
          return Ok(());
        }
        var d :- ParseDcl(None);
      }
    }

    /** The parameters of a procedure, for their types and their number. */
    method CountParams() returns (r: Result<()>)
      requires Valid()
      modifies this`elemIdx, this`types, this`arity
      ensures Valid()
      ensures match CollectParams(chart, tokens, old(elemIdx), old(State()), name, None)
              case Err(error) => r == Err(error)
              case Ok((t, _, j)) => r == Ok(()) && State() == t && elemIdx == j
    {
      hide RuleAt, Find, ReadDcl;
      while true
        invariant Valid() && elemIdx <= old(elemIdx)
        invariant CollectParams(chart, tokens, elemIdx, State(), name, None) ==
                  CollectParams(chart, tokens, old(elemIdx), old(State()), name, None)
        decreases elemIdx + 1
      {
        var done :- ParseParams();
        if done {
          return Ok(());
        }
        var d :- ParseDcl(None);
        arity := arity[name := 1 + if name in arity then arity[name] else 0];
      }
    }

    method PopulateTables() returns (r: Result<()>)
      requires Valid()
      modifies this`elemIdx, this`name, this`types, this`names, this`arity
      ensures Valid()
      ensures match FirstPass(chart, tokens, |chart| - 1, old(name), old(State()))
              case Err(error) => r == Err(error)
              case Ok(t) => r == Ok(()) && State() == t
    {
      hide RuleAt, CollectDcls, CollectParams, ReadWainParams;
      elemIdx := |chart| - 1;
      while elemIdx >= 0
        invariant Valid()
        invariant FirstPass(chart, tokens, elemIdx, name, State()) ==
                  FirstPass(chart, tokens, |chart| - 1, old(name), old(State()))
        decreases elemIdx + 1
      {
        var lhs := Lhs(chart, elemIdx);
        if lhs == PROCEDURE || lhs == MAIN {
          name :- GetToken(chart[elemIdx].start + 1);
          names := [name] + names;
          elemIdx := elemIdx - 1;
          if name in arity {
            return Err(Redeclared(name));
          }
          arity := arity[name := if name == "wain" then 2 else 0];
        } else if lhs == DCLS {
          var _ :- SkimDcls();
        } else if lhs == DCL && name == "wain" {
          var _ :- ParseWainParams();
        } else if lhs == PARAMS {
          var _ :- CountParams();
        } else {
          elemIdx := elemIdx - 1;
        }
      }
      return Ok(());
    }

    // ----- the second pass -----

    method BuildDcls(proc: ProcedureNode) returns (r: Result<()>)
      requires Valid() && proc.name == name
      modifies this`elemIdx, this`types, proc`dcls
      ensures Valid()
      ensures match CollectDcls(chart, tokens, old(elemIdx), old(State()), name, Some(old(proc.View())))
              case Err(error) => r == Err(error)
              case Ok((t, p, j)) => r == Ok(()) && State() == t && proc.View() == p.value && elemIdx == j
    {
      hide RuleAt, Find, ReadDcl, Declares;
      while true
        invariant Valid() && elemIdx <= old(elemIdx)
        invariant CollectDcls(chart, tokens, elemIdx, State(), name, Some(proc.View())) ==
                  CollectDcls(chart, tokens, old(elemIdx), old(State()), name, Some(old(proc.View())))
        decreases elemIdx + 1
      {
        var sym :- ParseDcls();
        if sym.None? {
          return Ok(());
        }
        var d :- ParseDcl(sym);
        var _ :- proc.AddDeclaration(d);
      }
    }

    method BuildParams(proc: ProcedureNode) returns (r: Result<()>)
      requires Valid() && proc.name == name
      modifies this`elemIdx, this`types, proc`params
      ensures Valid()
      ensures match CollectParams(chart, tokens, old(elemIdx), old(State()), name, Some(old(proc.View())))
              case Err(error) => r == Err(error)
              case Ok((t, p, j)) => r == Ok(()) && State() == t && proc.View() == p.value && elemIdx == j
    {
      hide RuleAt, Find, ReadDcl, Declares;
      while true
        invariant Valid() && elemIdx <= old(elemIdx)
        invariant CollectParams(chart, tokens, elemIdx, State(), name, Some(proc.View())) ==
                  CollectParams(chart, tokens, old(elemIdx), old(State()), name, Some(old(proc.View())))
        decreases elemIdx + 1
      {
        var done :- ParseParams();
        if done {
          return Ok(());
        }
        var d :- ParseDcl(None);
        var _ :- proc.AddParam(d);
      }
    }

    method BuildWainParams(proc: ProcedureNode) returns (r: Result<()>)
      requires Valid() && proc.name == name
      modifies this`elemIdx, this`types, proc`params
      ensures Valid()
      ensures match ReadWainParams(chart, tokens, old(elemIdx))
              case Err(error) => r == Err(error)
              case Ok((d1, d2, j)) =>
                match AddWainParams(old(proc.View()), d1, d2)
                case Err(error) => r == Err(error)
                case Ok(p) =>
                  && r == Ok(()) && proc.View() == p && elemIdx == j
                  && State() == AddDcl(AddDcl(old(State()), name, d2), name, d1)
    {
      hide Declares, ReadWainParams;
      var ds :- ParseWainParams();
      var _ :- proc.AddParam(ds.0);
      var _ :- proc.AddParam(ds.1);
      return Ok(());
    }

    method BuildBody(proc: ProcedureNode) returns (r: Result<()>)
      requires Valid() && proc.name == name
      modifies this`elemIdx, proc`stmts
      ensures Valid()
      ensures match ReadBody(Current(), old(elemIdx))
              case Err(error) => r == Err(error)
              case Ok((stmts, j)) =>
                r == Ok(()) && proc.View() == old(proc.View()).(stmts := stmts + old(proc.stmts)) && elemIdx == j
    {
      hide RuleAt, Find, ReadStatement, ReadBody;
      ghost var stmts := [];
      BodyMissing(Current(), elemIdx);
      var done :- ParseStatements();
      BodyStarts(Current(), old(elemIdx), elemIdx, done);
      while !done
        invariant Valid() && elemIdx < old(elemIdx)
        invariant proc.View() == old(proc.View()).(stmts := stmts + old(proc.stmts))
        invariant BodySoFar(Current(), old(elemIdx), elemIdx, done, stmts)
        decreases elemIdx + 1, !done
      {
        ghost var j := elemIdx;
        var s :- ParseStatement();
        ghost var m := elemIdx;
        BodyMissing(Current(), m);
        done :- ParseStatements();
        BodyGoesOn(Current(), old(elemIdx), j, m, elemIdx, done, stmts, s);
        proc.AddStatement(s);
        assert [s] + (stmts + old(proc.stmts)) == ([s] + stmts) + old(proc.stmts);
        stmts := [s] + stmts;
      }
      return Ok(());
    }

    method BuildResult(proc: ProcedureNode) returns (r: Result<()>)
      requires Valid() && proc.name == name
      modifies this`elemIdx, proc`ret
      ensures Valid()
      ensures match ReadExpr(Current(), old(elemIdx))
              case Err(error) => r == Err(error)
              case Ok((e, j)) =>
                if ExprType(Current().env, e) != Int then r == Err(IntExpected)
                else r == Ok(()) && proc.View() == old(proc.View()).(ret := Some(e)) && elemIdx == j
    {
      hide ReadExpr, ExprType;
      var e :- ParseExpr();
      if ExprType(Current().env, e) != Int {
        return Err(IntExpected);
      }
      proc.SetReturnExpr(e);
      return Ok(());
    }

    /** What the item at the cursor asks for in a procedure. */
    method BuildPart(proc: ProcedureNode) returns (r: Result<()>)
      requires Valid() && 0 <= elemIdx && proc.name == name
      modifies this`elemIdx, this`types, proc
      ensures Valid()
      ensures match ReadPart(chart, tokens, old(elemIdx), old(State()), old(proc.View()))
              case Err(error) => r == Err(error)
              case Ok((t, p, j)) => r == Ok(()) && State() == t && proc.View() == p && elemIdx == j
    {
      hide RuleAt, ReadExpr, ReadBody, CollectDcls, CollectParams, ReadWainParams, ExprType, AddWainParams;
      var lhs := Lhs(chart, elemIdx);
      if lhs == EXPR && proc.ret.None? {
        r := BuildResult(proc);
      } else if lhs == STATEMENTS {
        r := BuildBody(proc);
      } else if lhs == DCLS {
        r := BuildDcls(proc);
      } else if lhs == DCL && proc.name == "wain" {
        r := BuildWainParams(proc);
      } else if lhs == PARAMS {
        r := BuildParams(proc);
      } else {
        elemIdx := elemIdx - 1;
        r := Ok(());
      }
    }

    method BuildProcedures() returns (r: Result<()>)
      requires Valid() && procedures == []
      requires chart != [] && (Lhs(chart, |chart| - 1) == PROCEDURE || Lhs(chart, |chart| - 1) == MAIN)
      modifies this`elemIdx, this`types, this`name, this`procedures
      ensures Valid()
      ensures match FromLast(chart, tokens, old(State()))
              case Err(error) => r == Err(error)
              case Ok(drafts) => r == Ok(()) && procedures == drafts
    {
      hide RuleAt, ReadPart;
      elemIdx := |chart| - 1;
      name :- GetToken(chart[elemIdx].start + 1);
      var proc := new ProcedureNode(name);
      elemIdx := elemIdx - 1;
      while elemIdx >= 0
        invariant Valid() && fresh(proc) && proc.name == name
        invariant SecondPass(chart, tokens, elemIdx, State(), proc.View(), procedures) ==
                  FromLast(chart, tokens, old(State()))
        decreases elemIdx + 1
      {
        var lhs := Lhs(chart, elemIdx);
        if lhs == PROCEDURE || lhs == MAIN {
          procedures := [proc.View()] + procedures;
          name :- GetToken(chart[elemIdx].start + 1);
          proc := new ProcedureNode(name);
          elemIdx := elemIdx - 1;
        } else {
          var _ :- BuildPart(proc);
        }
      }
      procedures := [proc.View()] + procedures;
      return Ok(());
    }

    /** Both passes: the procedures of the chart in source order, or the first error. */
    method Parse() returns (r: Result<()>)
      requires Valid() && name == "" && State() == NO_TABLES && procedures == []
      modifies this
      ensures match Passes.Parse(chart, tokens)
              case Err(error) => r == Err(error)
              case Ok(drafts) => r == Ok(()) && procedures == drafts
    {
      hide RuleAt, FirstPass, SecondPass;
      var _ :- PopulateTables();
      if chart == [] || (Lhs(chart, |chart| - 1) != PROCEDURE && Lhs(chart, |chart| - 1) != MAIN) {
        return Err(OutOfRange);
      }
      r := BuildProcedures();
    }
  }
}
