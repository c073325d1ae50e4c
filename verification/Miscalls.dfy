/** What happens to `l + f()`: the items of the callee look like those of a variable, and the left operand that is
    asked for is the sum `l + f`, which is on top of them. */
module Miscalls {
  import opened Options
  import opened Symbols
  import opened Earley
  import opened Wlp4Grammar
  import opened Tokens
  import opened Ast
  import opened Types
  import opened Yields
  import opened Items
  import opened Reading
  import opened Checking
  import opened ReadBack

  function VariableTerm(name: string): Term {
    JustFactor(Id(name))
  }

  function CallTerm(name: string): Term {
    JustFactor(Call(name, NoArgs))
  }

  /** Below the call's own items are exactly the items of the sum with a variable. */
  lemma CalleeLooksLikeVariable(l: Expr, f: string, s: nat)
    ensures var s' := s + |ExprYield(l)| + 1;
            ExprItems(Plus(l, CallTerm(f)), s, []) ==
            ExprItems(Plus(l, VariableTerm(f)), s, []) + [Done(42, s')] + [Done(31, s')] + [Done(29, s)]
  {
    hide RuleAt, ExprYield;
    var s', x := s + |ExprYield(l)| + 1, ExprItems(l, s, []);
    var k := [Done(29, s)] + [];
    assert FactorItems(Call(f, NoArgs), s', [Done(31, s')] + k) ==
           [Done(35, s')] + ([Done(31, s')] + k) + [Done(42, s')];
    assert TermItems(CallTerm(f), s', k) == [Done(35, s')] + ([Done(31, s')] + k) + [Done(42, s')] + [Done(31, s')];
    assert TermItems(VariableTerm(f), s', k) == [Done(35, s')] + [Done(31, s')];
    assert ExprItems(Plus(l, CallTerm(f)), s, []) == x + [] + TermItems(CallTerm(f), s', k) + [Done(29, s)];
    assert ExprItems(Plus(l, VariableTerm(f)), s, []) == x + [] + TermItems(VariableTerm(f), s', k) + [Done(29, s)];
  }

  lemma CallOrVariable(c: Context, s: nat, f: string)
    ensures TermSpelled(c.tokens, s, CallTerm(f)) <==> Spells(c.tokens, s, f)
    ensures TermSpelled(c.tokens, s, VariableTerm(f)) <==> Spells(c.tokens, s, f)
    ensures TermResolves(c, CallTerm(f)) <==> Resolves(c, f, NoArgs)
    ensures TermResolves(c, VariableTerm(f)) && TermCallsFirst(VariableTerm(f)) && !TermOpensWithCall(VariableTerm(f))
    ensures TermHasType(c.env, CallTerm(f), Int) && TermType(c.env, CallTerm(f)) == Int
    ensures f in c.env && c.env[f] == Int ==>
              TermHasType(c.env, VariableTerm(f), Int) && TermType(c.env, VariableTerm(f)) == Int
  {
    var call, variable := Call(f, NoArgs), Id(f);
    assert FactorSpelled(c.tokens, s, call) <==> Spells(c.tokens, s, f);
    assert FactorSpelled(c.tokens, s, variable) <==> Spells(c.tokens, s, f);
    assert FactorResolves(c, call) <==> Resolves(c, f, NoArgs);
    assert FactorResolves(c, variable) && FactorCallsFirst(variable) && !FactorOpensWithCall(variable);
    assert ArgsHaveTypes(c.env, call.args) && ArgsResolve(c, call.args);
    assert FactorHasType(c.env, call, Int) && FactorType(c.env, call) == Int;
    assert f in c.env && c.env[f] == Int ==> FactorHasType(c.env, variable, Int) && FactorType(c.env, variable) == Int;
  }

  /** A checked sum of an int and a call without arguments is read as another sum when an int variable has the name of
      the procedure. */
  lemma SumWithCallIsMisread(c: Context, i: int, xs: seq<Elem>, l: Expr, f: string, s: nat)
    requires Shows(c, i, xs + ExprItems(Plus(l, CallTerm(f)), s, [])) && ExprSpelled(c.tokens, s, Plus(l, CallTerm(f)))
    requires ExprCallsFirst(l) && ExprHasType(c.env, l, Int) && ExprResolves(c, Plus(l, CallTerm(f)))
    requires f in c.env && c.env[f] == Int
    ensures ExprHasType(c.env, Plus(l, CallTerm(f)), Int)
    ensures Gives(c, ReadExpr(c, i), Plus(Plus(l, VariableTerm(f)), CallTerm(f)), xs + ExprResidue(l, s, []))
  {
    hide RuleAt, ReadExpr, ReadTerm, ReadFactor, ExprItems, ExprYield, Shows, ExprResidue, Lacks;
    var s', inner := s + |ExprYield(l)| + 1, Plus(l, VariableTerm(f));
    var below := xs + ExprItems(inner, s, []);
    CalleeLooksLikeVariable(l, f, s);
    assert xs + ExprItems(Plus(l, CallTerm(f)), s, []) == ((below + [Done(42, s')]) + [Done(31, s')]) + [Done(29, s)];
    TopShows(c, i, (below + [Done(42, s')]) + [Done(31, s')], 29, s);
    TopShows(c, i - 1, below + [Done(42, s')], 31, s');
    TopShows(c, i - 2, below, 42, s');
    var j := i - 3;
    CallOrVariable(c, s', f);
    LeftIsRead(c, j, xs, l, f, s);
    CallStep(c, i - 2, f, NoArgs, j);
    FactorAlone(c, i - 1, Call(f, NoArgs), j);
    SumType(c, l, f);
    TermOfSum(c, i, Plus(inner, CallTerm(f)), j, |xs + ExprResidue(l, s, [])| - 1);
  }

  lemma SumType(c: Context, l: Expr, f: string)
    requires ExprHasType(c.env, l, Int) && f in c.env && c.env[f] == Int
    ensures ExprHasType(c.env, Plus(l, VariableTerm(f)), Int) && ExprHasType(c.env, Plus(l, CallTerm(f)), Int)
    ensures ExprType(c.env, Plus(Plus(l, VariableTerm(f)), CallTerm(f))) == Int
  {
    hide TermHasType, TermType;
    CallOrVariable(c, 0, f);
    ExprTypeIsUnique(c.env, l, Int);
    assert ExprType(c.env, Plus(l, VariableTerm(f))) == Int;
  }

  lemma LeftIsRead(c: Context, j: int, xs: seq<Elem>, l: Expr, f: string, s: nat)
    requires Shows(c, j, xs + ExprItems(Plus(l, VariableTerm(f)), s, [])) &&
             ExprSpelled(c.tokens, s, Plus(l, CallTerm(f)))
    requires ExprCallsFirst(l) && ExprHasType(c.env, l, Int) && ExprResolves(c, l) && f in c.env && c.env[f] == Int
    ensures Gives(c, ReadExpr(c, j), Plus(l, VariableTerm(f)), xs + ExprResidue(l, s, []))
  {
    hide RuleAt, ReadExpr, ExprItems, ExprYield, Shows, Lacks, TermSpelled, TermResolves, TermCallsFirst,
         TermOpensWithCall;
    var inner := Plus(l, VariableTerm(f));
    SumType(c, l, f);
    CallOrVariable(c, s + |ExprYield(l)| + 1, f);
    LacksNone();
    ExprReadBack(c, j, xs, inner, Int, s, []);
  }
}
