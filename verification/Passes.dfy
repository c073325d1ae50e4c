/** The two passes of the parser over the final chart: the first collects names, types and numbers of parameters,
    the second builds the procedures. */
module Passes {
  import opened Options
  import opened Symbols
  import opened Tokens
  import opened Earley
  import opened Wlp4Grammar
  import opened Ast
  import opened Types
  import opened Reading

  /** The types of the names of each procedure, the procedures in source order, and their numbers of parameters. */
  datatype Tables = Tables(types: map<string, TypeEnv>, names: seq<string>, arity: map<string, nat>)

  const NO_TABLES: Tables := Tables(map[], [], map[])

  function EnvAt(t: Tables, name: string): TypeEnv {
    if name in t.types then t.types[name] else map[]
  }

  function AddDcl(t: Tables, procedure: string, d: Dcl): Tables {
    t.(types := t.types[procedure := EnvAt(t, procedure)[d.id := d.dclType]])
  }

  /** A procedure under construction. */
  datatype Draft = Draft(name: string, params: seq<Dcl>, dcls: seq<Dcl>, stmts: seq<Statement>, ret: Option<Expr>)

  predicate Declares(p: Draft, id: string) {
    (exists i :: 0 <= i < |p.params| && p.params[i].id == id) || (exists i :: 0 <= i < |p.dcls| && p.dcls[i].id == id)
  }

  function AddParam(p: Draft, d: Dcl): Result<Draft> {
    if Declares(p, d.id) then Err(Redeclared(d.id)) else Ok(p.(params := p.params + [d]))
  }

  function AddDeclaration(p: Draft, d: Dcl): Result<Draft> {
    if Declares(p, d.id) then Err(Redeclared(d.id)) else Ok(p.(dcls := p.dcls + [d]))
  }

  predicate IsAt(chart: seq<Elem>, i: int) {
    IsChart(chart) && -1 <= i < |chart|
  }

  lemma DclsRules(r: nat)
    requires r < 49 && RuleAt(r).lhs == DCLS && RuleAt(r).rhs != []
    ensures |RuleAt(r).rhs| == 5
  {
  }

  /** A declaration; sym is the kind of its initial value when that is wanted. */
  function ReadDcl(chart: seq<Elem>, tokens: seq<Token>, i: int, sym: Option<Symbol>): (r: Result<(Dcl, int)>)
    requires IsAt(chart, i)
    ensures r.Ok? ==> -1 <= r.value.1 < i
  {
    var k := Find(chart, DCL, i);
    if k < 0 then Err(Missing(DCL))
    else
      var value :-
        match sym
        case None => Ok("")
        case Some(s) => ValueAt(tokens, chart[k].start + if s == NUM then 3 else 4);
      if k == 0 then Err(OutOfRange)
      else
        var isInt := |RuleAt(chart[k - 1].rule).rhs| == 1;
        var id :- ValueAt(tokens, chart[k - 1].start + if isInt then 1 else 2);
        Ok((Dcl(id, if isInt then Int else IntStar, value), k - 2))
  }

  /** Declarations down to the empty list they start from; the draft, if there is one, gets them. */
  function CollectDcls(chart: seq<Elem>, tokens: seq<Token>, i: int, t: Tables, name: string, p: Option<Draft>)
    : (r: Result<(Tables, Option<Draft>, int)>)
    requires IsAt(chart, i)
    ensures r.Ok? ==> -1 <= r.value.2 < i && r.value.1.Some? == p.Some?
    decreases i + 1
  {
    var k := Find(chart, DCLS, i);
    if k < 0 then Err(Missing(DCLS))
    else if RuleAt(chart[k].rule).rhs == [] then Ok((t, p, k - 1))
    else
      var sym := (DclsRules(chart[k].rule); RuleAt(chart[k].rule).rhs[3]);
      var (d, j) :- ReadDcl(chart, tokens, k - 1, if p.Some? then Some(sym) else None);
      match p
      case None => CollectDcls(chart, tokens, j, AddDcl(t, name, d), name, None)
      case Some(draft) =>
        var draft' :- AddDeclaration(draft, d);
        CollectDcls(chart, tokens, j, AddDcl(t, name, d), name, Some(draft'))
  }

  /** The same for parameters; without a draft they are counted. */
  function CollectParams(chart: seq<Elem>, tokens: seq<Token>, i: int, t: Tables, name: string, p: Option<Draft>)
    : (r: Result<(Tables, Option<Draft>, int)>)
    requires IsAt(chart, i)
    ensures r.Ok? ==> -1 <= r.value.2 < i && r.value.1.Some? == p.Some?
    decreases i + 1
  {
    var k := Find(chart, PARAMS, i);
    if k < 0 then Err(Missing(PARAMS))
    else if RuleAt(chart[k].rule).rhs == [] then Ok((t, p, k - 1))
    else
      var (d, j) :- ReadDcl(chart, tokens, k - 1, None);
      match p
      case None => CollectParams(chart, tokens, j, CountParam(AddDcl(t, name, d), name), name, None)
      case Some(draft) =>
        var draft' :- AddParam(draft, d);
        CollectParams(chart, tokens, j, AddDcl(t, name, d), name, Some(draft'))
  }

  function CountParam(t: Tables, name: string): Tables {
    t.(arity := t.arity[name := 1 + if name in t.arity then t.arity[name] else 0])
  }

  /** The two parameters of wain, in source order; the second is an int. */
  function ReadWainParams(chart: seq<Elem>, tokens: seq<Token>, i: int): (r: Result<(Dcl, Dcl, int)>)
    requires IsAt(chart, i)
    ensures r.Ok? ==> -1 <= r.value.2 < i
  {
    var (d2, j) :- ReadDcl(chart, tokens, i, None);
    if d2.dclType != Int then Err(IntExpected)
    else
      var (d1, m) :- ReadDcl(chart, tokens, j, None);
      Ok((d1, d2, m))
  }

  function AddName(t: Tables, name: string): Result<Tables> {
    if name in t.arity then Err(Redeclared(name))
    else Ok(t.(names := [name] + t.names, arity := t.arity[name := if name == "wain" then 2 else 0]))
  }

  function FirstPass(chart: seq<Elem>, tokens: seq<Token>, i: int, name: string, t: Tables): Result<Tables>
    requires IsAt(chart, i)
    decreases i + 1
  {
    if i < 0 then Ok(t)
    else
      var lhs := Lhs(chart, i);
      if lhs == PROCEDURE || lhs == MAIN then
        var next :- ValueAt(tokens, chart[i].start + 1);
        var t' :- AddName(t, next);
        FirstPass(chart, tokens, i - 1, next, t')
      else if lhs == DCLS then
        var (t', _, j) :- CollectDcls(chart, tokens, i, t, name, None);
        FirstPass(chart, tokens, j, name, t')
      else if lhs == DCL && name == "wain" then
        var (d1, d2, j) :- ReadWainParams(chart, tokens, i);
        FirstPass(chart, tokens, j, name, AddDcl(AddDcl(t, name, d2), name, d1))
      else if lhs == PARAMS then
        var (t', _, j) :- CollectParams(chart, tokens, i, t, name, None);
        FirstPass(chart, tokens, j, name, t')
      else FirstPass(chart, tokens, i - 1, name, t)
  }

  /** What a body of the draft is read against. */
  function ContextOf(chart: seq<Elem>, tokens: seq<Token>, t: Tables, name: string): Context {
    Context(chart, tokens, EnvAt(t, name), t.names, t.arity, name)
  }

  /** Adds the two parameters of wain. */
  function AddWainParams(p: Draft, d1: Dcl, d2: Dcl): Result<Draft> {
    var p1 :- AddParam(p, d1);
    AddParam(p1, d2)
  }

  /** Reads what item i asks for into the draft p. */
  function ReadPart(chart: seq<Elem>, tokens: seq<Token>, i: int, t: Tables,
                    p: Draft): (r: Result<(Tables, Draft, int)>)
    requires IsAt(chart, i) && 0 <= i
    ensures r.Ok? ==> -1 <= r.value.2 < i
  {
    var lhs, c := Lhs(chart, i), ContextOf(chart, tokens, t, p.name);
    if lhs == EXPR && p.ret.None? then
      var (e, j) :- ReadExpr(c, i);
      if ExprType(c.env, e) != Int then Err(IntExpected) else Ok((t, p.(ret := Some(e)), j))
    else if lhs == STATEMENTS then
      var (stmts, j) :- ReadBody(c, i);
      Ok((t, p.(stmts := stmts + p.stmts), j))
    else if lhs == DCLS then
      var (t', p', j) :- CollectDcls(chart, tokens, i, t, p.name, Some(p));
      Ok((t', p'.value, j))
    else if lhs == DCL && p.name == "wain" then
      var (d1, d2, j) :- ReadWainParams(chart, tokens, i);
      var p' :- AddWainParams(p, d1, d2);
      Ok((AddDcl(AddDcl(t, p.name, d2), p.name, d1), p', j))
    else if lhs == PARAMS then
      var (t', p', j) :- CollectParams(chart, tokens, i, t, p.name, Some(p));
      Ok((t', p'.value, j))
    else Ok((t, p, i - 1))
  }

  /** Goes on from item i with the draft p; done holds the procedures finished so far, in source order. */
  function SecondPass(chart: seq<Elem>, tokens: seq<Token>, i: int, t: Tables, p: Draft,
                      done: seq<Draft>): Result<seq<Draft>>
    requires IsAt(chart, i)
    decreases i + 1
  {
    if i < 0 then Ok([p] + done)
    else
      var lhs := Lhs(chart, i);
      if lhs == PROCEDURE || lhs == MAIN then
        var name :- ValueAt(tokens, chart[i].start + 1);
        SecondPass(chart, tokens, i - 1, t, Draft(name, [], [], [], None), [p] + done)
      else
        var (t', p', j) :- ReadPart(chart, tokens, i, t, p);
        SecondPass(chart, tokens, j, t', p', done)
  }

  /** The second pass, from the last item of the chart. */
  function FromLast(chart: seq<Elem>, tokens: seq<Token>, t: Tables): Result<seq<Draft>>
    requires IsChart(chart) && chart != []
  {
    var n := |chart| - 1;
    var name :- ValueAt(tokens, chart[n].start + 1);
    SecondPass(chart, tokens, n - 1, t, Draft(name, [], [], [], None), [])
  }

  /** The procedures of a final chart. Its last item is a completed procedure or wain. */
  function Parse(chart: seq<Elem>, tokens: seq<Token>): Result<seq<Draft>>
    requires IsChart(chart)
  {
    var n := |chart| - 1;
    var t :- FirstPass(chart, tokens, n, "", NO_TABLES);
    if n < 0 || (Lhs(chart, n) != PROCEDURE && Lhs(chart, n) != MAIN) then Err(OutOfRange)
    else FromLast(chart, tokens, t)
  }
}
