/** The completed items of whole programs, and the programs that are well-formed. */
module Programs {
  import opened Options
  import opened Symbols
  import opened Tokens
  import opened Earley
  import opened Wlp4Grammar
  import opened Ast
  import opened Types
  import opened Yields
  import opened Items
  import opened Procedures
  import opened Reading
  import opened Checking
  import opened ReadStatements
  import opened Passes

  // ----- items -----

  function DclItems(d: Dcl, s: nat): seq<Elem> {
    [Done(if d.dclType == IntStar then 10 else 9, s), Done(14, s)]
  }

  /** Where the last of some parameters starts. */
  function LastParamAt(ds: seq<Dcl>, s: nat): nat
    requires ds != []
  {
    if |ds| == 1 then s else s + |ParamsYield(ds[..|ds| - 1])| + 1
  }

  /** The parameter lists that end with the last parameter and have more than one. */
  function ListEnds(ds: seq<Dcl>, s: nat): seq<Elem> {
    if ds == [] then [] else [Done(8, LastParamAt(ds, s))] + ListEnds(ds[..|ds| - 1], s)
  }

  /** Every parameter ends a list that is a complete list of parameters so far. */
  function ParamsItems(ds: seq<Dcl>, s: nat): seq<Elem> {
    if ds == [] then [Done(5, s)]
    else
      var front, at := ds[..|ds| - 1], LastParamAt(ds, s);
      ParamsItems(front, s) + DclItems(ds[|ds| - 1], at) + [Done(7, at)] + ListEnds(front, s) + [Done(6, s)]
  }

  function DclsRule(d: Dcl): (r: nat)
    ensures 12 <= r <= 13
  {
    if StartsNull(d) then 13 else 12
  }

  /** Before every declaration an empty list of statements is complete. */
  function DclsItems(ds: seq<Dcl>, s: nat): seq<Elem> {
    if ds == [] then [Done(11, s)]
    else
      var front, d := ds[..|ds| - 1], ds[|ds| - 1];
      var at := s + |DclsYield(front)|;
      DclsItems(front, s) + [Done(15, at)] + DclItems(d, at) + [Done(DclsRule(d), s)]
  }

  function HeaderItems(p: Procedure, s: nat): seq<Elem> {
    if p.name == "wain" && |p.params| == 2 then
      DclItems(p.params[0], s) + DclItems(p.params[1], LastParamAt(p.params, s))
    else ParamsItems(p.params, s)
  }

  function DclsAt(p: Procedure, s: nat): nat {
    s + 5 + |ParamsYield(p.params)|
  }

  function BodyStart(p: Procedure, s: nat): nat {
    DclsAt(p, s) + |DclsYield(p.dcls)|
  }

  function ReturnAt(p: Procedure, s: nat): nat {
    BodyStart(p, s) + |BodyYield(p.stmts)| + 1
  }

  function ProcedureRule(name: string): nat {
    if name == "wain" then 4 else 3
  }

  function ProcedureItems(p: Procedure, s: nat): seq<Elem> {
    HeaderItems(p, s + 3) + DclsItems(p.dcls, DclsAt(p, s)) + BodyItems(p.stmts, BodyStart(p, s)) +
    ExprItems(p.ret, ReturnAt(p, s), []) + [Done(ProcedureRule(p.name), s)]
  }

  function ProgramItems(ps: seq<Procedure>): seq<Elem> {
    if ps == [] then []
    else
      var front := ps[..|ps| - 1];
      ProgramItems(front) + ProcedureItems(ps[|ps| - 1], |ProgramYield(front)|)
  }

  // ----- the values of the tokens -----

  predicate DclSpelled(tokens: seq<Token>, s: nat, d: Dcl) {
    Spells(tokens, s + if d.dclType == IntStar then 2 else 1, d.id)
  }

  predicate ParamsSpelled(tokens: seq<Token>, s: nat, ds: seq<Dcl>) {
    ds == [] ||
    (ParamsSpelled(tokens, s, ds[..|ds| - 1]) && DclSpelled(tokens, LastParamAt(ds, s), ds[|ds| - 1]))
  }

  /** The initial value of a declaration that starts at s, between its two signs. */
  predicate InitialSpelled(tokens: seq<Token>, s: nat, d: Dcl) {
    var m := s + |DclYield(d)|;
    Spells(tokens, m, "=") && Spells(tokens, m + 1, d.value) && Spells(tokens, m + 2, ";")
  }

  predicate DclsSpelled(tokens: seq<Token>, s: nat, ds: seq<Dcl>) {
    ds == [] ||
    var front, d := ds[..|ds| - 1], ds[|ds| - 1];
    var at := s + |DclsYield(front)|;
    DclsSpelled(tokens, s, front) && DclSpelled(tokens, at, d) && InitialSpelled(tokens, at, d)
  }

  predicate ProcedureSpelled(tokens: seq<Token>, s: nat, p: Procedure) {
    && Spells(tokens, s + 1, p.name)
    && ParamsSpelled(tokens, s + 3, p.params)
    && DclsSpelled(tokens, DclsAt(p, s), p.dcls)
    && BodySpelled(tokens, BodyStart(p, s), p.stmts)
    && ExprSpelled(tokens, ReturnAt(p, s), p.ret)
  }

  predicate ProgramSpelled(tokens: seq<Token>, ps: seq<Procedure>) {
    ps == [] ||
    var front := ps[..|ps| - 1];
    ProgramSpelled(tokens, front) && ProcedureSpelled(tokens, |ProgramYield(front)|, ps[|ps| - 1])
  }

  // ----- well-formed programs -----

  function Names(ps: seq<Procedure>): seq<string> {
    seq(|ps|, i requires 0 <= i < |ps| => ps[i].name)
  }

  /** The numbers of parameters by name. */
  function Arities(ps: seq<Procedure>): map<string, nat> {
    if ps == [] then map[] else Arities(ps[1..])[ps[0].name := |ps[0].params|]
  }

  function TypesOf(ps: seq<Procedure>): map<string, TypeEnv> {
    if ps == [] then map[] else TypesOf(ps[1..])[ps[0].name := EnvOf(ps[0].params + ps[0].dcls)]
  }

  predicate DistinctNames(ps: seq<Procedure>) {
    forall i, j :: 0 <= i < j < |ps| ==> ps[i].name != ps[j].name
  }

  /** What the grammar sees to: names have types, parameters have no initial value, and wain has two parameters. */
  predicate IsShaped(p: Procedure) {
    && (forall i :: 0 <= i < |p.params| ==> p.params[i].dclType != Invalid && p.params[i].value == "")
    && (forall i :: 0 <= i < |p.dcls| ==> p.dcls[i].dclType != Invalid)
    && (p.name == "wain" ==> |p.params| == 2)
  }

  predicate WainTakesInt(p: Procedure) {
    p.name == "wain" && |p.params| == 2 ==> p.params[1].dclType == Int
  }

  /** Names are declared once, and the second parameter of wain is an int. */
  predicate IsDeclared(p: Procedure) {
    IsShaped(p) && DistinctIds(p.params + p.dcls) && WainTakesInt(p)
  }

  /** The context of procedure p of the program. */
  function ProgramContext(chart: seq<Elem>, tokens: seq<Token>, ps: seq<Procedure>, p: Procedure): Context {
    Context(chart, tokens, EnvOf(p.params + p.dcls), Names(ps), Arities(ps), p.name)
  }

  /** Calls come first in the statements and in the result. */
  predicate HasCallsFirst(p: Procedure) {
    (forall i :: 0 <= i < |p.stmts| ==> StatementCallsFirst(p.stmts[i])) && ExprCallsFirst(p.ret)
  }

  /** The statements and the result follow the typing rules, the result is an int, and all calls resolve. */
  ghost predicate IsTyped(c: Context, p: Procedure) {
    BodyIsSound(c, p.stmts) && ExprHasType(c.env, p.ret, Int) && ExprResolves(c, p.ret)
  }

  ghost predicate IsChecked(c: Context, p: Procedure) {
    HasCallsFirst(p) && IsTyped(c, p)
  }

  ghost predicate IsProgram(chart: seq<Elem>, tokens: seq<Token>, ps: seq<Procedure>) {
    && ps != []
    && DistinctNames(ps)
    && forall i :: 0 <= i < |ps| ==> IsDeclared(ps[i]) && IsChecked(ProgramContext(chart, tokens, ps, ps[i]), ps[i])
  }

  // ----- what the parser makes of them -----

  function Reversed<T>(xs: seq<T>): (r: seq<T>)
    ensures |r| == |xs|
  {
    if xs == [] then [] else [xs[|xs| - 1]] + Reversed(xs[..|xs| - 1])
  }

  /** A declaration as it is taken: an int that starts with NULL, and a pointer that starts with a number, take the
      value of a neighbouring token. */
  function AsTaken(d: Dcl): Dcl {
    if d.dclType == IntStar then (if StartsNull(d) then d else d.(value := "="))
    else (if StartsNull(d) then d.(value := ";") else d)
  }

  function Taken(ds: seq<Dcl>): (r: seq<Dcl>)
    ensures |r| == |ds| && forall i :: 0 <= i < |ds| ==> r[i] == AsTaken(ds[i])
  {
    if ds == [] then [] else Taken(ds[..|ds| - 1]) + [AsTaken(ds[|ds| - 1])]
  }

  /** The declarations come out in reverse, and so do the parameters of every procedure but wain. */
  function Built(p: Procedure): Draft {
    Draft(p.name, if p.name == "wain" then p.params else Reversed(p.params), Reversed(Taken(p.dcls)), p.stmts,
          Some(p.ret))
  }

  function AllBuilt(ps: seq<Procedure>): seq<Draft> {
    seq(|ps|, i requires 0 <= i < |ps| => Built(ps[i]))
  }
}
