/** The syntax trees the parser builds and the code generator walks. */
module Ast {
  import opened Symbols

  datatype DclType = Invalid | Int | IntStar

  datatype Expr =
    | JustTerm(term: Term)
    | Plus(left: Expr, term: Term)
    | Minus(left: Expr, term: Term)

  datatype Term =
    | JustFactor(factor: Factor)
    | Times(left: Term, factor: Factor)
    | Slash(left: Term, factor: Factor)
    | Percent(left: Term, factor: Factor)

  datatype Factor =
    | Id(name: string)
    | Num(value: nat)
    | NullValue
    | Paren(expr: Expr)
    | NewArray(size: Expr)
    | AddressOf(lvalue: Lvalue)
    | Deref(pointer: Factor)
    | Call(callee: string, args: Arglist)

  datatype Arglist = NoArgs | Args(expr: Expr, rest: Arglist)

  datatype Lvalue =
    | Var(name: string)
    | Target(pointer: Factor)
    | Enclosed(lvalue: Lvalue)

  /** A comparison; op is one of EQ, NE, LT, LE, GE and GT. */
  datatype Test = Test(op: Symbol, left: Expr, right: Expr)

  datatype Statement =
    | Assign(lvalue: Lvalue, expr: Expr)
    | If(test: Test, onTrue: seq<Statement>, onFalse: seq<Statement>)
    | While(test: Test, body: seq<Statement>)
    | Println(expr: Expr)
    | Delete(expr: Expr)

  datatype Dcl = Dcl(id: string, dclType: DclType, value: string)

  datatype Procedure = Procedure(
    name: string,
    params: seq<Dcl>,
    dcls: seq<Dcl>,
    stmts: seq<Statement>,
    ret: Expr)
}
