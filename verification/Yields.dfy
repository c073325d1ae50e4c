/** The terminals a syntax tree is written with. */
module Yields {
  import opened Symbols
  import opened Grammar
  import opened Ast

  function ExprYield(e: Expr): Form {
    match e
    case JustTerm(term) => TermYield(term)
    case Plus(left, term) => ExprYield(left) + [PLUS] + TermYield(term)
    case Minus(left, term) => ExprYield(left) + [MINUS] + TermYield(term)
  }

  function TermYield(t: Term): Form {
    match t
    case JustFactor(factor) => FactorYield(factor)
    case Times(left, factor) => TermYield(left) + [STAR] + FactorYield(factor)
    case Slash(left, factor) => TermYield(left) + [SLASH] + FactorYield(factor)
    case Percent(left, factor) => TermYield(left) + [PCT] + FactorYield(factor)
  }

  function FactorYield(f: Factor): Form {
    match f
    case Id(_) => [ID]
    case Num(_) => [NUM]
    case NullValue => [NULL]
    case Paren(e) => [LPAREN] + ExprYield(e) + [RPAREN]
    case NewArray(size) => [NEW, INT, LBRACK] + ExprYield(size) + [RBRACK]
    case AddressOf(lvalue) => [AMP] + LvalueYield(lvalue)
    case Deref(pointer) => [STAR] + FactorYield(pointer)
    case Call(_, args) => [ID, LPAREN] + ArgsYield(args) + [RPAREN]
  }

  function ArgsYield(args: Arglist): Form {
    match args
    case NoArgs => []
    case Args(e, NoArgs) => ExprYield(e)
    case Args(e, rest) => ExprYield(e) + [COMMA] + ArgsYield(rest)
  }

  function LvalueYield(l: Lvalue): Form {
    match l
    case Var(_) => [ID]
    case Target(pointer) => [STAR] + FactorYield(pointer)
    case Enclosed(inner) => [LPAREN] + LvalueYield(inner) + [RPAREN]
  }

  function TestYield(t: Test): Form {
    ExprYield(t.left) + [t.op] + ExprYield(t.right)
  }

  function StatementYield(s: Statement): Form {
    match s
    case Assign(lvalue, e) => LvalueYield(lvalue) + [BECOMES] + ExprYield(e) + [SEMI]
    case If(test, onTrue, onFalse) =>
      [IF, LPAREN] + TestYield(test) + [RPAREN, LBRACE] + BodyYield(onTrue) + [RBRACE, ELSE, LBRACE] +
      BodyYield(onFalse) + [RBRACE]
    case While(test, body) => [WHILE, LPAREN] + TestYield(test) + [RPAREN, LBRACE] + BodyYield(body) + [RBRACE]
    case Println(e) => [PRINTLN, LPAREN] + ExprYield(e) + [RPAREN, SEMI]
    case Delete(e) => [DELETE, LBRACK, RBRACK] + ExprYield(e) + [SEMI]
  }

  function BodyYield(stmts: seq<Statement>): Form {
    if stmts == [] then [] else BodyYield(stmts[..|stmts| - 1]) + StatementYield(stmts[|stmts| - 1])
  }

  function DclYield(d: Dcl): Form {
    if d.dclType == IntStar then [INT, STAR, ID] else [INT, ID]
  }

  function ParamsYield(ds: seq<Dcl>): Form {
    if ds == [] then []
    else if |ds| == 1 then DclYield(ds[0])
    else ParamsYield(ds[..|ds| - 1]) + [COMMA] + DclYield(ds[|ds| - 1])
  }

  /** The initial value is NULL; the grammar lets both types start with either. */
  predicate StartsNull(d: Dcl) {
    d.value == "NULL"
  }

  function InitialToken(d: Dcl): Symbol {
    if StartsNull(d) then NULL else NUM
  }

  function DclsYield(ds: seq<Dcl>): Form {
    if ds == [] then []
    else
      var d := ds[|ds| - 1];
      DclsYield(ds[..|ds| - 1]) + DclYield(d) + [BECOMES, InitialToken(d), SEMI]
  }

  function ProcedureYield(p: Procedure): Form {
    [INT, if p.name == "wain" then WAIN else ID, LPAREN] + ParamsYield(p.params) + [RPAREN, LBRACE] +
    DclsYield(p.dcls) + BodyYield(p.stmts) + [RETURN] + ExprYield(p.ret) + [SEMI, RBRACE]
  }

  function ProgramYield(ps: seq<Procedure>): Form {
    if ps == [] then [] else ProgramYield(ps[..|ps| - 1]) + ProcedureYield(ps[|ps| - 1])
  }
}
