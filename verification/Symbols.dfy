/** The symbols of the grammar: terminals first, then nonterminals, then the dummy start symbol. */
module Symbols {

  newtype Symbol = s: int | 0 <= s < 50

  // Terminals
  const ID: Symbol := 0
  const NUM: Symbol := 1
  const LPAREN: Symbol := 2
  const RPAREN: Symbol := 3
  const LBRACE: Symbol := 4
  const RBRACE: Symbol := 5
  const RETURN: Symbol := 6
  const IF: Symbol := 7
  const ELSE: Symbol := 8
  const WHILE: Symbol := 9
  const PRINTLN: Symbol := 10
  const WAIN: Symbol := 11
  const BECOMES: Symbol := 12
  const INT: Symbol := 13
  const EQ: Symbol := 14
  const NE: Symbol := 15
  const LT: Symbol := 16
  const GT: Symbol := 17
  const LE: Symbol := 18
  const GE: Symbol := 19
  const PLUS: Symbol := 20
  const MINUS: Symbol := 21
  const STAR: Symbol := 22
  const SLASH: Symbol := 23
  const PCT: Symbol := 24
  const COMMA: Symbol := 25
  const SEMI: Symbol := 26
  const NEW: Symbol := 27
  const DELETE: Symbol := 28
  const LBRACK: Symbol := 29
  const RBRACK: Symbol := 30
  const AMP: Symbol := 31
  const NULL: Symbol := 32

  // Nonterminals
  const PROCEDURES: Symbol := 33
  const PROCEDURE: Symbol := 34
  const MAIN: Symbol := 35
  const PARAMS: Symbol := 36
  const PARAMLIST: Symbol := 37
  const TYPE: Symbol := 38
  const DCL: Symbol := 39
  const DCLS: Symbol := 40
  const STATEMENTS: Symbol := 41
  const LVALUE: Symbol := 42
  const EXPR: Symbol := 43
  const STATEMENT: Symbol := 44
  const TEST: Symbol := 45
  const TERM: Symbol := 46
  const FACTOR: Symbol := 47
  const ARGLIST: Symbol := 48
  const START: Symbol := 49

  predicate IsTerminal(s: Symbol) {
    ID <= s <= NULL
  }
}
