/** Tokens, as the tokeniser makes them and the parser looks them up. */
module Tokens {
  import opened Symbols

  datatype Token = Token(kind: Symbol, value: string)
}
