/** The WLP4 rule table, and the facts about it the recogniser depends on. */
module Wlp4Grammar {
  import opened Symbols
  import opened Grammar
  import opened Earley

  /** Rule r of the table. */
  function RuleAt(r: nat): Rule
    requires r < 49
  {
    match r
    case 0 => Rule(START, [PROCEDURES])
    case 1 => Rule(PROCEDURES, [PROCEDURE, PROCEDURES])
    case 2 => Rule(PROCEDURES, [MAIN])
    case 3 => Rule(PROCEDURE, [INT, ID, LPAREN, PARAMS, RPAREN, LBRACE, DCLS, STATEMENTS, RETURN, EXPR, SEMI, RBRACE])
    case 4 => Rule(MAIN,
                   [INT, WAIN, LPAREN, DCL, COMMA, DCL, RPAREN, LBRACE, DCLS, STATEMENTS, RETURN, EXPR, SEMI, RBRACE])
    case 5 => Rule(PARAMS, [])
    case 6 => Rule(PARAMS, [PARAMLIST])
    case 7 => Rule(PARAMLIST, [DCL])
    case 8 => Rule(PARAMLIST, [DCL, COMMA, PARAMLIST])
    case 9 => Rule(TYPE, [INT])
    case 10 => Rule(TYPE, [INT, STAR])
    case 11 => Rule(DCLS, [])
    case 12 => Rule(DCLS, [DCLS, DCL, BECOMES, NUM, SEMI])
    case 13 => Rule(DCLS, [DCLS, DCL, BECOMES, NULL, SEMI])
    case 14 => Rule(DCL, [TYPE, ID])
    case 15 => Rule(STATEMENTS, [])
    case 16 => Rule(STATEMENTS, [STATEMENTS, STATEMENT])
    case 17 => Rule(STATEMENT, [LVALUE, BECOMES, EXPR, SEMI])
    case 18 => Rule(STATEMENT, [IF, LPAREN, TEST, RPAREN, LBRACE, STATEMENTS, RBRACE, ELSE, LBRACE, STATEMENTS, RBRACE])
    case 19 => Rule(STATEMENT, [WHILE, LPAREN, TEST, RPAREN, LBRACE, STATEMENTS, RBRACE])
    case 20 => Rule(STATEMENT, [PRINTLN, LPAREN, EXPR, RPAREN, SEMI])
    case 21 => Rule(STATEMENT, [DELETE, LBRACK, RBRACK, EXPR, SEMI])
    case 22 => Rule(TEST, [EXPR, EQ, EXPR])
    case 23 => Rule(TEST, [EXPR, NE, EXPR])
    case 24 => Rule(TEST, [EXPR, LT, EXPR])
    case 25 => Rule(TEST, [EXPR, LE, EXPR])
    case 26 => Rule(TEST, [EXPR, GE, EXPR])
    case 27 => Rule(TEST, [EXPR, GT, EXPR])
    case 28 => Rule(EXPR, [TERM])
    case 29 => Rule(EXPR, [EXPR, PLUS, TERM])
    case 30 => Rule(EXPR, [EXPR, MINUS, TERM])
    case 31 => Rule(TERM, [FACTOR])
    case 32 => Rule(TERM, [TERM, STAR, FACTOR])
    case 33 => Rule(TERM, [TERM, SLASH, FACTOR])
    case 34 => Rule(TERM, [TERM, PCT, FACTOR])
    case 35 => Rule(FACTOR, [ID])
    case 36 => Rule(FACTOR, [NUM])
    case 37 => Rule(FACTOR, [NULL])
    case 38 => Rule(FACTOR, [LPAREN, EXPR, RPAREN])
    case 39 => Rule(FACTOR, [AMP, LVALUE])
    case 40 => Rule(FACTOR, [STAR, FACTOR])
    case 41 => Rule(FACTOR, [NEW, INT, LBRACK, EXPR, RBRACK])
    case 42 => Rule(FACTOR, [ID, LPAREN, RPAREN])
    case 43 => Rule(FACTOR, [ID, LPAREN, ARGLIST, RPAREN])
    case 44 => Rule(ARGLIST, [EXPR])
    case 45 => Rule(ARGLIST, [EXPR, COMMA, ARGLIST])
    case 46 => Rule(LVALUE, [ID])
    case 47 => Rule(LVALUE, [STAR, FACTOR])
    case _ => Rule(LVALUE, [LPAREN, LVALUE, RPAREN])
  }

  /** The whole table. */
  function CFG(): (g: Cfg)
    ensures |g| == 49
  {
    seq(49, r requires 0 <= r < 49 => RuleAt(r))
  }

  // ----- nullability -----

  /** The nonterminals with an empty rule. */
  predicate IsEmptiable(a: Symbol) {
    a == PARAMS || a == DCLS || a == STATEMENTS
  }

  /** A rule for a nonterminal that is not emptiable starts with a symbol that is not emptiable either. */
  predicate StartsSolid(rule: Rule) {
    && !IsTerminal(rule.lhs)
    && (!IsEmptiable(rule.lhs) ==> rule.rhs != [] && !IsEmptiable(rule.rhs[0]))
  }

  lemma RulesStartSolid()
    ensures |CFG()| == 49
    ensures forall r: nat :: r < |CFG()| ==> StartsSolid(CFG()[r]) && (r > 0 ==> CFG()[r].lhs != START)
  {
  }

  lemma {:induction false} SolidStays(g: Cfg, a: Form, b: Form, n: nat, i: nat)
    requires forall r: nat :: r < |g| ==> StartsSolid(g[r])
    requires i < |a| && !IsEmptiable(a[i]) && DerivesIn(g, a, b, n)
    ensures b != []
    decreases n
  {
    if n > 0 {
      var c: Form :| Step(g, a, c) && DerivesIn(g, c, b, n - 1);
      var p: nat, r: nat :| Rewrites(g, a, c, p, r);
      assert StartsSolid(g[r]);
      var j := if i < p then i else if i == p then p else i - 1 + |g[r].rhs|;
      assert c[j] == if i == p then g[r].rhs[0] else a[i];
      SolidStays(g, c, b, n - 1, j);
    }
  }

  /** The hypotheses under which the recogniser is right hold for this table. */
  lemma Wlp4IsAdmissible()
    ensures Admissible(CFG())
  {
    RulesStartSolid();
    assert CFG()[0].lhs == START;
    forall a: Symbol | Derives(CFG(), [a], [])
      ensures HasEmptyRule(CFG(), a)
    {
      var n: nat :| DerivesIn(CFG(), [a], [], n);
      if !IsEmptiable(a) {
        SolidStays(CFG(), [a], [], n, 0);
      }
      assert CFG()[5] == Rule(PARAMS, []) && CFG()[11] == Rule(DCLS, []) && CFG()[15] == Rule(STATEMENTS, []);
    }
  }

  // ----- productivity -----

  /** A rule for each nonterminal, all of whose nonterminals have a lower height. */
  function ShortRule(a: Symbol): nat
    requires !IsTerminal(a)
    ensures ShortRule(a) < 49
  {
    if a == START then 0 else if a == PROCEDURES then 2 else if a == PROCEDURE then 3 else if a == MAIN then 4
    else if a == PARAMS then 5 else if a == PARAMLIST then 7 else if a == TYPE then 9 else if a == DCL then 14
    else if a == DCLS then 11 else if a == STATEMENTS then 15 else if a == LVALUE then 46 else if a == EXPR then 28
    else if a == STATEMENT then 17 else if a == TEST then 22 else if a == TERM then 31 else if a == FACTOR then 35
    else 44
  }

  function Height(a: Symbol): nat {
    if IsTerminal(a) || IsEmptiable(a) then 0
    else if a == TYPE || a == LVALUE || a == FACTOR then 1
    else if a == DCL || a == TERM then 2
    else if a == PARAMLIST || a == EXPR then 3
    else if a == MAIN then 5
    else if a == PROCEDURES then 6
    else if a == START then 7
    else 4
  }

  lemma ShortRuleDescends(a: Symbol)
    requires !IsTerminal(a)
    ensures CFG()[ShortRule(a)].lhs == a
    ensures forall i :: 0 <= i < |CFG()[ShortRule(a)].rhs| ==>
                          IsTerminal(CFG()[ShortRule(a)].rhs[i]) || Height(CFG()[ShortRule(a)].rhs[i]) < Height(a) ||
                          (Height(a) == 0 && CFG()[ShortRule(a)].rhs == [])
  {
  }

  /** Every sentential form derives a terminal string. */
  lemma {:induction false} FormsAreProductive(a: Form, h: nat) returns (w: Form)
    requires forall i :: 0 <= i < |a| ==> Height(a[i]) <= h
    ensures AllTerminals(w) && Derives(CFG(), a, w)
    decreases h, |a|
  {
    DerivesRefl(CFG(), a);
    if a == [] {
      return [];
    }
    var front, x := a[..|a| - 1], a[|a| - 1];
    assert a == front + [x];
    var u := FormsAreProductive(front, h);
    var v := [x];
    DerivesRefl(CFG(), v);
    if !IsTerminal(x) {
      ShortRuleDescends(x);
      DerivesByRule(CFG(), ShortRule(x));
      var rhs := CFG()[ShortRule(x)].rhs;
      if rhs == [] {
        v := [];
      } else {
        v := FormsAreProductive(rhs, Height(x) - 1);
        DerivesTrans(CFG(), [x], rhs, v);
      }
    }
    DerivesBeside(CFG(), front, u, [x], v);
    w := u + v;
  }

  /** For WLP4 a viable word is exactly a prefix of some terminal string the grammar derives. */
  lemma ViableMeansPrefixOfSentence(w: Form)
    requires AllTerminals(w)
    ensures Viable(CFG(), w) <==> exists v: Form :: AllTerminals(v) && Derives(CFG(), [START], w + v)
  {
    assert CFG()[0].lhs == START;
    if Viable(CFG(), w) {
      var rest: Form :| Derives(CFG(), [START], w + rest);
      var v := FormsAreProductive(rest, 7);
      DerivesRefl(CFG(), w);
      DerivesBeside(CFG(), w, w, rest, v);
      DerivesTrans(CFG(), [START], w + rest, w + v);
    }
  }

  /** Not everything that is viable is a sentence: no program is empty, but the empty text is accepted. */
  lemma NothingIsViable()
    ensures Viable(CFG(), []) && !Derives(CFG(), [START], [])
  {
    RulesStartSolid();
    assert CFG()[0].lhs == START;
    DerivesRefl(CFG(), [START]);
    assert [] + [START] == [START];
    if Derives(CFG(), [START], []) {
      var n: nat :| DerivesIn(CFG(), [START], [], n);
      SolidStays(CFG(), [START], [], n, 0);
    }
  }
}
