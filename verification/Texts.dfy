/** How tokens are written, character by character: a table of spellings of its own, and what may stand between them.
    Lexing what is written gives the tokens back. */
module Texts {
  import opened Options
  import opened Symbols
  import opened Tokens
  import opened Numerals
  import opened Lexing

  // ----- the table -----

  /** What a terminal other than a name or a number is written as. */
  function Spelled(a: Symbol): string {
    if a == LPAREN then "(" else if a == RPAREN then ")" else if a == LBRACE then "{" else if a == RBRACE then "}"
    else if a == LBRACK then "[" else if a == RBRACK then "]" else if a == PLUS then "+" else if a == MINUS then "-"
    else if a == STAR then "*" else if a == SLASH then "/" else if a == PCT then "%" else if a == COMMA then ","
    else if a == SEMI then ";" else if a == AMP then "&" else if a == BECOMES then "=" else if a == EQ then "=="
    else if a == NE then "!=" else if a == LT then "<" else if a == LE then "<=" else if a == GT then ">"
    else if a == GE then ">=" else if a == RETURN then "return" else if a == IF then "if" else if a == ELSE then "else"
    else if a == WHILE then "while" else if a == PRINTLN then "println" else if a == WAIN then "wain"
    else if a == INT then "int" else if a == NEW then "new" else if a == DELETE then "delete"
    else if a == NULL then "NULL" else ""
  }

  const WORDS: set<string> :=
    {"return", "if", "else", "while", "println", "wain", "int", "new", "delete", "NULL"}

  predicate IsLetter(c: char) {
    'a' <= c <= 'z' || 'A' <= c <= 'Z'
  }

  predicate IsFigure(c: char) {
    '0' <= c <= '9'
  }

  predicate IsBlank(c: char) {
    c in {' ', '\t', '\n', '\r', 11 as char, 12 as char}
  }

  /** A letter, then letters and digits; none of the words above. */
  predicate IsName(s: string) {
    s != "" && IsLetter(s[0]) && s !in WORDS && forall i :: 0 <= i < |s| ==> IsLetter(s[i]) || IsFigure(s[i])
  }

  /** The number the digits spell. */
  function Decimal(s: string): nat
    requires forall i :: 0 <= i < |s| ==> IsFigure(s[i])
  {
    if s == "" then 0
    else
      var c := s[|s| - 1];
      assert IsFigure(c);
      10 * Decimal(s[..|s| - 1]) + (c as int - '0' as int)
  }

  /** Digits without a leading zero, for a number of 31 bits. */
  predicate IsNumber(s: string) {
    && s != "" && (forall i :: 0 <= i < |s| ==> IsFigure(s[i]))
    && (|s| > 1 ==> s[0] != '0') && Decimal(s) <= 2147483647
  }

  predicate IsWritten(t: Token) {
    if t.kind == ID then IsName(t.value)
    else if t.kind == NUM then IsNumber(t.value)
    else IsTerminal(t.kind) && t.value == Spelled(t.kind)
  }

  // ----- the lexer's tokens are those of the table -----

  lemma {:induction false} SameDecimal(s: string)
    requires forall i :: 0 <= i < |s| ==> IsFigure(s[i])
    ensures AllDigits(s) && NumberOf(s) == Decimal(s)
  {
    if s != "" {
      SameDecimal(s[..|s| - 1]);
    }
  }

  lemma SignsAreSpelled(s: string)
    requires Punctuation(s).Some?
    ensures var a := Punctuation(s).value; IsTerminal(a) && a != ID && a != NUM && Spelled(a) == s
  {
  }

  lemma SpelledSigns(a: Symbol)
    requires IsTerminal(a) && a != ID && a != NUM && Spelled(a) !in WORDS
    ensures Punctuation(Spelled(a)) == Some(a)
  {
  }

  lemma WordsAreSpelled(s: string)
    ensures s in WORDS ==>
              WordKind(s) != ID && IsTerminal(WordKind(s)) && WordKind(s) != NUM && Spelled(WordKind(s)) == s
    ensures s !in WORDS ==> WordKind(s) == ID
  {
  }

  lemma SpelledWords(a: Symbol)
    requires IsTerminal(a) && a != ID && a != NUM && Spelled(a) in WORDS
    ensures WordKind(Spelled(a)) == a && IsWord(Spelled(a))
  {
    var s := Spelled(a);
    assert forall i :: 0 <= i < |s| ==> IsAlpha(s[i]);
  }

  lemma NoSignIsWord(s: string)
    requires IsWord(s) || IsNumeral(s)
    ensures Punctuation(s).None? && !(IsWord(s) && IsNumeral(s))
  {
    if Punctuation(s).Some? {
      PunctuationIsShort(s);
    }
  }

  /** The tokeniser's tokens are exactly those written by the table. */
  lemma TokensAreWritten(t: Token)
    ensures IsToken(t) <==> IsWritten(t)
  {
    var s := t.value;
    if IsWord(s) || IsNumeral(s) {
      NoSignIsWord(s);
    }
    hide Punctuation, WordKind, Spelled, WORDS;
    if IsWord(s) {
      WordsAreSpelled(s);
    } else if IsNumeral(s) {
      SameDecimal(s);
      NoFigures(s);
    } else if Punctuation(s).Some? {
      SignsAreSpelled(s);
      SpelledIsNoName(Punctuation(s).value);
    }
    if IsTerminal(t.kind) && t.kind != ID && t.kind != NUM && s == Spelled(t.kind) {
      if s in WORDS {
        SpelledWords(t.kind);
      } else {
        SpelledSigns(t.kind);
      }
    }
  }

  /** No fixed spelling is a numeral. */
  lemma NoFigures(s: string)
    requires IsNumeral(s)
    ensures forall a :: IsTerminal(a) && a != ID && a != NUM ==> Spelled(a) != s
  {
    hide Spelled;
    forall a | IsTerminal(a) && a != ID && a != NUM
      ensures Spelled(a) != s
    {
      NoFigureFirst(a);
    }
  }

  lemma NoFigureFirst(a: Symbol)
    requires IsTerminal(a) && a != ID && a != NUM
    ensures Spelled(a) != "" && !IsFigure(Spelled(a)[0])
  {
  }

  lemma SpelledIsNoName(a: Symbol)
    requires Punctuation(Spelled(a)).Some?
    ensures !IsName(Spelled(a)) && !IsNumber(Spelled(a))
  {
    PunctuationIsShort(Spelled(a));
  }

  // ----- what may stand between tokens -----

  /** Two slashes up to and with a newline, the only one. */
  predicate IsRemark(s: string) {
    |s| > 2 && s[..2] == "//" && s[|s| - 1] == '\n' && forall i :: 0 <= i < |s| - 1 ==> s[i] != '\n'
  }

  /** Blanks and comments, one after the other. */
  predicate IsGap(s: string)
    decreases |s|
  {
    s == "" || (IsBlank(s[0]) && IsGap(s[1..])) ||
    exists k :: 0 < k <= |s| && IsRemark(s[..k]) && IsGap(s[k..])
  }

  /** The two do not run into each other: no word or number goes on, no sign becomes another one, no comment starts. */
  predicate MayMeet(v: string, rest: string)
    requires v != ""
  {
    rest != "" ==>
      var c := v[|v| - 1];
      && !((IsLetter(c) || IsFigure(c)) && (IsLetter(rest[0]) || IsFigure(rest[0])))
      && !(v in {"=", "<", ">"} && rest[0] == '=')
      && !(v == "/" && rest[0] == '/')
  }

  /** The tokens with gaps before, between and after them. */
  function Text(gaps: seq<string>, ts: seq<Token>): string
    requires |gaps| == |ts| + 1
    decreases |ts|
  {
    if ts == [] then gaps[0] else gaps[0] + (ts[0].value + Text(gaps[1..], ts[1..]))
  }

  predicate IsSpaced(gaps: seq<string>, ts: seq<Token>)
    requires |gaps| == |ts| + 1
    decreases |ts|
  {
    && IsGap(gaps[0])
    && (ts != [] ==>
          ts[0].value != "" && MayMeet(ts[0].value, Text(gaps[1..], ts[1..])) && IsSpaced(gaps[1..], ts[1..]))
  }

  /** The text ends in a token that looks at what comes next. */
  predicate EndsInSign(gaps: seq<string>, ts: seq<Token>)
    requires |gaps| == |ts| + 1
  {
    ts != [] && gaps[|ts|] == "" && ts[|ts| - 1].value in {"=", "<", ">", "/"}
  }

  // ----- lexing what is written -----

  lemma BlanksAreSpace(c: char)
    ensures IsBlank(c) <==> IsSpace(c)
  {
  }

  lemma RemarkIsComment(s: string, k: nat, rest: string)
    requires 0 < k <= |s| && IsRemark(s[..k])
    ensures IsComment(s + rest) && LineLength(s + rest) == k - 1 && !IsSpace((s + rest)[0])
    ensures IsSpace((s + rest)[k - 1]) && !LooksPastEnd(s + rest) && k > 2
  {
    var x, y := s[..k], s + rest;
    assert x[0] == '/' && x[1] == '/' by { assert x[..2][0] == x[0] && x[..2][1] == x[1]; }
    assert forall i :: 0 <= i < k ==> x[i] == y[i];
    var n := LineLength(y);
    assert y[k - 1] == '\n' && forall i :: 0 <= i < k - 1 ==> y[i] != '\n';
    assert n == k - 1;
  }

  /** A gap changes nothing in what follows it. */
  lemma {:induction false} GapIsSkipped(g: string, rest: string)
    requires IsGap(g)
    ensures Lex(g + rest) == Lex(rest) && (EndsOpen(g + rest) <==> EndsOpen(rest))
    decreases |g|
  {
    var s := g + rest;
    if g == "" {
      assert s == rest;
    } else if IsBlank(g[0]) && IsGap(g[1..]) {
      BlanksAreSpace(g[0]);
      BlankIsSkipped(s);
      assert s[1..] == g[1..] + rest;
      GapIsSkipped(g[1..], rest);
    } else {
      var k :| 0 < k <= |g| && IsRemark(g[..k]) && IsGap(g[k..]);
      RemarkIsComment(g, k, rest);
      assert s[k - 1..][1..] == s[k..] == g[k..] + rest;
      RemarkIsSkipped(s, k);
      GapIsSkipped(g[k..], rest);
    }
  }

  lemma BlankIsSkipped(s: string)
    requires s != "" && IsSpace(s[0])
    ensures Lex(s) == Lex(s[1..]) && (EndsOpen(s) <==> EndsOpen(s[1..]))
  {
  }

  lemma RemarkIsSkipped(s: string, k: nat)
    requires IsComment(s) && 2 < k <= |s| && LineLength(s) == k - 1 && !IsSpace(s[0]) && IsSpace(s[k - 1])
    requires !LooksPastEnd(s)
    ensures Lex(s) == Lex(s[k - 1..][1..]) && (EndsOpen(s) <==> EndsOpen(s[k - 1..][1..]))
  {
    hide LineLength, LooksPastEnd, IsComment;
    BlankIsSkipped(s[k - 1..]);
  }

  /** A token's value is taken whole where nothing runs into it. */
  lemma TakenWhole(v: string, rest: string)
    requires IsLexeme(v) && MayMeet(v, rest)
    ensures var s := v + rest;
            Munch(s) == |v| && s[..|v|] == v && s[|v|..] == rest && !IsSpace(s[0]) && !IsComment(s)
  {
    var s := v + rest;
    assert s[..|v|] == v && s[|v|..] == rest && s[0] == v[0];
    assert rest != "" ==> s[|v|] == rest[0];
    if IsWord(v) {
      assert forall i :: 0 <= i < |v| ==> s[i] == v[i];
    } else if IsNumeral(v) {
      assert forall i :: 0 <= i < |v| ==> s[i] == v[i];
    } else {
      SignTakenWhole(v, rest);
    }
  }

  lemma SignTakenWhole(v: string, rest: string)
    requires Punctuation(v).Some? && MayMeet(v, rest)
    ensures var s := v + rest; Munch(s) == |v| && !IsSpace(s[0]) && !IsComment(s)
  {
    var s := v + rest;
    PunctuationIsShort(v);
    assert s[0] == v[0] && s[..|v|] == v;
    if |v| == 1 && rest != "" {
      assert s[..2] == [v[0], rest[0]];
      if Punctuation(s[..2]).Some? {
        PunctuationIsShort(s[..2]);
        assert s[..2][1] == '=';
        NoSuchPair(v);
      }
    } else if |v| == 2 {
      assert s[..2] == v && s[1] == v[1];
    }
  }

  /** Only three signs become another one with an equals sign, and an exclamation mark is none. */
  lemma NoSuchPair(v: string)
    requires |v| == 1 && Punctuation(v).Some? && Punctuation([v[0], '=']).Some?
    ensures v in {"=", "<", ">"}
  {
    assert v == [v[0]];
  }

  lemma TokenComesFirst(t: Token, rest: string)
    requires IsToken(t) && MayMeet(t.value, rest)
    ensures Lex(t.value + rest) == Prepend(t, Lex(rest))
    ensures EndsOpen(t.value + rest) <==> (rest == "" && t.value in {"=", "<", ">", "/"}) || EndsOpen(rest)
  {
    var s := t.value + rest;
    TakenWhole(t.value, rest);
    OpenSign(t.value, rest);
    hide Classify, Munch, IsLexeme, IsComment, LooksPastEnd;
  }

  lemma OpenSign(v: string, rest: string)
    requires IsLexeme(v) && !IsComment(v + rest)
    ensures LooksPastEnd(v + rest) <==> rest == "" && v in {"=", "<", ">", "/"}
  {
    var s := v + rest;
    assert rest == "" ==> s == v;
    assert |s| == 1 ==> rest == "" && s == v;
  }

  /** Whatever is written with the table's spellings, and gaps where tokens would run into each other, is lexed as the
      tokens that were written. */
  lemma {:induction false} TextIsLexed(gaps: seq<string>, ts: seq<Token>)
    requires |gaps| == |ts| + 1 && IsSpaced(gaps, ts) && forall i :: 0 <= i < |ts| ==> IsWritten(ts[i])
    ensures Lex(Text(gaps, ts)) == Lexed(ts)
    ensures EndsOpen(Text(gaps, ts)) <==> EndsInSign(gaps, ts)
    decreases |ts|
  {
    hide IsWritten, IsGap, MayMeet, Lex, EndsOpen, IsToken;
    if ts == [] {
      assert gaps[0] + "" == gaps[0];
      GapIsSkipped(gaps[0], "");
      NothingIsLexed();
    } else {
      var rest := Text(gaps[1..], ts[1..]);
      TextIsLexed(gaps[1..], ts[1..]);
      TokensAreWritten(ts[0]);
      TokenComesFirst(ts[0], rest);
      GapIsSkipped(gaps[0], ts[0].value + rest);
      assert [ts[0]] + ts[1..] == ts;
      RestIsEmpty(gaps, ts);
    }
  }

  lemma NothingIsLexed()
    ensures Lex("") == Lexed([]) && !EndsOpen("")
  {
  }

  /** Nothing follows a token exactly if it is the last one and the gap after it is empty. */
  lemma RestIsEmpty(gaps: seq<string>, ts: seq<Token>)
    requires |gaps| == |ts| + 1 && ts != [] && IsSpaced(gaps, ts)
    ensures Text(gaps[1..], ts[1..]) == "" <==> |ts| == 1 && gaps[1] == ""
  {
    hide IsGap, MayMeet;
    if |ts| > 1 {
      assert ts[1..][0].value != "";
    }
  }

  /** With a gap at the end, or a last token that stands by itself, the file is read as its tokens. */
  lemma FileIsLexed(gaps: seq<string>, ts: seq<Token>)
    requires |gaps| == |ts| + 1 && IsSpaced(gaps, ts) && forall i :: 0 <= i < |ts| ==> IsWritten(ts[i])
    ensures LexFile(Text(gaps, ts)) == if EndsInSign(gaps, ts) then Failed(UnknownToken) else Lexed(ts)
  {
    hide IsWritten, IsSpaced, Lex, EndsOpen;
    TextIsLexed(gaps, ts);
  }

  // ----- what is refused -----

  /** Digits that are no number are refused, with the reason. */
  lemma BadNumberIsRefused(v: string, rest: string)
    requires v != "" && (forall i :: 0 <= i < |v| ==> IsFigure(v[i])) && (rest != "" ==> !IsFigure(rest[0]))
    requires !IsNumber(v)
    ensures Lex(v + rest) == Failed(if |v| > 1 && v[0] == '0' then LeadingZero else NumberTooLarge)
  {
    var s := v + rest;
    assert forall i :: 0 <= i < |v| ==> s[i] == v[i];
    assert s[..|v|] == v && s[|v|..] == rest && (rest != "" ==> s[|v|] == rest[0]);
    SameDecimal(v);
    NoSignIsWord(v);
    assert Munch(s) == |v|;
    hide Munch, IsComment;
  }

  lemma NoSign(c: char)
    requires c !in "(){}[]+-*/%,;&=<>"
    ensures Punctuation([c]).None?
  {
  }

  lemma NoPair(c: char, d: char)
    requires c !in "=<>" && !(c == '!' && d == '=')
    ensures Punctuation([c, d]).None?
  {
    var s := [c, d];
    assert s[0] == c && s[1] == d;
  }

  /** A character that is no blank, letter or digit and begins no sign is refused. */
  lemma StrangeIsRefused(s: string)
    requires s != "" && !IsBlank(s[0]) && !IsLetter(s[0]) && !IsFigure(s[0])
    requires s[0] !in "(){}[]+-*/%,;&=<>" && !(s[0] == '!' && |s| > 1 && s[1] == '=')
    ensures Lex(s) == Failed(UnknownToken)
  {
    BlanksAreSpace(s[0]);
    NoSign(s[0]);
    assert s[..1] == [s[0]] && s[0] !in "=<>" && s[0] != '/';
    hide Punctuation, IsSpace, IsBlank;
    if |s| > 1 {
      NoPair(s[0], s[1]);
      assert s[..2] == [s[0], s[1]];
    }
    assert Munch(s) == 0;
  }
}
