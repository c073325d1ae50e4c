/** The lexical rules: what the spellings of tokens are, and that the longest one is taken. */
module Lexing {
  import opened Options
  import opened Symbols
  import opened Tokens
  import opened Numerals

  datatype LexError = UnknownToken | LeadingZero | NumberTooLarge

  datatype Lexed = Lexed(tokens: seq<Token>) | Failed(error: LexError)

  predicate IsSpace(c: char) {
    c == ' ' || c == '\t' || c == '\n' || c == 11 as char || c == 12 as char || c == '\r'
  }

  predicate IsAlpha(c: char) {
    'a' <= c <= 'z' || 'A' <= c <= 'Z'
  }

  predicate IsAlnum(c: char) {
    IsAlpha(c) || IsDigit(c)
  }

  /** The tokens that are neither words nor numbers. */
  function Punctuation(s: string): Option<Symbol> {
    if s == "(" then Some(LPAREN) else if s == ")" then Some(RPAREN)
    else if s == "{" then Some(LBRACE) else if s == "}" then Some(RBRACE)
    else if s == "[" then Some(LBRACK) else if s == "]" then Some(RBRACK)
    else if s == "+" then Some(PLUS) else if s == "-" then Some(MINUS)
    else if s == "*" then Some(STAR) else if s == "/" then Some(SLASH) else if s == "%" then Some(PCT)
    else if s == "," then Some(COMMA) else if s == ";" then Some(SEMI) else if s == "&" then Some(AMP)
    else if s == "=" then Some(BECOMES) else if s == "==" then Some(EQ) else if s == "!=" then Some(NE)
    else if s == "<" then Some(LT) else if s == "<=" then Some(LE)
    else if s == ">" then Some(GT) else if s == ">=" then Some(GE)
    else None
  }

  predicate IsWord(s: string) {
    s != [] && IsAlpha(s[0]) && forall i :: 0 <= i < |s| ==> IsAlnum(s[i])
  }

  predicate IsNumeral(s: string) {
    s != [] && AllDigits(s)
  }

  function WordKind(s: string): Symbol {
    if s == "return" then RETURN else if s == "if" then IF else if s == "else" then ELSE
    else if s == "while" then WHILE else if s == "println" then PRINTLN else if s == "wain" then WAIN
    else if s == "int" then INT else if s == "new" then NEW else if s == "delete" then DELETE
    else if s == "NULL" then NULL else ID
  }

  /** Punctuation, a word or a run of digits. */
  predicate IsLexeme(s: string) {
    Punctuation(s).Some? || IsWord(s) || IsNumeral(s)
  }

  /** The kind of a lexeme; a run of digits must be a number without a leading zero and fit 32 signed bits. */
  function Classify(s: string): (r: (Symbol, Option<LexError>))
    requires IsLexeme(s)
  {
    if IsWord(s) then (WordKind(s), None)
    else if IsNumeral(s) then
      (NUM,
       if |s| > 1 && s[0] == '0' then Some(LeadingZero)
       else if NumberOf(s) > MAX_NUM then Some(NumberTooLarge)
       else None)
    else (Punctuation(s).value, None)
  }

  /** How many characters at the front are letters or digits. */
  function AlnumRun(s: string): (n: nat)
    ensures n <= |s| && (forall i :: 0 <= i < n ==> IsAlnum(s[i])) && (n < |s| ==> !IsAlnum(s[n]))
  {
    if s == [] || !IsAlnum(s[0]) then 0 else 1 + AlnumRun(s[1..])
  }

  function DigitRun(s: string): (n: nat)
    ensures n <= |s| && (forall i :: 0 <= i < n ==> IsDigit(s[i])) && (n < |s| ==> !IsDigit(s[n]))
  {
    if s == [] || !IsDigit(s[0]) then 0 else 1 + DigitRun(s[1..])
  }

  /** The length of the longest lexeme at the front, or 0. */
  function Munch(s: string): (n: nat)
    requires s != []
    ensures n <= |s|
  {
    if IsAlpha(s[0]) then AlnumRun(s)
    else if IsDigit(s[0]) then DigitRun(s)
    else if |s| > 1 && Punctuation(s[..2]).Some? then 2
    else if Punctuation(s[..1]).Some? then 1
    else 0
  }

  /** The length of a comment, up to the end of its line. */
  function LineLength(s: string): (n: nat)
    ensures n <= |s| && (forall i :: 0 <= i < n ==> s[i] != '\n') && (n < |s| ==> s[n] == '\n')
  {
    if s == [] || s[0] == '\n' then 0 else 1 + LineLength(s[1..])
  }

  predicate IsComment(s: string) {
    |s| > 1 && s[0] == '/' && s[1] == '/'
  }

  function Prepend(t: Token, r: Lexed): Lexed {
    match r case Lexed(ts) => Lexed([t] + ts) case Failed(error) => Failed(error)
  }

  /** The tokens of a text. */
  function Lex(s: string): Lexed
    decreases |s|
  {
    if s == [] then Lexed([])
    else if IsSpace(s[0]) then Lex(s[1..])
    else if IsComment(s) then Lex(s[(LongerThanNothing(s); LineLength(s))..])
    else
      var n := Munch(s);
      if n == 0 then Failed(UnknownToken)
      else
        var text := (MunchIsLexeme(s); s[..n]);
        match Classify(text).1
        case Some(error) => Failed(error)
        case None => Prepend(Token(Classify(text).0, text), Lex(s[n..]))
  }

  /** Where one character more is read and cannot be put back: a comment that nothing ends, or one of these signs. */
  predicate LooksPastEnd(s: string) {
    s == "=" || s == "<" || s == ">" || s == "/" || (IsComment(s) && LineLength(s) == |s|)
  }

  /** Taken lexeme by lexeme, the text comes to such an end. */
  predicate EndsOpen(s: string)
    decreases |s|
  {
    if s == [] then false
    else if LooksPastEnd(s) then true
    else if IsSpace(s[0]) then EndsOpen(s[1..])
    else if IsComment(s) then EndsOpen(s[(LongerThanNothing(s); LineLength(s))..])
    else Munch(s) > 0 && EndsOpen(s[Munch(s)..])
  }

  /** The tokens of a file: after an open end, what is read is taken for one more character, which starts no token. */
  function LexFile(s: string): Lexed {
    if Lex(s).Lexed? && EndsOpen(s) then Failed(UnknownToken) else Lex(s)
  }

  lemma LongerThanNothing(s: string)
    requires IsComment(s)
    ensures LineLength(s) > 0
  {
  }

  lemma MunchIsLexeme(s: string)
    requires s != [] && Munch(s) > 0
    ensures IsLexeme(s[..Munch(s)])
  {
    var x := s[..Munch(s)];
    if IsAlpha(s[0]) {
      assert x[0] == s[0] && forall i :: 0 <= i < |x| ==> x[i] == s[i];
    } else if IsDigit(s[0]) {
      assert forall i :: 0 <= i < |x| ==> x[i] == s[i];
    }
  }

  lemma PunctuationIsShort(s: string)
    requires Punctuation(s).Some?
    ensures 1 <= |s| <= 2 && !IsAlnum(s[0]) && !IsSpace(s[0])
    ensures |s| == 2 ==> s[1] == '='
  {
  }

  /** The longest match: what is taken is a lexeme, and no longer prefix is one. */
  lemma MunchIsLongest(s: string, n: nat)
    requires s != [] && Munch(s) < n <= |s|
    ensures !IsLexeme(s[..n])
  {
    var x, m := s[..n], Munch(s);
    assert x[0] == s[0] && x[m] == s[m];
    if Punctuation(x).Some? {
      PunctuationIsShort(x);
    }
  }

  // ----- the end of the file -----

  /** A newline at the end changes no lexeme. */
  lemma NewlineKeepsMunch(s: string)
    requires s != []
    ensures Munch(s + "\n") == Munch(s) && (IsComment(s + "\n") <==> IsComment(s))
    ensures LineLength(s + "\n") == LineLength(s) && !LooksPastEnd(s + "\n")
  {
    var t := s + "\n";
    assert t[|s|] == '\n' && t[0] == s[0] && t[..1] == s[..1];
    assert forall i :: 0 <= i < |s| ==> t[i] == s[i];
    if |s| > 1 {
      assert t[..2] == s[..2];
    } else if Punctuation(t[..2]).Some? {
      PunctuationIsShort(t[..2]);
    }
  }

  /** Every text lexes as it does with a newline after it, which closes it. */
  lemma {:induction false} NewlineCloses(s: string)
    ensures Lex(s + "\n") == Lex(s) && !EndsOpen(s + "\n") && LexFile(s + "\n") == Lex(s)
    decreases |s|
  {
    var t := s + "\n";
    if s == [] {
      assert t == "\n";
      OnlyNewline();
    } else {
      NewlineKeepsMunch(s);
      var n := if IsSpace(s[0]) then 1 else if IsComment(s) then (LongerThanNothing(s); LineLength(s)) else Munch(s);
      assert t[..n] == s[..n] && t[n..] == s[n..] + "\n";
      hide Munch, LineLength, Classify, IsComment, LooksPastEnd;
      if n > 0 {
        NewlineCloses(s[n..]);
      }
    }
  }

  /** How far one step of the lexer goes. */
  function StepLength(s: string): nat
    requires s != []
  {
    if IsSpace(s[0]) then 1 else if IsComment(s) then LineLength(s) else Munch(s)
  }

  /** The number of equals signs at the end. */
  function TrailingEquals(s: string): (n: nat)
    ensures n <= |s| && (forall i :: |s| - n <= i < |s| ==> s[i] == '=') && (n < |s| ==> s[|s| - n - 1] != '=')
  {
    if s == [] || s[|s| - 1] != '=' then 0 else 1 + TrailingEquals(s[..|s| - 1])
  }

  /** Taken two by two, and the first with a sign before it, one equals sign at the end is left over. */
  predicate HasOddEquals(s: string) {
    var n := TrailingEquals(s);
    n > 0 && (n - if n < |s| && s[|s| - n - 1] in "!<>" then 1 else 0) % 2 == 1
  }

  predicate HasLastComment(s: string) {
    exists k :: 0 <= k < |s| && IsLastComment(s, k)
  }

  predicate IsLastComment(s: string, k: nat)
    requires k < |s|
  {
    IsComment(s[k..]) && LineLength(s[k..]) == |s| - k
  }

  /** A comment on the last line, a slash or a sign of order at the very end, or an equals sign left over there. */
  predicate HasOpenEnd(s: string) {
    s != [] && (HasLastComment(s) || s[|s| - 1] in "/<>" || HasOddEquals(s))
  }

  /** Inside a step of the lexer no comment starts, unless the step is one. */
  lemma NoCommentInside(s: string, k: nat)
    requires s != [] && 0 < k < StepLength(s) <= |s| && !(IsComment(s) && StepLength(s) == |s|)
    ensures !IsLastComment(s, k)
  {
    var t, n := s[k..], StepLength(s);
    assert forall i :: 0 <= i < |t| ==> t[i] == s[k + i];
    if IsComment(s) {
      assert t[n - k] == s[n] == '\n';
    } else if !IsAlnum(s[0]) {
      PunctuationIsShort(s[..2]);
      assert s[..2][1] == s[1] == t[0] == '=';
    } else {
      assert IsAlnum(t[0]);
    }
  }

  lemma CommentStep(s: string)
    requires s != [] && 0 < StepLength(s)
    ensures StepLength(s) <= |s|
    ensures HasLastComment(s) <==>
            (IsComment(s) && StepLength(s) == |s|) || HasLastComment(s[StepLength(s)..])
  {
    var n := StepLength(s);
    var rest := s[n..];
    assert s[0..] == s;
    hide IsComment, StepLength, LineLength;
    if k :| 0 <= k < |s| && IsLastComment(s, k) {
      if 0 < k < n {
        if !(IsComment(s) && n == |s|) {
          NoCommentInside(s, k);
        }
      } else if n <= k {
        assert rest[k - n..] == s[k..];
        assert IsLastComment(rest, k - n);
      } else {
        StepOfComment(s);
      }
    }
    if k :| 0 <= k < |rest| && IsLastComment(rest, k) {
      assert rest[k..] == s[n + k..];
      assert IsLastComment(s, n + k);
    }
    if IsComment(s) && n == |s| {
      StepOfComment(s);
      assert IsLastComment(s, 0);
    }
  }

  lemma StepOfComment(s: string)
    requires IsComment(s)
    ensures StepLength(s) == LineLength(s)
  {
  }

  lemma {:induction false} TrailingSplit(a: string, b: string)
    ensures TrailingEquals(a + b) == TrailingEquals(b) + if TrailingEquals(b) < |b| then 0 else TrailingEquals(a)
    decreases |b|
  {
    if b == [] {
      assert a + b == a;
    } else {
      assert (a + b)[..|a + b| - 1] == a + b[..|b| - 1];
      TrailingSplit(a, b[..|b| - 1]);
    }
  }

  /** A step with something after it takes equals signs two by two, or one with the sign before it. */
  lemma EqualsStep(s: string)
    requires s != [] && 0 < StepLength(s) < |s|
    ensures HasOddEquals(s) <==> HasOddEquals(s[StepLength(s)..])
  {
    hide StepLength, TrailingEquals;
    var n := StepLength(s);
    var x, rest := s[..n], s[n..];
    assert s == x + rest;
    TrailingSplit(x, rest);
    var m := TrailingEquals(rest);
    if m < |rest| {
      assert s[|s| - m - 1] == rest[|rest| - m - 1];
    } else {
      assert rest[0] == '=';
      BeforeEquals(s, n);
    }
  }

  /** What a step takes before an equals sign it leaves. */
  lemma BeforeEquals(s: string, n: nat)
    requires s != [] && 0 < n == StepLength(s) < |s| && s[n] == '='
    ensures s[n - 1] !in "!<>"
    ensures TrailingEquals(s[..n]) == if s[n - 1] != '=' then 0 else if s[0] == '=' then 2 else 1
    ensures s[n - 1] == '=' ==> n == 2 && (s[0] != '=' ==> s[0] in "!<>")
  {
    var x := s[..n];
    assert x[n - 1] == s[n - 1] && x[..n - 1] == s[..n - 1];
    if IsComment(s) || IsSpace(s[0]) || IsAlnum(s[0]) {
      assert s[n - 1] != '=';
    } else {
      SignsBefore(s, n);
    }
  }

  lemma SignsBefore(s: string, n: nat)
    requires |s| > n && 0 < n == Munch(s) && !IsAlnum(s[0]) && s[n] == '='
    ensures s[n - 1] !in "!<>"
    ensures TrailingEquals(s[..n]) == if s[n - 1] != '=' then 0 else if s[0] == '=' then 2 else 1
    ensures s[n - 1] == '=' ==> n == 2 && (s[0] != '=' ==> s[0] in "!<>")
  {
    var two := s[..2];
    assert two == [s[0], s[1]] && s[..1] == [s[0]];
    if n == 1 {
      assert two == "==" <==> s[0] == '=';
      assert two == "!=" <==> s[0] == '!';
      assert two == "<=" <==> s[0] == '<';
      assert two == ">=" <==> s[0] == '>';
      assert TrailingEquals(s[..1]) == 0;
    } else {
      PunctuationIsShort(two);
      assert two == "==" || two == "!=" || two == "<=" || two == ">=";
      assert two[..1] == [s[0]] && [s[0]][..0] == [];
      assert TrailingEquals(two[..1]) == if s[0] == '=' then 1 else 0;
    }
  }

  /** The last step of a text. */
  lemma LastStep(s: string)
    requires s != [] && 0 < StepLength(s) == |s| && !IsComment(s)
    ensures LooksPastEnd(s) <==> s[|s| - 1] in "/<>" || HasOddEquals(s)
  {
    if IsSpace(s[0]) || IsAlnum(s[0]) {
      assert !(s[|s| - 1] in "/<>=");
      assert TrailingEquals(s) == 0;
    } else if |s| == 1 {
      assert s == [s[0]] && s[..0] == [];
      assert TrailingEquals(s) == if s[0] == '=' then 1 else 0;
    } else {
      assert s[..2] == s;
      PunctuationIsShort(s);
      assert s[..1] == [s[0]] && [s[0]][..0] == [];
      assert TrailingEquals(s[..1]) == if s[0] == '=' then 1 else 0;
      assert s == "==" || s == "!=" || s == "<=" || s == ">=";
    }
  }

  lemma OpenEndStep(s: string)
    requires s != [] && 0 < StepLength(s)
    ensures StepLength(s) <= |s| && (HasOpenEnd(s) <==> LooksPastEnd(s) || HasOpenEnd(s[StepLength(s)..]))
  {
    hide StepLength, HasOddEquals, HasLastComment;
    CommentStep(s);
    var n := StepLength(s);
    if n == |s| {
      assert s[n..] == [] && !HasLastComment([]) by { NoneHas(); }
      if IsComment(s) {
        StepOfComment(s);
      } else {
        LastStep(s);
      }
    } else {
      EqualsStep(s);
      assert s[n..][|s| - n - 1] == s[|s| - 1];
      LongStep(s);
    }
  }

  lemma NoneHas()
    ensures !HasLastComment([])
  {
  }

  lemma LongStep(s: string)
    requires s != [] && 0 < StepLength(s) < |s|
    ensures !LooksPastEnd(s)
  {
  }

  /** A text that lexes ends open if and only if it has one of these ends. */
  lemma {:induction false} OpenEnd(s: string)
    requires Lex(s).Lexed?
    ensures EndsOpen(s) <==> HasOpenEnd(s)
    decreases |s|
  {
    if s != [] {
      var n := StepLength(s);
      StepIsTaken(s);
      OpenEnd(s[n..]);
      OpenEndStep(s);
      hide HasOpenEnd, LooksPastEnd;
    }
  }

  lemma StepIsTaken(s: string)
    requires s != [] && Lex(s).Lexed?
    ensures 0 < StepLength(s) <= |s| && Lex(s[StepLength(s)..]).Lexed?
    ensures EndsOpen(s) <==> LooksPastEnd(s) || EndsOpen(s[StepLength(s)..])
  {
    hide LooksPastEnd, Classify;
    if IsComment(s) {
      LongerThanNothing(s);
    }
  }

  // ----- printing -----

  /** A token whose value is a spelling of its kind. */
  predicate IsToken(t: Token) {
    IsLexeme(t.value) && Classify(t.value) == (t.kind, None)
  }

  /** The values of the tokens, each followed by a space. */
  function Printed(ts: seq<Token>): string {
    if ts == [] then [] else ts[0].value + " " + Printed(ts[1..])
  }

  /** A lexeme before a space is taken whole. */
  lemma MunchStopsAtSpace(v: string, rest: string)
    requires IsLexeme(v)
    ensures var s := v + (" " + rest);
            Munch(s) == |v| && s[..|v|] == v && s[|v|..] == " " + rest && !IsSpace(s[0]) && !IsComment(s)
  {
    var s := v + (" " + rest);
    assert s[..|v|] == v && s[|v|..] == " " + rest && s[|v|] == ' ';
    assert s[0] == v[0];
    if IsWord(v) {
      assert forall i :: 0 <= i < |v| ==> s[i] == v[i];
    } else if IsNumeral(v) {
      assert forall i :: 0 <= i < |v| ==> s[i] == v[i];
    } else {
      PunctuationIsShort(v);
      if |v| == 1 {
        assert s[..2][1] == s[1] == ' ';
        if Punctuation(s[..2]).Some? {
          PunctuationIsShort(s[..2]);
        }
      } else {
        assert s[..2] == v;
      }
    }
  }

  lemma FirstToken(t: Token, rest: string)
    requires IsToken(t)
    ensures Lex(t.value + (" " + rest)) == Prepend(t, Lex(rest))
  {
    var s := t.value + (" " + rest);
    MunchStopsAtSpace(t.value, rest);
    hide Classify, Munch, IsLexeme, IsComment;
    assert (" " + rest)[1..] == rest && Lex(" " + rest) == Lex(rest);
  }

  /** Lexing the printed tokens, with a newline at the end, gives the tokens. */
  lemma {:induction false} PrintRoundTrip(ts: seq<Token>)
    requires forall i :: 0 <= i < |ts| ==> IsToken(ts[i])
    ensures Lex(Printed(ts) + "\n") == Lexed(ts)
    decreases |ts|
  {
    hide IsToken;
    if ts == [] {
      assert Printed(ts) + "\n" == "\n";
      OnlyNewline();
    } else {
      hide Lex;
      var rest := Printed(ts[1..]) + "\n";
      assert Printed(ts) + "\n" == ts[0].value + (" " + rest);
      PrintRoundTrip(ts[1..]);
      FirstToken(ts[0], rest);
      assert [ts[0]] + ts[1..] == ts;
    }
  }

  lemma OnlyNewline()
    ensures Lex("\n") == Lexed([]) && !EndsOpen("\n")
  {
    assert "\n"[1..] == [];
  }

  /** Every token of a lexed text has a value that spells its kind. */
  lemma {:induction false} LexedAreTokens(s: string)
    requires Lex(s).Lexed?
    ensures forall i :: 0 <= i < |Lex(s).tokens| ==> IsToken(Lex(s).tokens[i])
    decreases |s|
  {
    if s == [] {
    } else if IsSpace(s[0]) {
      LexedAreTokens(s[1..]);
    } else if IsComment(s) {
      LexedAreTokens(s[LineLength(s)..]);
    } else {
      MunchIsLexeme(s);
      LexedAreTokens(s[Munch(s)..]);
    }
  }

  /** The numbers from 0 to 2147483647 and the spellings of NUM tokens correspond one to one. */
  lemma NumbersAreSpelled(n: nat)
    ensures n <= MAX_NUM <==> IsToken(Token(NUM, Spelling(n)))
    ensures n <= MAX_NUM ==> Stoi(Spelling(n)) == Some(n)
  {
    SpellingRoundTrip(n);
    NoPunctuationDigits(Spelling(n));
  }

  lemma SpellingsAreNumbers(s: string)
    requires IsToken(Token(NUM, s))
    ensures Stoi(s).Some? && Spelling(Stoi(s).value) == s
  {
    NoOtherNum(s);
    NumberRoundTrip(s);
  }

  lemma NoPunctuationDigits(s: string)
    requires IsNumeral(s)
    ensures !IsWord(s)
  {
  }

  lemma NoOtherNum(s: string)
    requires IsToken(Token(NUM, s))
    ensures IsNumeral(s) && NumberOf(s) <= MAX_NUM && IsSpelling(s)
  {
  }
}
