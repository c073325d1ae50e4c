/** The tokeniser: one pass over the characters, appending tokens. */
module Tokeniser {
  import opened Options
  import opened Symbols
  import opened Tokens
  import opened Numerals
  import opened Lexing

  /** What is left of the text, after the tokens so far. */
  function Ahead(ts: seq<Token>, r: Lexed): Lexed {
    match r case Lexed(rest) => Lexed(ts + rest) case Failed(error) => Failed(error)
  }

  /** A step of n characters comes to the end of the text, or goes on to what ends open if and only if it does. */
  lemma EndAhead(text: string, i: nat, n: nat)
    requires i + n <= |text| && n > 0
    requires var s := text[i..]; n == if IsSpace(s[0]) then 1 else if IsComment(s) then LineLength(s) else Munch(s)
    ensures EndsOpen(text[i..]) <==> LooksPastEnd(text[i..]) || EndsOpen(text[i + n..])
  {
    assert text[i..][n..] == text[i + n..];
    hide Munch, LineLength, IsComment, LooksPastEnd;
  }

  /** Which steps look past the end. */
  lemma OpenAhead(text: string, i: nat)
    requires i < |text|
    ensures LooksPastEnd(text[i..]) <==>
            || (i + 1 == |text| && text[i] in "/=<>")
            || (IsComment(text[i..]) && LineLength(text[i..]) == |text| - i)
  {
    if i + 1 == |text| {
      assert text[i..] == [text[i]];
    }
  }

  lemma TokenAhead(ts: seq<Token>, s: string, n: nat, kind: Symbol)
    requires s != [] && !IsSpace(s[0]) && !IsComment(s) && n == Munch(s) > 0 && IsLexeme(s[..n]) &&
             Classify(s[..n]) == (kind, None)
    ensures Ahead(ts, Lex(s)) == Ahead(ts + [Token(kind, s[..n])], Lex(s[n..]))
  {
    hide Munch, Classify, IsLexeme, IsComment;
    if Lex(s[n..]).Lexed? {
      var t, rest := Token(kind, s[..n]), Lex(s[n..]).tokens;
      assert ts + ([t] + rest) == (ts + [t]) + rest;
    }
  }

  lemma ErrorAhead(ts: seq<Token>, s: string, n: nat, error: LexError)
    requires s != [] && !IsSpace(s[0]) && !IsComment(s) && n == Munch(s)
    requires if n == 0 then error == UnknownToken else IsLexeme(s[..n]) && Classify(s[..n]).1 == Some(error)
    ensures Ahead(ts, Lex(s)) == Failed(error)
  {
    hide Munch, Classify, IsLexeme, IsComment;
  }

  lemma SpaceAhead(text: string, i: nat)
    requires i < |text| && IsSpace(text[i])
    ensures Lex(text[i..]) == Lex(text[i + 1..])
  {
    assert text[i..][1..] == text[i + 1..];
  }

  lemma CommentAhead(text: string, i: nat, n: nat)
    requires i + 1 < |text| && text[i] == '/' && text[i + 1] == '/' && n == LineLength(text[i..])
    ensures i + n <= |text| && Lex(text[i..]) == Lex(text[i + n..])
  {
    assert text[i..][n..] == text[i + n..];
  }

  /** How long punctuation is at a character that starts no word and no number. */
  lemma PunctuationLength(s: string)
    requires s != [] && !IsAlnum(s[0])
    ensures s[0] in "=!<>" ==> Munch(s) == if |s| > 1 && s[1] == '=' then 2 else if s[0] == '!' then 0 else 1
    ensures s[0] !in "=!<>" ==> Munch(s) == if Punctuation([s[0]]).Some? then 1 else 0
    ensures s[0] in "=<>" ==> Punctuation([s[0]]).Some?
    ensures s[..1] == [s[0]]
  {
    assert s[..1] == [s[0]];
    if |s| > 1 {
      var two := s[..2];
      assert two == [s[0], s[1]];
      assert two == "==" <==> s[0] == '=' && s[1] == '=';
      assert two == "!=" <==> s[0] == '!' && s[1] == '=';
      assert two == "<=" <==> s[0] == '<' && s[1] == '=';
      assert two == ">=" <==> s[0] == '>' && s[1] == '=';
    }
  }

  /** Punctuation of length n at position i. */
  lemma PunctuationAhead(ts: seq<Token>, text: string, i: nat, n: nat)
    requires i < |text| && !IsAlnum(text[i]) && !IsSpace(text[i]) && !IsComment(text[i..])
    requires n == Munch(text[i..])
    ensures if n == 0 then Ahead(ts, Lex(text[i..])) == Failed(UnknownToken)
            else
              && i + n <= |text| && Punctuation(text[i..i + n]).Some?
              && Ahead(ts, Lex(text[i..])) ==
                 Ahead(ts + [Token(Punctuation(text[i..i + n]).value, text[i..i + n])], Lex(text[i + n..]))
  {
    var s := text[i..];
    if n == 0 {
      ErrorAhead(ts, s, 0, UnknownToken);
    } else {
      assert s[..n] == text[i..i + n] && s[n..] == text[i + n..];
      assert Punctuation(s[..n]).Some?;
      PunctuationIsShort(s[..n]);
      hide Lex;
      TokenAhead(ts, s, n, Punctuation(s[..n]).value);
    }
  }

  lemma WordAhead(ts: seq<Token>, text: string, i: nat, j: nat)
    requires i < j <= |text| && IsAlpha(text[i]) && j - i == AlnumRun(text[i..])
    ensures j - i == Munch(text[i..]) && !LooksPastEnd(text[i..])
    ensures Ahead(ts, Lex(text[i..])) == Ahead(ts + [Token(WordKind(text[i..j]), text[i..j])], Lex(text[j..]))
  {
    var s, n := text[i..], j - i;
    assert s[..n] == text[i..j] && s[n..] == text[j..];
    assert IsWord(s[..n]);
    hide Lex, WordKind;
    TokenAhead(ts, s, n, WordKind(s[..n]));
  }

  lemma NumberAhead(ts: seq<Token>, text: string, i: nat, j: nat)
    requires i < j <= |text| && IsDigit(text[i]) && j - i == DigitRun(text[i..])
    ensures j - i == Munch(text[i..]) && !LooksPastEnd(text[i..])
    ensures IsNumeral(text[i..j])
    ensures match Classify(text[i..j]).1
            case Some(error) => Ahead(ts, Lex(text[i..])) == Failed(error)
            case None => Ahead(ts, Lex(text[i..])) == Ahead(ts + [Token(NUM, text[i..j])], Lex(text[j..]))
  {
    var s, n := text[i..], j - i;
    assert s[..n] == text[i..j] && s[n..] == text[j..];
    NoPunctuationDigits(s[..n]);
    hide Lex;
    match Classify(s[..n]).1
    case Some(error) => ErrorAhead(ts, s, n, error);
    case None => TokenAhead(ts, s, n, NUM);
  }

  class Tokeniser {
    var tokens: seq<Token>

    constructor ()
      ensures tokens == []
    {
      tokens := [];
    }

    method AddToken(kind: Symbol, value: string)
      modifies this`tokens
      ensures tokens == old(tokens) + [Token(kind, value)]
    {
      tokens := tokens + [Token(kind, value)];
    }

    /** The end of the line a comment is on, or of the text. */
    method SkipComment(text: string, i: nat) returns (j: nat)
      requires i + 1 < |text| && text[i] == '/' && text[i + 1] == '/'
      ensures i < j <= |text| && j - i == LineLength(text[i..])
    {
      j := i + 2;
      while j < |text| && text[j] != '\n'
        invariant i < j <= |text| && forall m :: i <= m < j ==> text[m] != '\n'
      {
        j := j + 1;
      }
    }

    /** The end of the word that starts at position i. */
    method WordEnd(text: string, i: nat) returns (j: nat)
      requires i < |text| && IsAlpha(text[i])
      ensures i < j <= |text| && j - i == AlnumRun(text[i..])
    {
      j := i + 1;
      while j < |text| && !IsSpace(text[j]) && IsAlnum(text[j])
        invariant i < j <= |text| && forall m :: i <= m < j ==> IsAlnum(text[m])
      {
        j := j + 1;
      }
    }

    method NumberEnd(text: string, i: nat) returns (j: nat)
      requires i < |text| && IsDigit(text[i])
      ensures i < j <= |text| && j - i == DigitRun(text[i..])
    {
      j := i + 1;
      while j < |text| && !IsSpace(text[j]) && IsDigit(text[j])
        invariant i < j <= |text| && forall m :: i <= m < j ==> IsDigit(text[m])
      {
        j := j + 1;
      }
    }

    /** The token of punctuation at position i and where it ends, if there is one. */
    method TakePunctuation(text: string, i: nat) returns (j: nat)
      requires i < |text| && !IsAlnum(text[i]) && !IsSpace(text[i]) && !IsComment(text[i..])
      modifies this`tokens
      ensures j == i + Munch(text[i..])
      ensures j == i ==> Ahead(old(tokens), Lex(text[i..])) == Failed(UnknownToken)
      ensures j > i ==> j <= |text| && Ahead(old(tokens), Lex(text[i..])) == Ahead(tokens, Lex(text[j..]))
    {
      hide Lex, Munch, Punctuation, IsComment;
      var ch := text[i];
      PunctuationLength(text[i..]);
      var n :=
        if ch in "=!<>" && i + 1 < |text| && text[i + 1] == '=' then 2
        else if ch != '!' && Punctuation([ch]).Some? then 1
        else 0;
      PunctuationAhead(tokens, text, i, n);
      j := i + n;
      if n > 0 {
        AddToken(Punctuation(text[i..j]).value, text[i..j]);
      }
    }

    /** On success the tokens of the file are added; otherwise the first error is returned. */
    method Tokenise(text: string) returns (error: Option<LexError>)
      modifies this`tokens
      ensures match LexFile(text)
              case Lexed(ts) => error == None && tokens == old(tokens) + ts
              case Failed(e) => error == Some(e)
    {
      hide Lex, LexFile, Classify, Munch, Punctuation, WordKind, EndsOpen, LineLength, LooksPastEnd, IsComment;
      var i := 0;
      assert text[0..] == text;
      while i < |text|
        invariant 0 <= i <= |text| && IsOnTheWay(old(tokens), text, tokens, i)
        decreases |text| - i
      {
        var ch := text[i];
        var isOpen := false;
        var j;
        ghost var was := tokens;
        CommentsStart(text, i);
        if IsSpace(ch) {
          SpaceAhead(text, i);
          j := i + 1;
        } else if ch == '/' && i + 1 < |text| && text[i + 1] == '/' {
          j := SkipComment(text, i);
          CommentAhead(text, i, j - i);
          isOpen := j == |text|;
        } else if IsAlpha(ch) {
          j := WordEnd(text, i);
          WordAhead(tokens, text, i, j);
          AddToken(WordKind(text[i..j]), text[i..j]);
        } else if IsDigit(ch) {
          j := NumberEnd(text, i);
          NumberAhead(tokens, text, i, j);
          var bad := Classify(text[i..j]).1;
          if bad.Some? {
            RefusedHere(old(tokens), text, tokens, i, bad.value);
            return bad;
          }
          AddToken(NUM, text[i..j]);
        } else {
          j := TakePunctuation(text, i);
          if j == i {
            RefusedHere(old(tokens), text, was, i, UnknownToken);
            return Some(UnknownToken);
          }
          isOpen := i + 1 == |text| && ch in "/=<>";
        }
        OpenAhead(text, i);
        EndAhead(text, i, j - i);
        if isOpen {
          OpenHere(old(tokens), text, was, tokens, i);
          return Some(UnknownToken);
        }
        i := j;
      }
      DoneHere(old(tokens), text, tokens);
      return None;
    }
  }

  /** The tokens so far are those of the text up to position i, after the ones there were before. */
  predicate IsOnTheWay(before: seq<Token>, text: string, ts: seq<Token>, i: nat)
    requires i <= |text|
  {
    Ahead(before, Lex(text)) == Ahead(ts, Lex(text[i..])) && (EndsOpen(text) <==> EndsOpen(text[i..]))
  }

  lemma CommentsStart(text: string, i: nat)
    requires i < |text|
    ensures IsComment(text[i..]) <==> text[i] == '/' && i + 1 < |text| && text[i + 1] == '/'
  {
  }

  /** What is not taken at position i refuses the whole text. */
  lemma RefusedHere(before: seq<Token>, text: string, ts: seq<Token>, i: nat, error: LexError)
    requires i < |text| && IsOnTheWay(before, text, ts, i) && Ahead(ts, Lex(text[i..])) == Failed(error)
    ensures LexFile(text) == Failed(error)
  {
    hide Lex, EndsOpen;
  }

  /** A step to the end of the text that looks past it refuses the text, though it lexes. */
  lemma OpenHere(before: seq<Token>, text: string, was: seq<Token>, ts: seq<Token>, i: nat)
    requires i < |text| && IsOnTheWay(before, text, was, i) && EndsOpen(text[i..])
    requires Ahead(was, Lex(text[i..])) == Ahead(ts, Lex(text[|text|..]))
    ensures LexFile(text) == Failed(UnknownToken)
  {
    assert text[|text|..] == [];
    NothingAhead(ts);
    hide Lex, EndsOpen;
  }

  lemma DoneHere(before: seq<Token>, text: string, ts: seq<Token>)
    requires IsOnTheWay(before, text, ts, |text|)
    ensures LexFile(text).Lexed? && ts == before + LexFile(text).tokens
  {
    assert text[|text|..] == [];
    NothingAhead(ts);
    hide Lex, EndsOpen;
  }

  lemma NothingAhead(ts: seq<Token>)
    ensures Ahead(ts, Lex([])) == Lexed(ts) && !EndsOpen([])
  {
  }
}
