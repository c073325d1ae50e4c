/** Decimal numerals and the numbers they stand for. */
module Numerals {
  import opened Options

  const MAX_NUM: int := 0x7fff_ffff

  predicate IsDigit(c: char) {
    '0' <= c <= '9'
  }

  predicate AllDigits(s: string) {
    forall i :: 0 <= i < |s| ==> IsDigit(s[i])
  }

  function DigitValue(c: char): nat
    requires IsDigit(c)
  {
    (c - '0') as nat
  }

  function NumberOf(s: string): nat
    requires AllDigits(s)
  {
    if s == [] then 0 else 10 * NumberOf(s[..|s| - 1]) + DigitValue(s[|s| - 1])
  }

  /** The number a numeral stands for, when it is one and fits 32 signed bits. */
  function Stoi(s: string): Option<nat> {
    if s != [] && AllDigits(s) && NumberOf(s) <= MAX_NUM then Some(NumberOf(s)) else None
  }

  /** The decimal numeral of n. */
  function Spelling(n: nat): string {
    if n < 10 then [('0' as int + n) as char] else Spelling(n / 10) + [('0' as int + n % 10) as char]
  }

  /** A number is spelled without a leading zero, unless it is zero. */
  predicate IsSpelling(s: string) {
    s != [] && AllDigits(s) && (s[0] == '0' ==> |s| == 1)
  }

  lemma {:induction false} SpellingRoundTrip(n: nat)
    ensures IsSpelling(Spelling(n)) && NumberOf(Spelling(n)) == n
    ensures Spelling(n)[0] == '0' <==> n == 0
  {
    var s := Spelling(n);
    if n >= 10 {
      SpellingRoundTrip(n / 10);
      assert s[..|s| - 1] == Spelling(n / 10);
    } else {
      assert s[..0] == [];
    }
  }

  lemma {:induction false} NumberRoundTrip(s: string)
    requires IsSpelling(s)
    ensures Spelling(NumberOf(s)) == s
    ensures |s| > 1 ==> NumberOf(s) >= 10
  {
    var front := s[..|s| - 1];
    if |s| == 1 {
      assert front == [];
    } else {
      assert front[0] == s[0];
      NumberRoundTrip(front);
      if |front| == 1 {
        assert front[..0] == [];
        assert NumberOf(front) >= 1;
      }
      assert NumberOf(s) / 10 == NumberOf(front) && NumberOf(s) % 10 == DigitValue(s[|s| - 1]);
      assert front + [s[|s| - 1]] == s;
    }
  }
}
