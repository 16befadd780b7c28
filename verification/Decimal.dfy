/** Base-10 printing of unsigned integers, as the `%d` verb does it, and its inverse. */
module Decimal {
  import opened Wrappers

  predicate IsDigit(c: char) {
    '0' <= c <= '9'
  }

  predicate AllDigits(s: string) {
    forall i :: 0 <= i < |s| ==> IsDigit(s[i])
  }

  function DigitChar(d: nat): char
    requires d < 10
  {
    '0' + d as char
  }

  function Print(n: nat): (s: string)
    ensures s != [] && AllDigits(s)
    ensures s[0] == '0' <==> n == 0
  {
    if n < 10 then [DigitChar(n)] else Print(n / 10) + [DigitChar(n % 10)]
  }

  const DIGITS := "0123456789"

  /** Decimal notation, digit by digit. */
  lemma PrintDigit(n: nat, d: nat)
    requires d < 10
    ensures Print(d) == [DIGITS[d]]
    ensures n > 0 ==> Print(10 * n + d) == Print(n) + [DIGITS[d]]
  {
    assert DigitChar(d) == DIGITS[d];
  }

  /** A numeral with at least one digit and no redundant leading zero. */
  predicate Canonical(s: string) {
    s != [] && AllDigits(s) && (s[0] == '0' ==> |s| == 1)
  }

  function Value(s: string): nat
    requires AllDigits(s)
  {
    if s == [] then 0
    else Value(s[..|s| - 1]) * 10 + (s[|s| - 1] - '0') as nat
  }

  function Parse(s: string): Option<nat> {
    if Canonical(s) then Some(Value(s)) else None
  }

  lemma {:induction false} ParsePrint(n: nat)
    ensures Parse(Print(n)) == Some(n)
  {
    if n < 10 {
      assert Value([]) == 0;
      assert Print(n)[..0] == [];
    } else {
      ParsePrint(n / 10);
      var s := Print(n);
      assert s[..|s| - 1] == Print(n / 10);
      assert s[|s| - 1] == DigitChar(n % 10);
    }
  }

  lemma {:induction false} PositiveValue(s: string)
    requires Canonical(s) && |s| > 1
    ensures Value(s) >= 10
  {
    var front := s[..|s| - 1];
    if |front| == 1 {
      assert front[..0] == [];
      assert Value(front) == (s[0] - '0') as nat;
    } else {
      PositiveValue(front);
    }
  }

  /** Parsing is exact: only the printed form of a number parses to it. */
  lemma {:induction false} PrintParse(s: string)
    requires Parse(s).Some?
    ensures Print(Parse(s).value) == s
  {
    var front, last := s[..|s| - 1], s[|s| - 1];
    var d := (last - '0') as nat;
    assert DigitChar(d) == last;
    if |s| == 1 {
      assert Value(front) == 0;
      assert s == [last];
    } else {
      PositiveValue(s);
      PrintParse(front);
      assert s == front + [last];
    }
  }
}
