/** Decimal numbers as std::to_string writes them, and how to read them back. */
module Decimal {
  predicate IsDigit(c: char)
  {
    '0' <= c <= '9'
  }

  function Digit(n: nat): char
    requires n < 10
  {
    '0' + n as char
  }

  function Text(n: nat): (s: string)
    ensures s != "" && forall i | 0 <= i < |s| :: IsDigit(s[i])
  {
    if n < 10 then [Digit(n)] else Text(n / 10) + [Digit(n % 10)]
  }

  function IntText(n: int): string
  {
    if n < 0 then "-" + Text(-n) else Text(n)
  }

  function Value(s: string): nat
    requires forall i | 0 <= i < |s| :: IsDigit(s[i])
  {
    if s == "" then 0 else assert IsDigit(s[|s| - 1]); Value(s[..|s| - 1]) * 10 + (s[|s| - 1] as nat - '0' as nat)
  }

  /** The digits a text starts with. */
  function Digits(s: string): (d: string)
    ensures forall i | 0 <= i < |d| :: IsDigit(d[i])
    ensures |d| <= |s| && s[..|d|] == d
  {
    if s == "" || !IsDigit(s[0]) then "" else [s[0]] + Digits(s[1..])
  }

  lemma {:induction false} ValueOfText(n: nat)
    ensures Value(Text(n)) == n
  {
    if n >= 10 {
      ValueOfText(n / 10);
      var s := Text(n);
      assert s[..|s| - 1] == Text(n / 10);
    } else {
      assert Text(n) == [Digit(n)] && [Digit(n)][..0] == "";
    }
  }

  lemma {:induction false} DigitsOf(d: string, rest: string)
    requires forall i | 0 <= i < |d| :: IsDigit(d[i])
    requires rest == "" || !IsDigit(rest[0])
    ensures Digits(d + rest) == d && (d + rest)[|Digits(d + rest)|..] == rest
  {
    if d == "" {
      assert d + rest == rest;
    } else {
      assert (d + rest)[1..] == d[1..] + rest;
      DigitsOf(d[1..], rest);
    }
  }

  /** No zero in front, but for zero itself. */
  lemma {:induction false} NoLeadingZero(n: nat)
    ensures n > 0 ==> Text(n)[0] != '0'
    ensures Text(0) == "0"
  {
    if n >= 10 {
      NoLeadingZero(n / 10);
    }
  }
}
