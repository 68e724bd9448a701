/**
  Decimal rendering of a non-negative integer, as JavaScript's template literals
  and `+` concatenation print `Date.now()`, together with its inverse.
 */
module Decimal {

  predicate IsDigit(c: char) {
    '0' <= c <= '9'
  }

  predicate AllDigits(s: string) {
    forall i :: 0 <= i < |s| ==> IsDigit(s[i])
  }

  function DigitChar(d: nat): (c: char)
    requires d < 10
    ensures IsDigit(c)
    ensures c as int - '0' as int == d
  {
    ('0' as int + d) as char
  }

  /** The shortest decimal numeral of `n`: digits only, no leading zero. */
  function Render(n: nat): (s: string)
    ensures |s| >= 1
    ensures AllDigits(s)
    ensures n > 0 ==> s[0] != '0'
    ensures n < 10 <==> |s| == 1
  {
    if n < 10 then [DigitChar(n)] else Render(n / 10) + [DigitChar(n % 10)]
  }

  /** The value of a string of decimal digits. */
  function Parse(s: string): nat
    requires AllDigits(s)
  {
    if |s| == 0 then 0 else Parse(s[..|s| - 1]) * 10 + (s[|s| - 1] as int - '0' as int)
  }

  lemma {:induction false} ParseRender(n: nat)
    ensures Parse(Render(n)) == n
  {
    var s := Render(n);
    if n >= 10 {
      ParseRender(n / 10);
      assert s[..|s| - 1] == Render(n / 10);
    }
  }

  /** Distinct numbers render to distinct numerals. */
  lemma RenderInjective(m: nat, n: nat)
    requires Render(m) == Render(n)
    ensures m == n
  {
    ParseRender(m);
    ParseRender(n);
  }
}
