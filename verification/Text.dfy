/** Decimal numerals. */
module Text {
  const DIGITS := "0123456789"

  function Digits(v: nat): (s: string)
    ensures |s| > 0
  {
    if v < 10 then [DIGITS[v]] else Digits(v / 10) + [DIGITS[v % 10]]
  }

  predicate IsDigit(c: char) { '0' <= c <= '9' }

  predicate IsNumeral(s: string) { |s| > 0 && forall i :: 0 <= i < |s| ==> IsDigit(s[i]) }

  function Parse(s: string): nat
    requires forall i :: 0 <= i < |s| ==> IsDigit(s[i])
  {
    if s == [] then 0
    else
      assert IsDigit(s[|s| - 1]);
      10 * Parse(s[..|s| - 1]) + (s[|s| - 1] as int - '0' as int)
  }

  lemma {:induction false} DigitsParse(v: nat)
    ensures IsNumeral(Digits(v)) && Parse(Digits(v)) == v
  {
    if v >= 10 {
      DigitsParse(v / 10);
      var s := Digits(v);
      assert s[..|s| - 1] == Digits(v / 10);
    } else {
      var s := Digits(v);
      assert s[..0] == [];
      assert Parse(s[..0]) == 0;
    }
  }
}
