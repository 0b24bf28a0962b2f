/** Decimal and hexadecimal digits, as `%d` and `%x` print them. */
module Numerals {

  datatype Base = Ten | Sixteen {
    function Size(): (size: nat)
      ensures size == 10 || size == 16
    {
      if Ten? then 10 else 16
    }
  }

  /** n / base and n % base, each with a constant divisor. */
  function Quotient(n: nat, base: Base): (q: nat)
    ensures n >= base.Size() ==> q < n
  {
    if base.Ten? then n / 10 else n / 16
  }

  function Remainder(n: nat, base: Base): (r: nat)
    ensures r < base.Size()
    ensures base.Ten? ==> Quotient(n, base) * 10 + r == n
    ensures base.Sixteen? ==> Quotient(n, base) * 16 + r == n
  {
    if base.Ten? then n % 10 else n % 16
  }

  predicate IsDigit(c: char) {
    '0' <= c <= '9' || 'a' <= c <= 'f'
  }

  function DigitChar(d: nat): (c: char)
    requires d < 16
    ensures IsDigit(c)
  {
    if d < 10 then '0' + d as char else 'a' + (d - 10) as char
  }

  function DigitValue(c: char): nat
    requires IsDigit(c)
  {
    if c <= '9' then (c - '0') as nat else (c - 'a') as nat + 10
  }

  /** The digits of n, most significant first, with no leading zero. */
  function Digits(n: nat, base: Base): (s: string)
    ensures |s| > 0
    ensures forall i :: 0 <= i < |s| ==> IsDigit(s[i])
  {
    if n < base.Size() then [DigitChar(n)]
    else Digits(Quotient(n, base), base) + [DigitChar(Remainder(n, base))]
  }

  function Decimal(n: nat): string {
    Digits(n, Ten)
  }

  /** Printing a number never loses it. */
  lemma {:induction false} DigitsInjective(m: nat, n: nat, base: Base)
    requires Digits(m, base) == Digits(n, base)
    ensures m == n
  {
    var s, t := Digits(m, base), Digits(n, base);
    assert s[|s| - 1] == t[|t| - 1];
    if m >= base.Size() && n >= base.Size() {
      var p, q := Digits(Quotient(m, base), base), Digits(Quotient(n, base), base);
      assert p == s[..|s| - 1] && q == t[..|t| - 1];
      DigitsInjective(Quotient(m, base), Quotient(n, base), base);
      assert DigitValue(s[|s| - 1]) == Remainder(m, base);
    } else if m < base.Size() && n < base.Size() {
      assert DigitValue(s[0]) == m && DigitValue(t[0]) == n;
    }
  }

  /** The usual signs, in their order. */
  lemma DigitCharIs(d: nat)
    requires d < 16
    ensures DigitChar(d) == "0123456789abcdef"[d]
  {
  }

  /** The number that digits stand for, the first the most significant. */
  function ValueOf(s: string, base: Base): nat
    requires forall i :: 0 <= i < |s| ==> IsDigit(s[i])
  {
    if s == [] then 0
    else
      var rest := ValueOf(s[..|s| - 1], base);
      (if base.Ten? then rest * 10 else rest * 16) + DigitValue(s[|s| - 1])
  }

  /** Reading a printed number gives the number. */
  lemma {:induction false} DigitsReadBack(n: nat, base: Base)
    ensures ValueOf(Digits(n, base), base) == n
  {
    if n < base.Size() {
      assert Digits(n, base)[..0] == [];
      assert DigitValue(DigitChar(n)) == n;
    } else {
      var digits := Digits(n, base);
      assert digits[..|digits| - 1] == Digits(Quotient(n, base), base);
      DigitsReadBack(Quotient(n, base), base);
      assert DigitValue(DigitChar(Remainder(n, base))) == Remainder(n, base);
    }
  }

  function Power16(e: nat): (p: nat)
    ensures p >= 1
  {
    if e == 0 then 1 else 16 * Power16(e - 1)
  }

  /** A number takes more than e hexadecimal digits exactly when it reaches 16 to the e. */
  lemma {:induction false} HexLength(n: nat, e: nat)
    requires e >= 1
    ensures |Digits(n, Sixteen)| > e <==> Power16(e) <= n
  {
    if n < 16 {
      assert Power16(e) >= 16;
    } else if e > 1 {
      HexLength(n / 16, e - 1);
    } else {
      assert Power16(1) == 16;
    }
  }
}
