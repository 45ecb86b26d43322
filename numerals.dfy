/**
 * Decimal numerals as the application meets them: a spreadsheet cell holds an
 * amount as the text of a whole number, the add form keeps the amount as a
 * digit string, and `Number(...)` / `n.toString()` convert between the two.
 * Only whole numbers are modelled (the application stores whole currency units).
 */
module Numerals {
  import opened Wrappers

  predicate IsDigit(c: char)
  {
    '0' <= c <= '9'
  }

  predicate AllDigits(s: string)
  {
    forall i :: 0 <= i < |s| ==> IsDigit(s[i])
  }

  function DigitValue(c: char): nat
    requires IsDigit(c)
  {
    (c as int) - ('0' as int)
  }

  function DigitChar(d: nat): (c: char)
    requires d < 10
    ensures IsDigit(c) && DigitValue(c) == d
  {
    (('0' as int) + d) as char
  }

  /** The value of a string of decimal digits, most significant first ("" is 0). */
  function DigitsValue(s: string): nat
    requires AllDigits(s)
  {
    if s == [] then 0 else DigitsValue(s[..|s| - 1]) * 10 + DigitValue(s[|s| - 1])
  }

  /** The shortest decimal numeral of `n`: no leading zero unless `n` is 0. */
  function NatToDigits(n: nat): (s: string)
    ensures |s| >= 1 && AllDigits(s)
    ensures |s| > 1 ==> s[0] != '0'
  {
    if n < 10 then [DigitChar(n)] else NatToDigits(n / 10) + [DigitChar(n % 10)]
  }

  lemma {:induction false} DigitsValueOfNatToDigits(n: nat)
    ensures DigitsValue(NatToDigits(n)) == n
  {
    if n >= 10 {
      var s := NatToDigits(n);
      assert s[..|s| - 1] == NatToDigits(n / 10);
      DigitsValueOfNatToDigits(n / 10);
    }
  }

  function Pow10(k: nat): (p: nat)
    ensures p >= 1
  {
    if k == 0 then 1 else 10 * Pow10(k - 1)
  }

  /** A number below `10^k` has at most `k` digits (`k >= 1`). */
  lemma {:induction false} NatToDigitsLength(n: nat, k: nat)
    requires 1 <= k && n < Pow10(k)
    ensures |NatToDigits(n)| <= k
  {
    if n >= 10 {
      assert k >= 2;
      NatToDigitsLength(n / 10, k - 1);
    }
  }

  /** `n.toString()` for a whole number `n`. */
  function IntToString(n: int): (s: string)
    ensures |s| >= 1
    ensures s[0] == '-' <==> n < 0
    ensures n >= 0 ==> AllDigits(s)
  {
    if n < 0 then "-" + NatToDigits(-n) else NatToDigits(n)
  }

  /**
   * `Number(s)` on the plain decimal forms of a whole number: the empty string
   * is 0, and an optional minus sign followed by at least one digit is that
   * number. Every other text is None. `Number` gives `NaN` for most of them, but
   * a number for other spellings such as `+5`, ` 12 `, `5.0`, `1e3` or `0x10`.
   */
  function NumberValue(s: string): (r: Option<int>)
    ensures AllDigits(s) ==> r == Some(DigitsValue(s))
    ensures r.Some? && (s == [] || s[0] != '-') ==> r.value >= 0
  {
    if AllDigits(s) then Some(DigitsValue(s))
    else if s[0] == '-' && |s| > 1 && AllDigits(s[1..]) then Some(0 - DigitsValue(s[1..]) as int)
    else None
  }

  /**
   * The texts that read as a number are exactly the plain decimal ones: digits
   * only, or a minus sign and at least one digit, which reads as the negation.
   */
  lemma NumberValueDomain(s: string)
    ensures NumberValue(s).Some? <==> AllDigits(s) || (|s| > 1 && s[0] == '-' && AllDigits(s[1..]))
    ensures |s| > 1 && s[0] == '-' && AllDigits(s[1..]) ==> NumberValue(s) == Some(0 - DigitsValue(s[1..]))
  {
  }

  /** Writing a whole number and reading it back yields the same number. */
  lemma {:induction false} NumberValueOfIntToString(n: int)
    ensures NumberValue(IntToString(n)) == Some(n)
  {
    if n < 0 {
      var d := NatToDigits(-n);
      assert IntToString(n) == "-" + d;
      MinusDigitsValue(d);
      DigitsValueOfNatToDigits(-n);
      assert NumberValue("-" + d) == Some(n);
    } else {
      var d := NatToDigits(n);
      assert IntToString(n) == d;
      DigitsValueOfNatToDigits(n);
      assert NumberValue(d) == Some(n);
    }
  }

  /** A minus sign followed by digits reads as the negated value of the digits. */
  lemma MinusDigitsValue(d: string)
    requires |d| >= 1 && AllDigits(d)
    ensures NumberValue("-" + d) == Some(0 - DigitsValue(d))
  {
    var s := "-" + d;
    assert s[1..] == d;
    assert !IsDigit(s[0]);
  }

  function Zeros(k: nat): (z: string)
    ensures |z| == k && AllDigits(z)
  {
    if k == 0 then "" else Zeros(k - 1) + "0"
  }

  /** Left-pads a numeral with zeros to at least `width` characters (date-fns `yyyy`, `MM`). */
  function ZeroPad(s: string, width: nat): (r: string)
    ensures |r| == if |s| >= width then |s| else width
    ensures AllDigits(s) ==> AllDigits(r)
  {
    if |s| >= width then s else Zeros(width - |s|) + s
  }

  lemma {:induction false} DigitsValueOfZeros(k: nat)
    ensures DigitsValue(Zeros(k)) == 0
  {
    if k > 0 {
      assert Zeros(k)[..k - 1] == Zeros(k - 1);
      DigitsValueOfZeros(k - 1);
    }
  }

  /** Leading zeros do not change the value of a numeral. */
  lemma {:induction false} DigitsValueOfLeadingZeros(k: nat, s: string)
    requires AllDigits(s)
    ensures AllDigits(Zeros(k) + s)
    ensures DigitsValue(Zeros(k) + s) == DigitsValue(s)
  {
    var z := Zeros(k) + s;
    if s == [] {
      assert z == Zeros(k);
      DigitsValueOfZeros(k);
    } else {
      assert z[..|z| - 1] == Zeros(k) + s[..|s| - 1];
      assert z[|z| - 1] == s[|s| - 1];
      DigitsValueOfLeadingZeros(k, s[..|s| - 1]);
    }
  }

  /** Padding the numeral of `n` keeps its value. */
  lemma PaddedValue(n: nat, width: nat)
    ensures AllDigits(ZeroPad(NatToDigits(n), width))
    ensures DigitsValue(ZeroPad(NatToDigits(n), width)) == n
  {
    var s := NatToDigits(n);
    DigitsValueOfNatToDigits(n);
    if |s| < width {
      DigitsValueOfLeadingZeros(width - |s|, s);
    }
  }
}
