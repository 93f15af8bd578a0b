/** Values shared by the whole model: optional values, JavaScript numbers
    as far as the site uses them, and decimal digit strings. */
module Common {

  datatype Option<T> = None | Some(value: T)

  /** A JavaScript number: a finite value (rounding is not modelled, so
      arithmetic is exact) or NaN, which every arithmetic operation propagates. */
  datatype JsNumber = Finite(value: real) | NaN

  /** JavaScript `+` on numbers. */
  function Add(a: JsNumber, b: JsNumber): (r: JsNumber)
    ensures r.Finite? <==> a.Finite? && b.Finite?
  {
    if a.Finite? && b.Finite? then Finite(a.value + b.value) else NaN
  }

  predicate IsDigit(c: char) {
    '0' <= c <= '9'
  }

  predicate AllDigits(s: string) {
    forall i :: 0 <= i < |s| ==> IsDigit(s[i])
  }

  /** The value of a string of decimal digits, most significant first. */
  function DigitsValue(s: string): (n: nat)
    requires AllDigits(s)
  {
    if s == [] then 0
    else DigitsValue(s[..|s| - 1]) * 10 + (s[|s| - 1] as int - '0' as int)
  }

  function DigitChar(d: nat): (c: char)
    requires d < 10
    ensures IsDigit(c) && c as int - '0' as int == d
  {
    ('0' as int + d) as char
  }

  /** `n.toString()` for a whole number n >= 0: no leading zeros, "0" for zero. */
  function NatToString(n: nat): (s: string)
    ensures AllDigits(s) && |s| >= 1
    ensures |s| == 1 <==> n < 10
    ensures |s| > 1 ==> s[0] != '0'
  {
    if n < 10 then [DigitChar(n)] else NatToString(n / 10) + [DigitChar(n % 10)]
  }

  /** Reading the decimal string of n back gives n. */
  lemma {:induction false} NatToStringValue(n: nat)
    ensures DigitsValue(NatToString(n)) == n
  {
    var s := NatToString(n);
    if n >= 10 {
      NatToStringValue(n / 10);
      assert s[..|s| - 1] == NatToString(n / 10);
    }
  }

  /** The decimal string of n has exactly d digits when 10^(d-1) <= n < 10^d. */
  lemma {:induction false} NatToStringLength(n: nat, d: nat)
    requires d >= 1 && Pow10(d - 1) <= n < Pow10(d)
    ensures |NatToString(n)| == d
  {
    if d > 1 {
      NatToStringLength(n / 10, d - 1);
    }
  }

  /** A number is below 10 to the power of its digit count. */
  lemma {:induction false} NatToStringBound(n: nat)
    ensures n < Pow10(|NatToString(n)|)
  {
    if n >= 10 {
      NatToStringBound(n / 10);
    }
  }

  function Pow10(k: nat): (p: nat)
    ensures p >= 1
  {
    if k == 0 then 1 else 10 * Pow10(k - 1)
  }
}
