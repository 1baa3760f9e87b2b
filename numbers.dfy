/**
 * The few JavaScript number conversions the two pages rely on:
 * rendering an integral number as text (template literals `${n}`),
 * `Number(text)` on form input, and `Math.ceil` of an integer quotient.
 */
module Numbers {
  import opened Wrappers

  predicate IsDigit(c: char) { '0' <= c <= '9' }

  predicate AllDigits(s: string) { forall i :: 0 <= i < |s| ==> IsDigit(s[i]) }

  function DigitChar(d: nat): (c: char)
    requires d < 10
    ensures IsDigit(c) && c as int - '0' as int == d
  {
    (48 + d) as char
  }

  /** Decimal text of a non-negative integer, without leading zeros. */
  function NatText(n: nat): (s: string)
    ensures |s| >= 1 && AllDigits(s)
    ensures |s| > 1 ==> s[0] != '0'
    ensures n < 10 <==> |s| == 1
  {
    if n < 10 then [DigitChar(n)] else NatText(n / 10) + [DigitChar(n % 10)]
  }

  /** `${i}` for an integral number: a minus sign exactly for negatives, then the digits. */
  function IntText(i: int): (s: string)
    ensures |s| >= 1
    ensures s[0] == '-' <==> i < 0
    ensures i >= 0 ==> AllDigits(s)
  {
    if i < 0 then "-" + NatText(-i) else NatText(i)
  }

  /** The value of a string of decimal digits, read left to right. */
  function DigitsValue(s: string): nat
    requires AllDigits(s)
  {
    if s == [] then 0 else DigitsValue(s[..|s| - 1]) * 10 + (s[|s| - 1] as int - '0' as int)
  }

  /**
   * `Number(text)` on the texts a price input produces: the empty text is 0,
   * an optionally signed run of decimal digits is its value, and every other
   * text is None, which stands for NaN.
   */
  function ParseNumber(s: string): (r: Option<int>)
    ensures r.Some? <==> s == [] || AllDigits(s) || (|s| > 1 && s[0] == '-' && AllDigits(s[1..]))
    ensures r.Some? && r.value < 0 ==> |s| > 1 && s[0] == '-'
    ensures r.Some? && s != [] && s[0] != '-' ==> r.value >= 0
  {
    if s == [] then Some(0)
    else if AllDigits(s) then Some(DigitsValue(s))
    else if s[0] == '-' && |s| > 1 && AllDigits(s[1..]) then Some(0 - DigitsValue(s[1..]))
    else None
  }

  lemma {:induction false} DigitsValueOfNatText(n: nat)
    ensures DigitsValue(NatText(n)) == n
  {
    if n >= 10 {
      var s := NatText(n);
      assert s[..|s| - 1] == NatText(n / 10);
      DigitsValueOfNatText(n / 10);
    }
  }

  /** Reading back the text of an integer gives the integer: Number(`${i}`) == i. */
  lemma ParseNumberOfIntText(i: int)
    ensures ParseNumber(IntText(i)) == Some(i)
  {
    if i < 0 {
      ParseNegativeText(-i);
    } else {
      var s := NatText(i);
      assert s != [] && AllDigits(s);
      DigitsValueOfNatText(i);
    }
  }

  lemma ParseNegativeText(n: nat)
    requires n > 0
    ensures ParseNumber("-" + NatText(n)) == Some(0 - n)
  {
    var digits := NatText(n);
    var s := "-" + digits;
    assert !AllDigits(s) by { assert !IsDigit(s[0]); }
    assert s[1..] == digits;
    DigitsValueOfNatText(n);
  }

  /** Distinct integers have distinct texts. */
  lemma IntTextInjective(i: int, j: int)
    ensures IntText(i) == IntText(j) ==> i == j
  {
    ParseNumberOfIntText(i);
    ParseNumberOfIntText(j);
  }

  /** Math.ceil(a / b) for integers a and a positive divisor b. */
  function CeilDiv(a: int, b: int): (q: int)
    requires b > 0
    ensures (q - 1) * b < a <= q * b
  {
    -((-a) / b)
  }

  /** The ceiling is the only integer with that property. */
  lemma CeilDivUnique(a: int, b: int, q: int)
    requires b > 0
    requires (q - 1) * b < a <= q * b
    ensures q == CeilDiv(a, b)
  {
  }
}
