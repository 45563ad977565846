/**
 * Decimal integers as Go handles them: `strconv.Atoi` for parsing (the amount
 * prompt) and `%d` for printing (the HTTP status in an API error message).
 * Go's `int` is assumed to be 64 bits wide.
 */
module Decimal {
  import opened Wrappers

  const MinInt64: int := -0x8000_0000_0000_0000
  const MaxInt64: int := 0x7FFF_FFFF_FFFF_FFFF

  predicate InInt64(n: int) {
    MinInt64 <= n <= MaxInt64
  }

  predicate IsDigit(c: char) {
    '0' <= c <= '9'
  }

  predicate AllDigits(s: string) {
    forall i :: 0 <= i < |s| ==> IsDigit(s[i])
  }

  function DigitValue(c: char): (d: nat)
    requires IsDigit(c)
    ensures d < 10
  {
    c as int - '0' as int
  }

  function DigitChar(d: nat): (c: char)
    requires d < 10
    ensures IsDigit(c) && DigitValue(c) == d
  {
    ('0' as int + d) as char
  }

  /** The value of a string of decimal digits, most significant first. */
  function DigitsValue(s: string): nat
    requires AllDigits(s)
    decreases |s|
  {
    if |s| == 0 then 0 else DigitsValue(s[..|s| - 1]) * 10 + DigitValue(s[|s| - 1])
  }

  function Pow10(n: nat): (p: nat)
    ensures p >= 1
  {
    if n == 0 then 1 else 10 * Pow10(n - 1)
  }

  /** `n` digits never denote more than `10^n - 1`. */
  lemma {:induction false} DigitsValueBound(s: string)
    requires AllDigits(s)
    ensures DigitsValue(s) < Pow10(|s|)
    decreases |s|
  {
    if |s| > 0 {
      DigitsValueBound(s[..|s| - 1]);
    }
  }

  /** Leading zeros do not change the value. */
  lemma {:induction false} LeadingZero(s: string)
    requires AllDigits(s)
    ensures AllDigits("0" + s) && DigitsValue("0" + s) == DigitsValue(s)
    decreases |s|
  {
    if |s| > 0 {
      assert ("0" + s)[..|"0" + s| - 1] == "0" + s[..|s| - 1];
      LeadingZero(s[..|s| - 1]);
    } else {
      assert DigitsValue("0") == DigitsValue("") * 10 + DigitValue('0');
    }
  }

  /** The sign Go's parser accepts in front of the digits, and the digits after it. */
  datatype Signed = Signed(negative: bool, digits: string)

  function SplitSign(s: string): (p: Signed)
    ensures |p.digits| <= |s|
    ensures p.negative ==> s == "-" + p.digits
    ensures !p.negative ==> s == p.digits || s == "+" + p.digits
  {
    if |s| > 0 && (s[0] == '+' || s[0] == '-') then Signed(s[0] == '-', s[1..]) else Signed(false, s)
  }

  /** What `strconv.Atoi` accepts syntactically: an optional sign and at least one decimal digit. */
  predicate IsSignedDigits(s: string) {
    var digits := SplitSign(s).digits;
    |digits| > 0 && AllDigits(digits)
  }

  /** The mathematical value of a syntactically valid literal, before any range check. */
  function LiteralValue(s: string): int
    requires IsSignedDigits(s)
  {
    var p := SplitSign(s);
    if p.negative then 0 - DigitsValue(p.digits) else DigitsValue(p.digits)
  }

  /**
   * `strconv.Atoi`: an optional '+' or '-' followed by decimal digits, and a value
   * that fits in 64 bits. No white space, underscores, base prefixes or exponents.
   * Go distinguishes a syntax error from a range error; both are `None` here.
   */
  function Atoi(s: string): (r: Option<int>)
    ensures r.Some? <==> IsSignedDigits(s) && InInt64(LiteralValue(s))
    ensures r.Some? ==> r.value == LiteralValue(s)
  {
    var p := SplitSign(s);
    if |p.digits| == 0 || !AllDigits(p.digits) then
      None
    else
      var v := if p.negative then 0 - DigitsValue(p.digits) else DigitsValue(p.digits);
      if MinInt64 <= v <= MaxInt64 then Some(v) else None
  }

  /**
   * Go's fast path: with fewer than 19 characters no overflow is possible, so
   * every syntactically valid literal that short parses.
   */
  lemma ShortLiteralsParse(s: string)
    requires |s| < 19 && IsSignedDigits(s)
    ensures Atoi(s).Some?
  {
    var digits := SplitSign(s).digits;
    DigitsValueBound(digits);
    Pow10Monotone(|digits|, 18);
    Pow10Eighteen();
  }

  lemma Pow10Eighteen()
    ensures Pow10(18) == 1_000_000_000_000_000_000
  {
    assert Pow10(3) == 1000;
    assert Pow10(6) == 1000 * Pow10(3) by { assert Pow10(6) == 10 * Pow10(5); assert Pow10(5) == 10 * Pow10(4); }
    assert Pow10(9) == 1000 * Pow10(6) by { assert Pow10(9) == 10 * Pow10(8); assert Pow10(8) == 10 * Pow10(7); }
    assert Pow10(12) == 1000 * Pow10(9) by { assert Pow10(12) == 10 * Pow10(11); assert Pow10(11) == 10 * Pow10(10); }
    assert Pow10(15) == 1000 * Pow10(12) by { assert Pow10(15) == 10 * Pow10(14); assert Pow10(14) == 10 * Pow10(13); }
    assert Pow10(18) == 1000 * Pow10(15) by { assert Pow10(18) == 10 * Pow10(17); assert Pow10(17) == 10 * Pow10(16); }
  }

  lemma {:induction false} Pow10Monotone(m: nat, n: nat)
    requires m <= n
    ensures Pow10(m) <= Pow10(n)
    decreases n
  {
    if m < n {
      Pow10Monotone(m, n - 1);
    }
  }

  /** Decimal digits of a natural number, without leading zeros. */
  function FormatNat(n: nat): (s: string)
    ensures |s| > 0 && AllDigits(s)
    ensures |s| > 1 ==> s[0] != '0'
    decreases n
  {
    if n < 10 then [DigitChar(n)] else FormatNat(n / 10) + [DigitChar(n % 10)]
  }

  /** `fmt`'s `%d`: a minus sign for negative numbers, no sign otherwise. */
  function FormatInt(n: int): (s: string)
    ensures |s| > 0
    ensures s[0] == '-' <==> n < 0
    ensures n >= 0 ==> AllDigits(s)
  {
    if n < 0 then "-" + FormatNat(-n) else FormatNat(n)
  }

  lemma {:induction false} FormatNatValue(n: nat)
    ensures DigitsValue(FormatNat(n)) == n
    decreases n
  {
    if n >= 10 {
      var s := FormatNat(n);
      assert s[..|s| - 1] == FormatNat(n / 10);
      FormatNatValue(n / 10);
    }
  }

  /** Every 64-bit integer printed with `%d` parses back to itself with `strconv.Atoi`. */
  lemma AtoiFormatRoundTrip(n: int)
    requires InInt64(n)
    ensures Atoi(FormatInt(n)) == Some(n)
  {
    var s := FormatInt(n);
    if n < 0 {
      var d := FormatNat(-n);
      assert s == "-" + d && s[1..] == d;
      assert SplitSign(s) == Signed(true, d);
      FormatNatValue(-n);
    } else {
      var d := FormatNat(n);
      assert s == d && IsDigit(d[0]);
      assert SplitSign(s) == Signed(false, d);
      FormatNatValue(n);
    }
  }

  /** `strconv.Atoi` accepts leading zeros and ignores them. */
  lemma AtoiLeadingZero(s: string)
    requires |s| > 0 && AllDigits(s)
    ensures Atoi("0" + s) == Atoi(s)
  {
    LeadingZero(s);
    assert SplitSign("0" + s) == Signed(false, "0" + s);
    assert IsDigit(s[0]);
    assert SplitSign(s) == Signed(false, s);
  }
}
