/**
 * Strict decimal integer parsing as done by Short.parseShort, Integer.parseInt
 * and Long.parseLong with radix 10: an optional single sign, one or more
 * digits and nothing else, and a value inside the signed range of the type.
 * Leading zeros are accepted ("007" is 7), "-0" is 0, a lone sign is refused.
 * Digits are the ASCII digits '0'..'9'.
 */
module NumberParsing {
  import opened Wrappers

  const ShortMin: int := -0x8000
  const ShortMax: int := 0x7FFF
  const IntMin: int := -0x8000_0000
  const IntMax: int := 0x7FFF_FFFF
  const LongMin: int := -0x8000_0000_0000_0000
  const LongMax: int := 0x7FFF_FFFF_FFFF_FFFF

  predicate IsDigit(c: char) {
    '0' <= c <= '9'
  }

  predicate AllDigits(s: string) {
    forall i :: 0 <= i < |s| ==> IsDigit(s[i])
  }

  function DigitValue(c: char): (d: nat)
    requires IsDigit(c)
    ensures d <= 9
  {
    (c as int) - ('0' as int)
  }

  function DigitChar(d: nat): (c: char)
    requires d <= 9
    ensures IsDigit(c) && DigitValue(c) == d
  {
    (('0' as int) + d) as char
  }

  /** The value of a digit string read most significant digit first. */
  function DigitsValue(s: string): nat
    requires AllDigits(s)
  {
    if |s| == 0 then 0 else 10 * DigitsValue(s[..|s| - 1]) + DigitValue(s[|s| - 1])
  }

  /** The digits after the optional sign. */
  function Magnitude(s: string): string {
    if |s| > 0 && (s[0] == '-' || s[0] == '+') then s[1..] else s
  }

  /** Decimal literal parsing without range check: Some(value) exactly for [+-]?[0-9]+. */
  function ParseDecimal(s: string): Option<int> {
    var digits := Magnitude(s);
    if |digits| == 0 || !AllDigits(digits) then None
    else if s[0] == '-' then Some(-(DigitsValue(digits) as int))
    else Some(DigitsValue(digits))
  }

  /** Short.parseShort succeeds. */
  predicate IsShort(s: string) {
    var r := ParseDecimal(s);
    r.Some? && ShortMin <= r.value <= ShortMax
  }

  /** Integer.parseInt succeeds. */
  predicate IsInteger(s: string) {
    var r := ParseDecimal(s);
    r.Some? && IntMin <= r.value <= IntMax
  }

  /** Long.parseLong succeeds. */
  predicate IsLong(s: string) {
    var r := ParseDecimal(s);
    r.Some? && LongMin <= r.value <= LongMax
  }

  /** Every 16-bit literal is a 32-bit literal, and every 32-bit literal a 64-bit one. */
  lemma NumericSubsumption(s: string)
    ensures IsShort(s) ==> IsInteger(s)
    ensures IsInteger(s) ==> IsLong(s)
  {
  }

  /** The canonical decimal spelling of a natural number, without sign or leading zeros. */
  function NatToDecimal(n: nat): (s: string)
    ensures |s| > 0 && AllDigits(s)
    ensures s[0] == '0' ==> n == 0
  {
    if n < 10 then [DigitChar(n)] else NatToDecimal(n / 10) + [DigitChar(n % 10)]
  }

  /** The canonical decimal spelling of an integer, with '-' for negatives. */
  function ToDecimal(n: int): string {
    if n < 0 then "-" + NatToDecimal(-n) else NatToDecimal(n)
  }

  lemma {:induction false} DigitsValueOfNatToDecimal(n: nat)
    ensures DigitsValue(NatToDecimal(n)) == n
  {
    if n >= 10 {
      var s := NatToDecimal(n);
      assert s[..|s| - 1] == NatToDecimal(n / 10);
      DigitsValueOfNatToDecimal(n / 10);
    }
  }

  /** Parsing undoes printing, for every integer. */
  lemma ParseToDecimal(n: int)
    ensures ParseDecimal(ToDecimal(n)) == Some(n)
  {
    if n < 0 {
      assert Magnitude(ToDecimal(n)) == NatToDecimal(-n);
      DigitsValueOfNatToDecimal(-n);
    } else {
      assert Magnitude(ToDecimal(n)) == NatToDecimal(n);
      DigitsValueOfNatToDecimal(n);
    }
  }

  /** The range checks are exactly the type bounds on printed integers. */
  lemma RangeOfToDecimal(n: int)
    ensures IsShort(ToDecimal(n)) <==> ShortMin <= n <= ShortMax
    ensures IsInteger(ToDecimal(n)) <==> IntMin <= n <= IntMax
    ensures IsLong(ToDecimal(n)) <==> LongMin <= n <= LongMax
  {
    ParseToDecimal(n);
  }

  lemma {:induction false} LeadingZeroValue(s: string)
    requires AllDigits(s)
    ensures AllDigits("0" + s) && DigitsValue("0" + s) == DigitsValue(s)
  {
    if |s| > 0 {
      var t := "0" + s;
      assert t[..|t| - 1] == "0" + s[..|s| - 1];
      LeadingZeroValue(s[..|s| - 1]);
    }
  }

  /** Leading zeros do not change the parsed value ("007" parses as 7). */
  lemma LeadingZeroIgnored(s: string)
    requires |s| > 0 && AllDigits(s)
    ensures ParseDecimal("0" + s) == ParseDecimal(s)
  {
    assert Magnitude("0" + s) == "0" + s;
    LeadingZeroValue(s);
  }

  /** An explicit '+' sign does not change the parsed value; a lone sign never parses. */
  lemma PlusSignIgnored(s: string)
    requires |s| > 0 && AllDigits(s)
    ensures ParseDecimal("+" + s) == ParseDecimal(s)
    ensures ParseDecimal("+") == None && ParseDecimal("-") == None && ParseDecimal("") == None
  {
    assert Magnitude("+" + s) == s;
    assert Magnitude(s) == s;
  }

  /** A digit string without redundant leading zeros. */
  predicate CanonicalDigits(ds: string) {
    |ds| > 0 && AllDigits(ds) && (ds[0] == '0' ==> |ds| == 1)
  }

  /** The spelling ToDecimal produces: no '+', no leading zeros, no "-0". */
  predicate IsCanonical(s: string) {
    CanonicalDigits(s) || (|s| > 1 && s[0] == '-' && s[1] != '0' && CanonicalDigits(s[1..]))
  }

  lemma {:induction false} DigitsValuePositive(ds: string)
    requires |ds| > 0 && AllDigits(ds) && ds[0] != '0'
    ensures DigitsValue(ds) > 0
  {
    if |ds| > 1 {
      DigitsValuePositive(ds[..|ds| - 1]);
    }
  }

  lemma {:induction false} NatToDecimalOfDigitsValue(ds: string)
    requires CanonicalDigits(ds)
    ensures NatToDecimal(DigitsValue(ds)) == ds
  {
    if |ds| > 1 {
      var init := ds[..|ds| - 1];
      DigitsValuePositive(init);
      NatToDecimalOfDigitsValue(init);
      assert ds == init + [ds[|ds| - 1]];
    }
  }

  /** Printing undoes parsing, for every canonical literal. */
  lemma PrintParsed(s: string)
    requires IsCanonical(s)
    ensures ParseDecimal(s).Some? && ToDecimal(ParseDecimal(s).value) == s
  {
    if CanonicalDigits(s) {
      NatToDecimalOfDigitsValue(s);
    } else {
      var ds := s[1..];
      NatToDecimalOfDigitsValue(ds);
      DigitsValuePositive(ds);
      assert s == "-" + ds;
    }
  }
}
