/**
 * Go's `strconv.ParseInt(s, 10, 64)`, the parse the update handler applies to
 * a counter's textual value, and `strconv.FormatInt(x, 10)`, its inverse.
 */
module Strconv {
  import opened Wrappers
  import opened Int64Arith

  predicate IsDigit(c: char) { '0' <= c <= '9' }

  predicate AllDigits(s: string) { forall i :: 0 <= i < |s| ==> IsDigit(s[i]) }

  function DigitValue(c: char): nat
    requires IsDigit(c)
  {
    c as int - '0' as int
  }

  function DigitChar(d: nat): char
    requires d < 10
  {
    ('0' as int + d) as char
  }

  /** The natural number a string of decimal digits denotes, most significant digit first. */
  function DigitsValue(s: string): nat
    requires AllDigits(s)
  {
    if s == [] then 0 else DigitsValue(s[..|s| - 1]) * 10 + DigitValue(s[|s| - 1])
  }

  /**
   * `strconv.ParseInt(s, 10, 64)`: an optional `+` or `-`, then one or more
   * ASCII decimal digits and nothing else (with an explicit base 10, Go allows
   * no underscores and no `0x` prefix, and trims no white space). The value
   * must lie in [-2^63, 2^63 - 1]; a syntax error and a range error are both
   * reported as None.
   */
  function ParseInt(s: string): (r: Option<Int64>)
    ensures r.Some? ==> |s| > 0 && (IsDigit(s[0]) || s[0] == '+' || s[0] == '-')
    ensures r.Some? ==> forall i :: 1 <= i < |s| ==> IsDigit(s[i])
    ensures r.Some? ==> (IsDigit(s[0]) || |s| > 1)
    ensures r.Some? && r.value < 0 ==> s[0] == '-'
  {
    if s == [] then None
    else
      var neg := s[0] == '-';
      var digits := if s[0] == '+' || neg then s[1..] else s;
      if digits == [] || !AllDigits(digits) then None
      else
        var magnitude := DigitsValue(digits);
        var v: int := if neg then -(magnitude as int) else magnitude;
        if MinInt64 <= v <= MaxInt64 then Some(v) else None
  }

  /** The decimal digits of n, without leading zeros. */
  function NatDigits(n: nat): (s: string)
    ensures |s| > 0 && AllDigits(s)
    ensures DigitsValue(s) == n
    ensures s[0] == '0' <==> n == 0
  {
    if n < 10 then [DigitChar(n)]
    else
      var prefix := NatDigits(n / 10);
      var s := prefix + [DigitChar(n % 10)];
      assert s[..|s| - 1] == prefix;
      s
  }

  /** `strconv.FormatInt(x, 10)`: a minus sign for negative values, then the digits of the magnitude. */
  function FormatInt(x: Int64): (s: string)
  {
    if x < 0 then "-" + NatDigits(-(x as int)) else NatDigits(x)
  }

  /** Parsing the decimal form of any int64 gives that int64 back. */
  lemma ParseFormatRoundTrip(x: Int64)
    ensures ParseInt(FormatInt(x)) == Some(x)
  {
    var s := FormatInt(x);
    if x < 0 {
      assert s[1..] == NatDigits(-(x as int));
    }
  }

  /**
   * Every well-formed input, by its sign: a `+` changes nothing, the value
   * is the digits' value (negated after `-`), and it is rejected exactly when
   * it leaves the int64 range.
   */
  lemma ParseSignedDigits(d: string)
    requires d != [] && AllDigits(d)
    ensures ParseInt(d) == if DigitsValue(d) <= MaxInt64 then Some(DigitsValue(d)) else None
    ensures ParseInt("+" + d) == ParseInt(d)
    ensures ParseInt("-" + d) == if DigitsValue(d) <= -MinInt64 then Some(-(DigitsValue(d) as int)) else None
  {
    assert ("+" + d)[1..] == d;
    assert ("-" + d)[1..] == d;
  }

  /** Rejections the handler relies on: an empty value, a lone sign, letters, a fraction, white space, underscores. */
  lemma ParseIntRejects()
    ensures ParseInt("") == None
    ensures ParseInt("+") == None && ParseInt("-") == None
    ensures ParseInt("abc") == None
    ensures ParseInt("1.5") == None
    ensures ParseInt(" 1") == None && ParseInt("1 ") == None
    ensures ParseInt("1_000") == None
  {
    assert !IsDigit("1.5"[1]);
    assert !IsDigit("1 "[1]);
    assert !IsDigit("1_000"[1]);
  }

  /** Accepted forms: plain, signed and with leading zeros. */
  lemma ParseIntAccepts()
    ensures ParseInt("42") == Some(42)
    ensures ParseInt("+42") == Some(42)
    ensures ParseInt("-42") == Some(-42)
    ensures ParseInt("007") == Some(7)
  {
    assert DigitsValue("4") == 4;
    assert DigitsValue("42") == 42;
    ParseSignedDigits("42");
    assert "+" + "42" == "+42" && "-" + "42" == "-42";
    assert DigitsValue("0") == 0;
    assert DigitsValue("00") == 0;
    assert DigitsValue("007") == 7;
  }

  /** Both ends of the int64 range parse, and one step past either end does not. */
  lemma ParseIntRangeEnds()
    ensures ParseInt(FormatInt(MaxInt64)) == Some(MaxInt64)
    ensures ParseInt(FormatInt(MinInt64)) == Some(MinInt64)
    ensures ParseInt(NatDigits(MaxInt64 + 1)) == None
    ensures ParseInt("-" + NatDigits(-MinInt64 + 1)) == None
  {
    ParseFormatRoundTrip(MaxInt64);
    ParseFormatRoundTrip(MinInt64);
    ParseSignedDigits(NatDigits(MaxInt64 + 1));
    ParseSignedDigits(NatDigits(-MinInt64 + 1));
  }
}
