/**
 * The pieces of the Java platform the controllers lean on: the fixed-width integer
 * parameter types, the decimal rendering `String.valueOf(n)` of an integer and `String.isBlank`.
 */
module JavaBase {

  /** Java `int`: the controllers' `int` parameters can only carry these values. */
  type Int32 = x: int | -0x8000_0000 <= x < 0x8000_0000

  /** Java `long`. */
  type Int64 = x: int | -0x8000_0000_0000_0000 <= x < 0x8000_0000_0000_0000

  function Pow10(k: nat): (p: nat)
    ensures p > 0
    ensures k > 0 ==> p >= 10
  {
    if k == 0 then 1 else 10 * Pow10(k - 1)
  }

  /** The length of `String.valueOf(n)` for a non-negative `n`: its count of decimal digits. */
  function DecimalLength(n: nat): (len: nat)
    ensures len >= 1
    ensures n >= 10 ==> len >= 2
  {
    if n < 10 then 1 else 1 + DecimalLength(n / 10)
  }

  /** A string made only of the digits 0-9. */
  predicate AllDigits(s: string) {
    forall i :: 0 <= i < |s| ==> '0' <= s[i] <= '9'
  }

  /** The character of a decimal digit. */
  function DigitChar(d: nat): char
    requires d < 10
  {
    ('0' as int + d) as char
  }

  /** The decimal digits of a non-negative number, most significant first, without leading zeros. */
  function DecimalDigits(n: nat): (s: string)
    ensures |s| == DecimalLength(n)
    ensures AllDigits(s)
    ensures n >= 10 ==> s[0] != '0'
  {
    if n < 10 then [DigitChar(n)] else DecimalDigits(n / 10) + [DigitChar(n % 10)]
  }

  /** The number a string of decimal digits denotes: the reading-back partner of `DecimalDigits`. */
  function DigitsValue(s: string): nat
    requires AllDigits(s)
  {
    if s == [] then 0 else 10 * DigitsValue(s[..|s| - 1]) + (s[|s| - 1] as int - '0' as int)
  }

  /** Reading the digits back gives the number again. */
  lemma {:induction false} DecimalDigitsRoundTrip(n: nat)
    ensures DigitsValue(DecimalDigits(n)) == n
  {
    if n >= 10 {
      var s := DecimalDigits(n);
      assert s[..|s| - 1] == DecimalDigits(n / 10);
      DecimalDigitsRoundTrip(n / 10);
    }
  }

  /** `String.valueOf(n)` for a Java `int` or `long`: a minus sign before the digits of a negative number. */
  function ValueOf(n: int): (s: string)
    ensures n >= 0 ==> |s| == DecimalLength(n)
    ensures n < 0 ==> |s| == 1 + DecimalLength(-n) && s[0] == '-'
  {
    if n < 0 then "-" + DecimalDigits(-n) else DecimalDigits(n)
  }

  /** The rendering reads back as the number: its sign, then digits denoting the magnitude. */
  lemma ValueOfRoundTrip(n: int)
    ensures n >= 0 ==> AllDigits(ValueOf(n)) && DigitsValue(ValueOf(n)) == n
    ensures n < 0 ==> AllDigits(ValueOf(n)[1..]) && DigitsValue(ValueOf(n)[1..]) == -n
  {
    if n < 0 {
      DecimalDigitsRoundTrip(-n);
      assert ValueOf(n)[1..] == DecimalDigits(-n);
    } else {
      DecimalDigitsRoundTrip(n);
    }
  }

  /** At most `k` digits exactly when the number is below 10^k. */
  lemma {:induction false} DecimalLengthBound(n: nat, k: nat)
    requires k >= 1
    ensures DecimalLength(n) <= k <==> n < Pow10(k)
  {
    if n >= 10 && k > 1 {
      DecimalLengthBound(n / 10, k - 1);
    }
  }

  /**
   * `Character.isWhitespace`: the Unicode space, line and paragraph separators except
   * the three non-breaking spaces (U+00A0, U+2007, U+202F), and the control characters
   * U+0009..U+000D and U+001C..U+001F.
   */
  predicate IsWhitespace(c: char): (b: bool)
    ensures c == ' ' || c == '\t' || c == '\n' || c == '\r' ==> b
    ensures c as int == 0xA0 || c as int == 0x2007 || c as int == 0x202F ==> !b
    ensures 'A' <= c <= 'Z' || 'a' <= c <= 'z' || '0' <= c <= '9' ==> !b
  {
    var u := c as int;
    || 0x09 <= u <= 0x0D
    || 0x1C <= u <= 0x20
    || u == 0x1680
    || 0x2000 <= u <= 0x2006
    || 0x2008 <= u <= 0x200A
    || u == 0x2028 || u == 0x2029 || u == 0x205F || u == 0x3000
  }

  /** `String.isBlank`: empty, or made only of whitespace. */
  predicate IsBlank(s: string): (b: bool)
    ensures s == [] ==> b
    ensures (exists i :: 0 <= i < |s| && !IsWhitespace(s[i])) ==> !b
  {
    forall i :: 0 <= i < |s| ==> IsWhitespace(s[i])
  }

  /** A non-empty string of spaces and tabs is blank, though not empty: where `isBlank` and `isEmpty` differ. */
  lemma SpacesAreBlank(s: string)
    requires forall i :: 0 <= i < |s| ==> s[i] == ' ' || s[i] == '\t'
    ensures IsBlank(s)
  {
    forall i | 0 <= i < |s|
      ensures IsWhitespace(s[i])
    {
      assert s[i] == ' ' || s[i] == '\t';
    }
  }
}
