/**
 * Exact decimals standing for the `double` coordinates of a location as
 * `BigDecimal.valueOf` renders them: an unscaled integer and a scale, the value being
 * `unscaled * 10^(-scale)`. Used by the location controller's range and decimal-places checks.
 */
module Decimals {
  import opened JavaBase

  datatype Decimal = Decimal(unscaled: int, scale: int)

  function Abs(x: int): nat {
    if x < 0 then -x else x
  }

  /** The number the decimal stands for. */
  function Value(d: Decimal): real {
    if d.scale >= 0 then d.unscaled as real / Pow10(d.scale) as real
    else (d.unscaled * Pow10(-d.scale)) as real
  }

  /**
   * `BigDecimal.stripTrailingZeros`: drop trailing decimal zeros of the unscaled value,
   * lowering the scale by one for each; zero becomes `BigDecimal.ZERO` (scale 0).
   * The result has no trailing zero and stands for the same number.
   */
  function StripTrailingZeros(d: Decimal): (r: Decimal)
    ensures r.unscaled == 0 <==> d.unscaled == 0
    ensures r.unscaled == 0 ==> r.scale == 0
    ensures r.unscaled != 0 ==> r.unscaled % 10 != 0
    ensures d.unscaled != 0 ==> r.scale <= d.scale
    decreases Abs(d.unscaled)
  {
    if d.unscaled == 0 then Decimal(0, 0)
    else if d.unscaled % 10 != 0 then d
    else StripTrailingZeros(Decimal(d.unscaled / 10, d.scale - 1))
  }

  /** Stripping keeps the number: the old unscaled value is the new one shifted back by the dropped places. */
  lemma {:induction false} StripPreservesValue(d: Decimal)
    requires d.unscaled != 0
    ensures var r := StripTrailingZeros(d);
            d.unscaled == r.unscaled * Pow10(d.scale - r.scale)
    decreases Abs(d.unscaled)
  {
    if d.unscaled % 10 == 0 {
      var e := Decimal(d.unscaled / 10, d.scale - 1);
      StripPreservesValue(e);
      var r := StripTrailingZeros(e);
      assert d.unscaled == 10 * e.unscaled;
      assert Pow10(d.scale - r.scale) == 10 * Pow10(e.scale - r.scale);
    }
  }

  /** `decimalScale(d)` of the location controller: `Math.max(0, stripped.scale())`. */
  function DecimalScale(d: Decimal): (places: nat)
    ensures d.unscaled == 0 ==> places == 0
    ensures places <= (if d.scale < 0 then 0 else d.scale)
    ensures d.scale >= 0 && d.unscaled % 10 != 0 ==> places == d.scale
  {
    var s := StripTrailingZeros(d).scale;
    if s < 0 then 0 else s
  }

  /** A positive multiple of a positive number is at least that number. */
  lemma MultipleAtLeast(a: int, m: int)
    requires a >= 1 && m > 0
    ensures a * m >= m
  {
    assert a * m == m + (a - 1) * m;
  }

  /** `x % m == r` for the unique remainder: the Euclidean division is unique. */
  lemma ModUnique(x: int, m: int, q: int, r: int)
    requires m > 0 && 0 <= r < m && x == q * m + r
    ensures x % m == r && x / m == q
  {
    var q', r' := x / m, x % m;
    assert (q' - q) * m == q' * m - q * m;
    assert (q - q') * m == q * m - q' * m;
    if q' > q {
      MultipleAtLeast(q' - q, m);
    } else if q' < q {
      MultipleAtLeast(q - q', m);
    }
  }

  /** A multiple of `10 * p` is a multiple of 10. */
  lemma MultipleOfTen(x: int, p: nat)
    requires p > 0 && x % (10 * p) == 0
    ensures x % 10 == 0
  {
    var q := x / (10 * p);
    assert x == q * (10 * p);
    ModUnique(x, 10, q * p, 0);
  }

  /** Divisibility by `10 * p` of `10 * v` is divisibility of `v` by `p`. */
  lemma ScaledMultiple(v: int, p: nat)
    requires p > 0
    ensures (10 * v) % (10 * p) == 0 <==> v % p == 0
  {
    var q, r := v / p, v % p;
    assert v == q * p + r;
    assert 10 * v == q * (10 * p) + 10 * r;
    ModUnique(10 * v, 10 * p, q, 10 * r);
  }

  /**
   * At most four places after stripping trailing zeros exactly when either the
   * representation already has scale at most 4, or its unscaled value is a multiple of
   * 10^(scale - 4): that is, when the number times 10^4 is a whole number.
   */
  lemma {:induction false} AtMostFourPlaces(d: Decimal)
    ensures DecimalScale(d) <= 4 <==> (d.scale <= 4 || d.unscaled % Pow10(d.scale - 4) == 0)
    decreases Abs(d.unscaled)
  {
    if d.unscaled == 0 || d.scale <= 4 {
      // the stripped scale never exceeds the original one
    } else if d.unscaled % 10 != 0 {
      if d.scale > 4 && d.unscaled % Pow10(d.scale - 4) == 0 {
        MultipleOfTen(d.unscaled, Pow10(d.scale - 5));
      }
    } else {
      var e := Decimal(d.unscaled / 10, d.scale - 1);
      assert d.unscaled == 10 * e.unscaled;
      assert StripTrailingZeros(d) == StripTrailingZeros(e);
      if e.scale >= 5 {
        AtMostFourPlaces(e);
        ScaledMultiple(e.unscaled, Pow10(e.scale - 4));
      }
    }
  }
}
