/** Numeric helpers shared by the model: JavaScript's `Math.round`, `Math.min`
    and `Math.max` on the values the application uses. JavaScript numbers are
    modelled as mathematical reals (no IEEE rounding). */
module Numbers {

  /** `Math.round(x)`: the integer nearest to `x`, a half rounded up (towards
      +infinity), which is `floor(x + 1/2)` for every real `x`. */
  function Round(x: real): (r: int)
    ensures r as real - 0.5 <= x < r as real + 0.5
  {
    (x + 0.5).Floor
  }

  function Min(a: int, b: int): int
  {
    if a <= b then a else b
  }

  function MaxReal(a: real, b: real): real
  {
    if a >= b then a else b
  }

  /** Rounding an integer gives it back. */
  lemma RoundOfInteger(k: int)
    ensures Round(k as real) == k
  {
  }

  /** Rounding is monotone. */
  lemma RoundMonotone(x: real, y: real)
    requires x <= y
    ensures Round(x) <= Round(y)
  {
  }

  /** Rounding keeps a value inside integer bounds that enclose it. */
  lemma RoundWithin(x: real, lo: int, hi: int)
    requires lo as real <= x <= hi as real
    ensures lo <= Round(x) <= hi
  {
    RoundOfInteger(lo);
    RoundOfInteger(hi);
    RoundMonotone(lo as real, x);
    RoundMonotone(x, hi as real);
  }

  /** A part of a positive whole is between none and all of it. */
  lemma RatioWithin(part: real, whole: real)
    requires 0.0 <= part <= whole && whole > 0.0
    ensures 0.0 <= part / whole <= 1.0
  {
    var q := part / whole;
    assert q * whole == part;
  }

  /** A total of `n` values each in [0, bound] has a mean in [0, bound]. */
  lemma MeanWithin(total: real, n: real, bound: real)
    requires n > 0.0 && 0.0 <= total <= bound * n
    ensures 0.0 <= total / n <= bound
  {
    var q := total / n;
    assert q * n == total;
    if q > bound {
      assert q * n > bound * n;
    }
  }
}
