/**
 * The p5.js helpers that the molecular background calls, given their standard
 * meanings over real numbers (JavaScript doubles without rounding).
 * `Math.random()` is not a function here: each random draw takes the sample
 * `u` that it consumes, with 0 <= u < 1, as an explicit argument.
 */
module P5Helpers {

  /** A sample of `Math.random()`. */
  predicate IsUnitSample(u: real) {
    0.0 <= u < 1.0
  }

  /** Scaling a non-negative `m` by a unit sample stays within `[0, m]`, strictly below a positive `m`. */
  lemma ScaledBelow(u: real, m: real)
    requires IsUnitSample(u)
    ensures m >= 0.0 ==> 0.0 <= u * m <= m
    ensures m > 0.0 ==> u * m < m
  {
    assert (1.0 - u) * m == m - u * m;
    if m > 0.0 {
      assert (1.0 - u) * m > 0.0;
    }
  }

  /** Dividing a value of `[0, m)` by `m` gives a unit sample. */
  lemma QuotientIsSample(v: real, m: real)
    requires 0.0 <= v < m
    ensures IsUnitSample(v / m) && v / m * m == v
  {
    var u := v / m;
    assert u * m == v;
  }

  /** p5 `constrain(n, low, high)`, i.e. `max(min(n, high), low)`. */
  function Constrain(n: real, low: real, high: real): (r: real)
    ensures low <= high ==> low <= r <= high
    ensures low <= n <= high ==> r == n
    ensures low <= high && n < low ==> r == low
    ensures n > high && high >= low ==> r == high
  {
    var m := if n < high then n else high;
    if m > low then m else low
  }

  /** p5 `random(max)` with one numeric argument: `u * max`. */
  function RandomBelow(u: real, max: real): (r: real)
    requires IsUnitSample(u)
    ensures max >= 0.0 ==> 0.0 <= r <= max && (max > 0.0 ==> r < max)
    ensures max == 0.0 ==> r == 0.0
  {
    ScaledBelow(u, max);
    u * max
  }

  /** p5 `random(min, max)`: `u * (max - min) + min`, the bounds swapped first when min > max. */
  function Random(u: real, min: real, max: real): (r: real)
    requires IsUnitSample(u)
    ensures min <= max ==> min <= r <= max
    ensures min < max ==> r < max
  {
    if min > max then
      u * (min - max) + max
    else
      var width := max - min;
      ScaledBelow(u, width);
      assert 0.0 <= u * width <= width;
      u * width + min
  }

  /** p5 `random(choices)` on an array: `choices[floor(u * choices.length)]`. */
  function RandomChoice<T>(u: real, choices: seq<T>): (r: T)
    requires IsUnitSample(u) && |choices| > 0
    ensures r in choices
  {
    var n := |choices| as real;
    ScaledBelow(u, n);
    choices[(u * n).Floor]
  }

  /** `v / max` is the sample for which `random(max)` gives `v`, for any `v` of `[0, max)`. */
  lemma RandomBelowInverse(v: real, max: real)
    requires 0.0 <= v < max
    ensures IsUnitSample(v / max) && RandomBelow(v / max, max) == v
  {
    QuotientIsSample(v, max);
  }

  /** `(v - min) / (max - min)` is the sample for which `random(min, max)` gives `v`, for any `v` of `[min, max)`. */
  lemma RandomInverse(v: real, min: real, max: real)
    requires min <= v < max
    ensures IsUnitSample((v - min) / (max - min)) && Random((v - min) / (max - min), min, max) == v
  {
    QuotientIsSample(v - min, max - min);
  }

  /** `k / |choices|` is the sample for which `random(choices)` gives `choices[k]`. */
  lemma RandomChoiceInverse<T>(choices: seq<T>, k: nat)
    requires k < |choices|
    ensures IsUnitSample(k as real / |choices| as real)
    ensures RandomChoice(k as real / |choices| as real, choices) == choices[k]
  {
    var n := |choices| as real;
    QuotientIsSample(k as real, n);
    assert (k as real / n * n).Floor == k;
  }

  /**
   * p5 `map(value, start1, stop1, start2, stop2)` without bound clamping:
   * `(value - start1) / (stop1 - start1) * (stop2 - start2) + start2`.
   */
  function Map(value: real, start1: real, stop1: real, start2: real, stop2: real): (r: real)
    requires start1 != stop1
    ensures (r - start2) * (stop1 - start1) == (value - start1) * (stop2 - start2)
    ensures value == start1 ==> r == start2
    ensures value == stop1 ==> r == stop2
  {
    var q := (value - start1) / (stop1 - start1);
    assert q * (stop1 - start1) == value - start1;
    assert (q * (stop2 - start2)) * (stop1 - start1) == (q * (stop1 - start1)) * (stop2 - start2);
    q * (stop2 - start2) + start2
  }
}
