/**
 * Exact powers of ten and the order of magnitude of a positive number.
 *
 * The viewer computes `Math.Log10(s)`, truncates it toward zero and, when the
 * logarithm is negative and not an integer, subtracts one. Over exact reals
 * `log10 s < 0` holds iff `s < 1`, and `log10 s` equals the integer `t` iff
 * `s == 10^t`; this module states the two steps in those terms.
 */
module Magnitude {

  /** 10^k for any integer k. */
  function Pow10(k: int): (r: real)
    ensures r > 0.0
    decreases if k < 0 then -k else k
  {
    if k == 0 then 1.0
    else if k > 0 then 10.0 * Pow10(k - 1)
    else Pow10(k + 1) / 10.0
  }

  lemma Pow10Next(k: int)
    ensures Pow10(k + 1) == 10.0 * Pow10(k)
  {
  }

  lemma {:induction false} Pow10StrictlyIncreasing(a: int, b: int)
    requires a < b
    ensures Pow10(a) < Pow10(b)
    decreases b - a
  {
    Pow10Next(a);
    if a + 1 < b {
      Pow10StrictlyIncreasing(a + 1, b);
    }
  }

  lemma Pow10Injective(a: int, b: int)
    requires Pow10(a) == Pow10(b)
    ensures a == b
  {
    if a < b {
      Pow10StrictlyIncreasing(a, b);
    } else if b < a {
      Pow10StrictlyIncreasing(b, a);
    }
  }

  /** A value is a power of ten when some integer exponent yields it. */
  ghost predicate IsPow10(x: real) {
    exists k: int :: Pow10(k) == x
  }

  /** `k` is the order of magnitude of `s`: 10^k <= s < 10^(k+1). */
  ghost predicate InDecade(s: real, k: int) {
    Pow10(k) <= s < Pow10(k + 1)
  }

  /** Every positive number lies in at most one decade. */
  lemma DecadeUnique(s: real, j: int, k: int)
    requires InDecade(s, j) && InDecade(s, k)
    ensures j == k
  {
    if j < k {
      DecadesApart(s, j, k);
      assert false;
    } else if k < j {
      DecadesApart(s, k, j);
      assert false;
    }
  }

  /** A number in decade j is below every higher decade. */
  lemma DecadesApart(s: real, j: int, k: int)
    requires InDecade(s, j) && j < k
    ensures s < Pow10(k)
  {
    if j + 1 < k {
      Pow10StrictlyIncreasing(j + 1, k);
    }
  }

  lemma FloorShrinks(x: real)
    requires x >= 10.0
    ensures 0 <= (x / 10.0).Floor < x.Floor
  {
    var f := x.Floor;
    assert x < f as real + 1.0;
    assert x / 10.0 < (f as real + 1.0) / 10.0;
  }

  /** floor(log10 s) for s >= 1, by repeated division by ten. */
  function FloorLog10(s: real): (k: int)
    requires s >= 1.0
    ensures k >= 0 && Pow10(k) <= s < Pow10(k + 1)
    decreases s.Floor
  {
    if s < 10.0 then
      assert Pow10(1) == 10.0 * Pow10(0);
      0
    else
      FloorShrinks(s);
      var k := FloorLog10(s / 10.0);
      Pow10Next(k);
      Pow10Next(k + 1);
      k + 1
  }

  lemma ProductNonNegative(a: real, b: real)
    requires a >= 0.0 && b >= 0.0
    ensures a * b >= 0.0
  {
  }

  lemma ReciprocalShrinks(s: real)
    requires 0.0 < s && s * 10.0 <= 1.0
    ensures 0 <= (1.0 / (s * 10.0)).Floor < (1.0 / s).Floor
  {
    var x := 1.0 / s;
    assert x * s == 1.0;
    var y := s * 10.0;
    assert x * y == 10.0;
    assert x > 0.0 && 1.0 - y >= 0.0;
    ProductNonNegative(x, 1.0 - y);
    assert x >= 10.0;
    assert 1.0 / (s * 10.0) == x / 10.0;
    FloorShrinks(x);
  }

  /** ceil(log10 s) for 0 < s <= 1, by repeated multiplication by ten. */
  function CeilLog10(s: real): (k: int)
    requires 0.0 < s <= 1.0
    ensures k <= 0 && Pow10(k - 1) < s <= Pow10(k)
    decreases (1.0 / s).Floor
  {
    if s * 10.0 > 1.0 then
      assert Pow10(-1) == Pow10(0) / 10.0;
      0
    else
      ReciprocalShrinks(s);
      var k := CeilLog10(s * 10.0);
      Pow10Next(k - 1);
      Pow10Next(k - 2);
      k - 1
  }

  /**
   * `Math.Truncate(Math.Log10(s))`: the logarithm rounded toward zero, i.e.
   * the floor for s >= 1 and the ceiling for s < 1.
   */
  function TruncatedLog10(s: real): (t: int)
    requires s > 0.0
    ensures s >= 1.0 ==> t >= 0 && Pow10(t) <= s < Pow10(t + 1)
    ensures s < 1.0 ==> t <= 0 && Pow10(t - 1) < s <= Pow10(t)
  {
    if s >= 1.0 then FloorLog10(s) else CeilLog10(s)
  }

  /**
   * The exponent both delta functions use: the truncated logarithm, less one
   * when the logarithm is negative (s < 1) and not an integer (s is not 10^t).
   * The adjustment turns truncation into the floor.
   */
  function Exponent(s: real): (k: int)
    requires s > 0.0
    ensures InDecade(s, k)
  {
    var t := TruncatedLog10(s);
    if s < 1.0 && Pow10(t) != s then
      Pow10Next(t - 1);
      t - 1
    else
      Pow10Next(t);
      t
  }

  /** The exponent is the one decade containing s. */
  lemma ExponentOfDecade(s: real, k: int)
    requires s > 0.0 && InDecade(s, k)
    ensures Exponent(s) == k
  {
    DecadeUnique(s, Exponent(s), k);
  }

  /** `decLog == truncate` in the source: log10 s is an integer. */
  predicate IsExactPow10(s: real)
    requires s > 0.0
  {
    Pow10(Exponent(s)) == s
  }

  /** The exactness test agrees with "s is some power of ten", both ways. */
  lemma ExactPow10Iff(s: real)
    requires s > 0.0
    ensures IsExactPow10(s) <==> IsPow10(s)
  {
    if IsPow10(s) {
      var k :| Pow10(k) == s;
      Pow10Next(k);
      Pow10StrictlyIncreasing(k, k + 1);
      ExponentOfDecade(s, k);
    }
  }
}
