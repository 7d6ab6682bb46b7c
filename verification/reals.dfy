/**
  Exact-real arithmetic shared by the firmware and the host scripts: the
  non-negative clamp, sums, means and powers. Floating-point rounding is not
  modelled; every quantity is an exact real.
 */
module Reals {

  /** `max(0, x)`, the clamp applied to field values and to forces. */
  function ClampNonNegative(x: real): (r: real)
    ensures r >= 0.0 && r >= x
    ensures r == x || r == 0.0
  {
    if x < 0.0 then 0.0 else x
  }

  /** The sum of a sequence, accumulated from the left as a loop would. */
  function Sum(xs: seq<real>): real
  {
    if |xs| == 0 then 0.0 else Sum(xs[..|xs| - 1]) + xs[|xs| - 1]
  }

  /** The arithmetic mean, as `np.mean` computes it. */
  function Mean(xs: seq<real>): real
    requires |xs| > 0
  {
    Sum(xs) / |xs| as real
  }

  /** Sum of squared deviations from `m`. */
  function SquaredDeviation(xs: seq<real>, m: real): real
  {
    if |xs| == 0 then 0.0
    else SquaredDeviation(xs[..|xs| - 1], m) + (xs[|xs| - 1] - m) * (xs[|xs| - 1] - m)
  }

  function Pow(a: real, n: nat): real
  {
    if n == 0 then 1.0 else a * Pow(a, n - 1)
  }

  /** A sum of values that all lie in [lo, hi] lies in [n*lo, n*hi]. */
  lemma {:induction false} SumBounds(xs: seq<real>, lo: real, hi: real)
    requires forall i :: 0 <= i < |xs| ==> lo <= xs[i] <= hi
    ensures |xs| as real * lo <= Sum(xs) <= |xs| as real * hi
  {
    if |xs| > 0 {
      var n := |xs| - 1;
      SumBounds(xs[..n], lo, hi);
      assert n as real * lo + lo == |xs| as real * lo;
      assert n as real * hi + hi == |xs| as real * hi;
    }
  }

  /** The mean of values in [lo, hi] lies in [lo, hi]. */
  lemma MeanBounds(xs: seq<real>, lo: real, hi: real)
    requires |xs| > 0
    requires forall i :: 0 <= i < |xs| ==> lo <= xs[i] <= hi
    ensures lo <= Mean(xs) <= hi
  {
    SumBounds(xs, lo, hi);
    var n := |xs| as real;
    assert lo * n <= Sum(xs) <= hi * n;
    assert Mean(xs) * n == Sum(xs);
  }

  /** The mean of a constant sequence is that constant. */
  lemma MeanOfConstant(xs: seq<real>, c: real)
    requires |xs| > 0
    requires forall i :: 0 <= i < |xs| ==> xs[i] == c
    ensures Mean(xs) == c
  {
    MeanBounds(xs, c, c);
  }

  /** A product of reals is zero only when one of its factors is. */
  lemma ZeroProduct(d: real, e: real)
    ensures d * e == 0.0 ==> d == 0.0 || e == 0.0
  {
    if d > 0.0 && e > 0.0 {
      assert d * e > 0.0;
    } else if d < 0.0 && e < 0.0 {
      assert d * e > 0.0;
    } else if d > 0.0 && e < 0.0 {
      assert d * e < 0.0;
    } else if d < 0.0 && e > 0.0 {
      assert d * e < 0.0;
    }
  }

  lemma ProductNonNegative(d: real, e: real)
    requires d >= 0.0 && e >= 0.0
    ensures d * e >= 0.0
  {
    if d > 0.0 && e > 0.0 {
      assert d * e > 0.0;
    }
  }

  lemma SquareNonNegative(d: real)
    ensures d * d >= 0.0
  {
    if d > 0.0 {
      assert d * d > 0.0;
    } else if d < 0.0 {
      assert d * d > 0.0;
    }
  }

  /** A sum of squared deviations is never negative. */
  lemma {:induction false} SquaredDeviationNonNegative(xs: seq<real>, m: real)
    ensures SquaredDeviation(xs, m) >= 0.0
  {
    if |xs| > 0 {
      SquaredDeviationNonNegative(xs[..|xs| - 1], m);
      SquareNonNegative(xs[|xs| - 1] - m);
    }
  }

  /** The squared deviation from `m` is zero exactly when every value equals `m`. */
  lemma {:induction false} SquaredDeviationZero(xs: seq<real>, m: real)
    ensures SquaredDeviation(xs, m) == 0.0 <==> forall i :: 0 <= i < |xs| ==> xs[i] == m
  {
    if |xs| > 0 {
      var n := |xs| - 1;
      var init := xs[..n];
      SquaredDeviationZero(init, m);
      SquaredDeviationNonNegative(init, m);
      var d := xs[n] - m;
      SquareNonNegative(d);
      if SquaredDeviation(xs, m) == 0.0 {
        assert d * d == 0.0;
        ZeroProduct(d, d);
        forall i | 0 <= i < |xs| ensures xs[i] == m {
          if i < n {
            assert xs[i] == init[i];
          }
        }
      }
      if forall i :: 0 <= i < |xs| ==> xs[i] == m {
        forall i | 0 <= i < n ensures init[i] == m {
          assert init[i] == xs[i];
        }
      }
    }
  }
}
