/**
 * Sums and averages over finite sequences of reals, the arithmetic behind
 * `np.sum` and `np.average` (with and without `weights=`).
 */
module Averages {

  /** The sum of `s`, accumulated left to right. */
  function Sum(s: seq<real>): real
  {
    if |s| == 0 then 0.0 else Sum(s[..|s| - 1]) + s[|s| - 1]
  }

  /** The sum of `w[i] * a[i]`, accumulated left to right. */
  function WeightedSum(a: seq<real>, w: seq<real>): real
    requires |w| == |a|
  {
    if |w| == 0 then 0.0
    else WeightedSum(a[..|a| - 1], w[..|w| - 1]) + w[|w| - 1] * a[|a| - 1]
  }

  /**
   * `np.average(a)`: the arithmetic mean.  Only a non-empty column reaches it:
   * taking `[:, 0]` of an empty table raises before any average is taken.
   * The mean times the count is the sum, and a constant column averages to
   * its value.
   */
  function Mean(a: seq<real>): (m: real)
    requires |a| > 0
    ensures m * |a| as real == Sum(a)
    ensures (forall i :: 0 <= i < |a| ==> a[i] == a[0]) ==> m == a[0]
  {
    SumOfConstant(a, a[0]);
    Sum(a) / |a| as real
  }

  /**
   * `np.average(a, weights=w)`: numpy raises when the shapes differ or the
   * weights sum to zero, so both are demanded here.  The average times the
   * weight sum is the weighted sum, and constant values average to that value
   * whatever the weights.
   */
  function WeightedAverage(a: seq<real>, w: seq<real>): (r: real)
    requires |a| == |w| && Sum(w) != 0.0
    ensures r * Sum(w) == WeightedSum(a, w)
    ensures (forall i :: 0 <= i < |a| ==> a[i] == a[0]) ==> r == a[0]
  {
    WeightedSumOfConstant(a, w, a[0]);
    WeightedSum(a, w) / Sum(w)
  }

  /** Values that all equal `c` sum to `c` times their count. */
  lemma {:induction false} SumOfConstant(a: seq<real>, c: real)
    ensures (forall i :: 0 <= i < |a| ==> a[i] == c) ==> Sum(a) == c * |a| as real
  {
    if |a| > 0 {
      var n := |a|;
      SumOfConstant(a[..n - 1], c);
      assert forall i :: 0 <= i < n - 1 ==> a[..n - 1][i] == a[i];
    }
  }

  /** Weighting values that all equal `c` gives `c` times the weight sum. */
  lemma {:induction false} WeightedSumOfConstant(a: seq<real>, w: seq<real>, c: real)
    requires |a| == |w|
    ensures (forall i :: 0 <= i < |a| ==> a[i] == c) ==> WeightedSum(a, w) == c * Sum(w)
  {
    if |a| > 0 {
      var n := |a|;
      WeightedSumOfConstant(a[..n - 1], w[..n - 1], c);
      assert forall i :: 0 <= i < n - 1 ==> a[..n - 1][i] == a[i];
    }
  }

  /** Adding `c` to every entry adds `c` times the total weight. */
  lemma {:induction false} WeightedSumShifted(w: seq<real>, a: seq<real>, b: seq<real>, c: real)
    requires |w| == |a| == |b|
    requires forall i :: 0 <= i < |a| ==> b[i] == a[i] + c
    ensures WeightedSum(b, w) == WeightedSum(a, w) + c * Sum(w)
  {
    if |w| > 0 {
      var n := |w| - 1;
      WeightedSumShifted(w[..n], a[..n], b[..n], c);
    }
  }

  /** Adding `d` to every value adds `d` to the weighted average. */
  lemma {:induction false} WeightedAverageShifted(a: seq<real>, b: seq<real>, w: seq<real>, d: real)
    requires |a| == |w| && |b| == |w| && Sum(w) != 0.0
    requires forall i :: 0 <= i < |a| ==> b[i] == a[i] + d
    ensures WeightedAverage(b, w) == WeightedAverage(a, w) + d
  {
    WeightedSumShifted(w, a, b, d);
    QuotientShifted(WeightedSum(a, w), Sum(w), d);
  }

  lemma {:induction false} QuotientShifted(x: real, s: real, d: real)
    requires s != 0.0
    ensures (x + d * s) / s == x / s + d
  {
  }

  /** Multiplying every weight by `c` multiplies the weighted sum by `c`. */
  lemma {:induction false} WeightedSumScaledWeights(w: seq<real>, v: seq<real>, a: seq<real>, c: real)
    requires |w| == |v| == |a|
    requires forall i :: 0 <= i < |w| ==> v[i] == c * w[i]
    ensures WeightedSum(a, v) == c * WeightedSum(a, w)
  {
    if |w| > 0 {
      var n := |w| - 1;
      WeightedSumScaledWeights(w[..n], v[..n], a[..n], c);
    }
  }

  /** Every entry multiplied by `c`. */
  function Scale(c: real, s: seq<real>): (t: seq<real>)
    ensures |t| == |s|
    ensures forall i :: 0 <= i < |s| ==> t[i] == c * s[i]
  {
    seq(|s|, i requires 0 <= i < |s| => c * s[i])
  }

  /** Multiplying every entry by `c` multiplies the sum by `c`. */
  lemma {:induction false} SumScaled(s: seq<real>, t: seq<real>, c: real)
    requires |s| == |t|
    requires forall i :: 0 <= i < |s| ==> t[i] == c * s[i]
    ensures Sum(t) == c * Sum(s)
  {
    if |s| > 0 {
      var n := |s| - 1;
      SumScaled(s[..n], t[..n], c);
    }
  }

  /** With every weight equal to `c`, the weighted sum is `c` times the plain sum. */
  lemma {:induction false} WeightedSumConstantWeights(w: seq<real>, a: seq<real>, c: real)
    requires |w| == |a|
    requires forall i :: 0 <= i < |w| ==> w[i] == c
    ensures WeightedSum(a, w) == c * Sum(a)
    ensures Sum(w) == c * |w| as real
  {
    if |w| > 0 {
      var n := |w| - 1;
      WeightedSumConstantWeights(w[..n], a[..n], c);
    }
  }

  /** A common nonzero factor cancels from a quotient. */
  lemma {:induction false} CancelFactor(c: real, x: real, y: real, cx: real, cy: real)
    requires c != 0.0 && y != 0.0
    requires cx == c * x && cy == c * y
    ensures cy != 0.0
    ensures cx / cy == x / y
  {
    var q := x / y;
    assert x == q * y;
    assert cx == q * cy;
  }

  /** A sum of non-negative entries is non-negative. */
  lemma {:induction false} SumNonNegative(s: seq<real>)
    requires forall i :: 0 <= i < |s| ==> s[i] >= 0.0
    ensures Sum(s) >= 0.0
  {
    if |s| > 0 {
      SumNonNegative(s[..|s| - 1]);
    }
  }

  /** The mean of non-negative entries is non-negative. */
  lemma {:induction false} MeanNonNegative(s: seq<real>)
    requires |s| > 0
    requires forall i :: 0 <= i < |s| ==> s[i] >= 0.0
    ensures Mean(s) >= 0.0
  {
    SumNonNegative(s);
  }

  /**
   * With equal, nonzero weights the weighted average is the plain mean:
   * `np.average(a, weights=[c]*n) == np.average(a)`.
   */
  lemma {:induction false} WeightedAverageOfEqualWeights(a: seq<real>, w: seq<real>, c: real)
    requires |a| == |w| > 0 && c != 0.0
    requires forall i :: 0 <= i < |w| ==> w[i] == c
    ensures Sum(w) != 0.0
    ensures WeightedAverage(a, w) == Mean(a)
  {
    WeightedSumConstantWeights(w, a, c);
    CancelFactor(c, Sum(a), |w| as real, WeightedSum(a, w), Sum(w));
  }

  /** Scaling every weight by the same nonzero `c` leaves the weighted average unchanged. */
  lemma {:induction false} WeightedAverageScaleInvariant(a: seq<real>, w: seq<real>, v: seq<real>, c: real)
    requires |a| == |w| == |v| && Sum(w) != 0.0 && c != 0.0
    requires forall i :: 0 <= i < |w| ==> v[i] == c * w[i]
    ensures Sum(v) != 0.0
    ensures WeightedAverage(a, v) == WeightedAverage(a, w)
  {
    WeightedSumScaledWeights(w, v, a, c);
    SumScaled(w, v, c);
    CancelFactor(c, WeightedSum(a, w), Sum(w), WeightedSum(a, v), Sum(v));
  }

  /** A zero sum stays zero when every entry is scaled, and a nonzero one stays nonzero when `c != 0`. */
  lemma {:induction false} ScaledSumZero(s: seq<real>, c: real)
    requires c != 0.0
    ensures Sum(Scale(c, s)) == 0.0 <==> Sum(s) == 0.0
  {
    SumScaled(s, Scale(c, s), c);
  }

  /**
   * Weights `c * (c * w[i])`, as the products of weights scaled by `c` are,
   * give the same weighted average as `w`.
   */
  lemma {:induction false} WeightedAverageTwiceScaled(a: seq<real>, w: seq<real>, c: real)
    requires |a| == |w| && Sum(w) != 0.0 && c != 0.0
    ensures Sum(Scale(c, Scale(c, w))) != 0.0
    ensures WeightedAverage(a, Scale(c, Scale(c, w))) == WeightedAverage(a, w)
  {
    var once := Scale(c, w);
    WeightedAverageScaleInvariant(a, w, once, c);
    WeightedAverageScaleInvariant(a, once, Scale(c, once), c);
  }
}
