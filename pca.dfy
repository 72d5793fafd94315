/**
 * `GetEign`: the weighted principal-component set-up for a set of 2-D core
 * positions.  The weights default to ones, the coordinates are centred on
 * their weighted means, a 2x2 covariance matrix is accumulated point by
 * point, an eigen-solver is applied to it, and both of its outputs are
 * re-indexed by one descending order of the eigenvalues.
 *
 * The eigen-solver (`np.linalg.eig`) is not modelled: it is the parameter
 * `eig`, about which nothing is assumed.
 */
module Pca {
  import opened Wrappers
  import opened Averages

  /** A length-2 vector, as numpy returns for the eigenvalues of a 2x2 matrix. */
  type Vec2 = v: seq<real> | |v| == 2 witness [0.0, 0.0]

  /** A 2x2 matrix as a sequence of rows: `m[r][c]` is numpy's `m[r, c]`. */
  type Mat2 = m: seq<Vec2> | |m| == 2 witness [ZERO2, ZERO2]

  const ZERO2: Vec2 := [0.0, 0.0]

  type Index2 = k: int | 0 <= k < 2

  /** An ordering of the two indices, as `np.argsort` returns for a length-2 array. */
  type Order = p: seq<Index2> | |p| == 2 && p[0] != p[1] witness [0, 1]

  /** The pair `(Eign, EignVec)`: what the eigen-solver returns and what GetEign returns. */
  datatype Eigen = Eigen(values: Vec2, vectors: Mat2)

  /** The exceptions `np.average` raises inside GetEign. */
  datatype PcaError =
    | ShapeMismatch  // a coordinate array and the weights differ in length
    | ZeroWeightSum  // the weights sum to zero

  /** `n` weights, all equal to `c`; `np.ones_like` is `Uniform(n, 1.0)`. */
  function Uniform(n: nat, c: real): seq<real>
  {
    seq(n, _ => c)
  }

  /** The weights GetEign works with: the given ones, or ones when they are omitted. */
  function EffectiveWeights(xs: seq<real>, weights: Option<seq<real>>): seq<real>
  {
    if weights.None? then Uniform(|xs|, 1.0) else weights.value
  }

  /**
   * `a - np.average(a, weights=w)`: the coordinates shifted by one common
   * amount, so all their differences are kept, chosen so that their weighted
   * sum is zero.
   */
  function Centered(a: seq<real>, w: seq<real>): (c: seq<real>)
    requires |a| == |w| && Sum(w) != 0.0
    ensures |c| == |a|
    ensures WeightedSum(c, w) == 0.0
    ensures forall i, j :: 0 <= i < |a| && 0 <= j < |a| ==> c[i] - c[j] == a[i] - a[j]
  {
    var mean := WeightedAverage(a, w);
    var c := seq(|a|, i requires 0 <= i < |a| => a[i] - mean);
    WeightedSumShifted(w, a, c, -mean);
    c
  }

  /**
   * The running total of `w[i] * a[i] * b[i] / total` over the first `k`
   * points, term by term as the loop of GetEign adds them.
   */
  function Accumulated(w: seq<real>, a: seq<real>, b: seq<real>, total: real, k: nat): real
    requires |a| == |w| && |b| == |w| && k <= |w| && total != 0.0
  {
    if k == 0 then 0.0
    else Accumulated(w, a, b, total, k - 1) + w[k - 1] * a[k - 1] * b[k - 1] / total
  }

  /** The matrix the accumulation loop builds from centred coordinates. */
  function CenteredCovariance(cx: seq<real>, cy: seq<real>, w: seq<real>): Mat2
    requires |cx| == |w| && |cy| == |w| && Sum(w) != 0.0
  {
    var total, n := Sum(w), |w|;
    [[Accumulated(w, cx, cx, total, n), Accumulated(w, cx, cy, total, n)],
     [Accumulated(w, cy, cx, total, n), Accumulated(w, cy, cy, total, n)]]
  }

  /** The covariance matrix GetEign hands to the eigen-solver; it is symmetric. */
  function Covariance(xs: seq<real>, ys: seq<real>, w: seq<real>): (m: Mat2)
    requires |xs| == |w| && |ys| == |w| && Sum(w) != 0.0
    ensures m[0][1] == m[1][0]
  {
    var cx, cy := Centered(xs, w), Centered(ys, w);
    AccumulatedSymmetric(w, cx, cy, Sum(w), |w|);
    CenteredCovariance(cx, cy, w)
  }

  /** Entry-wise products `a[i] * b[i]`. */
  function Products(a: seq<real>, b: seq<real>): seq<real>
    requires |a| == |b|
  {
    seq(|a|, i requires 0 <= i < |a| => a[i] * b[i])
  }

  /**
   * `np.argsort` of two values: the index of the smaller first; equal values
   * keep their index order, as numpy's sort does for so short an array.
   */
  function ArgsortAscending(e: Vec2): (p: Order)
    ensures e[p[0]] <= e[p[1]]
    ensures e[0] == e[1] ==> p == [0, 1]
  {
    if e[1] < e[0] then [1, 0] else [0, 1]
  }

  /** `p[::-1]`. */
  function Reverse(p: Order): Order
  {
    [p[1], p[0]]
  }

  /** `s[p]`: the entries (or rows) of `s` in the order `p`. */
  function Permute<T>(s: seq<T>, p: Order): (r: seq<T>)
    requires |s| == 2
    ensures |r| == 2
  {
    [s[p[0]], s[p[1]]]
  }

  /**
   * `np.argsort(Eign)[::-1]`: the larger eigenvalue first.  Because it reverses
   * a stable ascending order, equal eigenvalues come out swapped.
   */
  function DescendingOrder(values: Vec2): (p: Order)
    ensures values[p[0]] >= values[p[1]]
    ensures values[0] == values[1] ==> p == [1, 0]
  {
    Reverse(ArgsortAscending(values))
  }

  /**
   * Lines 44-45 as written: the eigenvalues and the ROWS of the eigenvector
   * matrix are re-indexed by the same descending order, computed from the
   * eigenvalues before either is reassigned.
   */
  function SortDescending(e: Eigen): (r: Eigen)
    ensures r.values[0] >= r.values[1]
    ensures multiset(r.values) == multiset(e.values)
    ensures e.values[0] == e.values[1] ==> r.vectors == [e.vectors[1], e.vectors[0]]
    ensures exists p: Order :: r.values == Permute(e.values, p) && r.vectors == Permute(e.vectors, p)
  {
    var order := DescendingOrder(e.values);
    var r := Eigen(Permute(e.values, order), Permute(e.vectors, order));
    assert r.values == Permute(e.values, order) && r.vectors == Permute(e.vectors, order);
    assert e.values == [e.values[0], e.values[1]];
    if order == [0, 1] then
      assert r.values == e.values;
      r
    else
      assert order == [1, 0];
      assert r.values == [e.values[1], e.values[0]] && r.vectors == [e.vectors[1], e.vectors[0]];
      assert multiset(r.values) == multiset{e.values[1], e.values[0]} == multiset(e.values);
      r
  }

  /**
   * GetEign as a function of its inputs and of the eigen-solver.  It succeeds
   * exactly when both coordinate arrays match the weights and the weights do
   * not sum to zero.  On success the eigenvalues are the solver's, in
   * non-increasing order.
   */
  function PrincipalAxes(xs: seq<real>, ys: seq<real>, weights: Option<seq<real>>, eig: Mat2 -> Eigen)
    : (r: Result<Eigen, PcaError>)
    ensures var w := EffectiveWeights(xs, weights);
      r.Success? <==> |xs| == |w| && |ys| == |w| && Sum(w) != 0.0
    ensures var w := EffectiveWeights(xs, weights);
      (|xs| != |w| || (Sum(w) != 0.0 && |ys| != |w|)) ==> r == Failure(ShapeMismatch)
    ensures var w := EffectiveWeights(xs, weights);
      |xs| == |w| && Sum(w) == 0.0 ==> r == Failure(ZeroWeightSum)
    ensures r.Success? ==> r.value.values[0] >= r.value.values[1]
    ensures r.Success? ==> var w := EffectiveWeights(xs, weights);
      multiset(r.value.values) == multiset(eig(Covariance(xs, ys, w)).values)
  {
    var w := EffectiveWeights(xs, weights);
    if |xs| != |w| then Failure(ShapeMismatch)
    else if Sum(w) == 0.0 then Failure(ZeroWeightSum)
    else if |ys| != |w| then Failure(ShapeMismatch)
    else Success(SortDescending(eig(Covariance(xs, ys, w))))
  }

  /**
   * The loop of GetEign: a 2x2 array of zeros to which every point adds its
   * share `w[k] * a * b / Σw` of each entry.
   */
  method AccumulateCovariance(cx: seq<real>, cy: seq<real>, w: seq<real>) returns (covar: Mat2)
    requires |cx| == |w| && |cy| == |w| && Sum(w) != 0.0
    ensures covar == CenteredCovariance(cx, cy, w)
    ensures covar[0][1] == covar[1][0]
  {
    var c := new real[2, 2]((_, _) => 0.0);
    var total := Sum(w);
    for k := 0 to |w|
      invariant c[0, 0] == Accumulated(w, cx, cx, total, k)
      invariant c[0, 1] == Accumulated(w, cx, cy, total, k)
      invariant c[1, 0] == Accumulated(w, cy, cx, total, k)
      invariant c[1, 1] == Accumulated(w, cy, cy, total, k)
    {
      assert Accumulated(w, cx, cx, total, k + 1) == c[0, 0] + w[k] * cx[k] * cx[k] / total;
      assert Accumulated(w, cx, cy, total, k + 1) == c[0, 1] + w[k] * cx[k] * cy[k] / total;
      assert Accumulated(w, cy, cx, total, k + 1) == c[1, 0] + w[k] * cy[k] * cx[k] / total;
      assert Accumulated(w, cy, cy, total, k + 1) == c[1, 1] + w[k] * cy[k] * cy[k] / total;
      c[0, 0], c[0, 1], c[1, 0], c[1, 1] :=
        c[0, 0] + w[k] * cx[k] * cx[k] / total,
        c[0, 1] + w[k] * cx[k] * cy[k] / total,
        c[1, 0] + w[k] * cy[k] * cx[k] / total,
        c[1, 1] + w[k] * cy[k] * cy[k] / total;
    }
    covar := [[c[0, 0], c[0, 1]], [c[1, 0], c[1, 1]]];
    AccumulatedSymmetric(w, cx, cy, total, |w|);
  }

  /** GetEign: default weights, centring, covariance, eigen-solver, descending reorder. */
  method GetEign(xs: seq<real>, ys: seq<real>, weights: Option<seq<real>>, eig: Mat2 -> Eigen)
    returns (r: Result<Eigen, PcaError>)
    ensures r == PrincipalAxes(xs, ys, weights, eig)
    ensures weights.None? ==> r == PrincipalAxes(xs, ys, Some(Uniform(|xs|, 1.0)), eig)
    ensures r.Success? ==> r.value.values[0] >= r.value.values[1]
  {
    var w := EffectiveWeights(xs, weights);
    if |xs| != |w| {
      return Failure(ShapeMismatch);
    }
    if Sum(w) == 0.0 {
      return Failure(ZeroWeightSum);
    }
    var cx := Centered(xs, w);
    if |ys| != |w| {
      return Failure(ShapeMismatch);
    }
    var cy := Centered(ys, w);
    var covar := AccumulateCovariance(cx, cy, w);
    var e := eig(covar);
    r := Success(SortDescending(e));
  }

  // ---------------------------------------------------------------------
  // Properties of the covariance matrix

  lemma {:induction false} AccumulatedSymmetric(w: seq<real>, a: seq<real>, b: seq<real>, total: real, k: nat)
    requires |a| == |w| && |b| == |w| && k <= |w| && total != 0.0
    ensures Accumulated(w, a, b, total, k) == Accumulated(w, b, a, total, k)
  {
    if k > 0 {
      AccumulatedSymmetric(w, a, b, total, k - 1);
    }
  }

  /** The running total is the weighted sum of the products, divided by the total. */
  lemma {:induction false} AccumulatedIsQuotient(w: seq<real>, a: seq<real>, b: seq<real>, total: real, k: nat)
    requires |a| == |w| && |b| == |w| && k <= |w| && total != 0.0
    ensures Accumulated(w, a, b, total, k) == WeightedSum(Products(a, b)[..k], w[..k]) / total
  {
    if k > 0 {
      AccumulatedIsQuotient(w, a, b, total, k - 1);
      var p := Products(a, b);
      assert w[..k][..k - 1] == w[..k - 1];
      assert p[..k][..k - 1] == p[..k - 1];
      var before := WeightedSum(p[..k - 1], w[..k - 1]);
      assert WeightedSum(p[..k], w[..k]) == before + w[k - 1] * p[k - 1];
      assert w[k - 1] * a[k - 1] * b[k - 1] == w[k - 1] * p[k - 1];
    }
  }

  /**
   * Each entry of the matrix is the weighted average of the products of the
   * centred coordinates; on the diagonal, of their squares.
   */
  lemma {:induction false} CovarianceIsWeightedAverage(xs: seq<real>, ys: seq<real>, w: seq<real>)
    requires |xs| == |w| && |ys| == |w| && Sum(w) != 0.0
    ensures var cx, cy := Centered(xs, w), Centered(ys, w);
      && Covariance(xs, ys, w)[0][0] == WeightedAverage(Products(cx, cx), w)
      && Covariance(xs, ys, w)[0][1] == WeightedAverage(Products(cx, cy), w)
      && Covariance(xs, ys, w)[1][1] == WeightedAverage(Products(cy, cy), w)
  {
    var cx, cy := Centered(xs, w), Centered(ys, w);
    var n := |w|;
    assert w[..n] == w;
    assert Products(cx, cx)[..n] == Products(cx, cx);
    assert Products(cx, cy)[..n] == Products(cx, cy);
    assert Products(cy, cy)[..n] == Products(cy, cy);
    AccumulatedIsQuotient(w, cx, cx, Sum(w), n);
    AccumulatedIsQuotient(w, cx, cy, Sum(w), n);
    AccumulatedIsQuotient(w, cy, cy, Sum(w), n);
  }

  lemma {:induction false} AccumulatedSquaresNonNegative(w: seq<real>, a: seq<real>, total: real, k: nat)
    requires |a| == |w| && k <= |w| && total > 0.0
    requires forall i :: 0 <= i < |w| ==> w[i] >= 0.0
    ensures Accumulated(w, a, a, total, k) >= 0.0
  {
    if k > 0 {
      AccumulatedSquaresNonNegative(w, a, total, k - 1);
      var i := k - 1;
      assert a[i] * a[i] >= 0.0;
      assert w[i] * a[i] * a[i] == w[i] * (a[i] * a[i]);
      assert w[i] * a[i] * a[i] >= 0.0;
    }
  }

  /** With non-negative weights of positive sum, the variances on the diagonal are non-negative. */
  lemma {:induction false} CovarianceDiagonalNonNegative(xs: seq<real>, ys: seq<real>, w: seq<real>)
    requires |xs| == |w| && |ys| == |w| && Sum(w) > 0.0
    requires forall i :: 0 <= i < |w| ==> w[i] >= 0.0
    ensures Covariance(xs, ys, w)[0][0] >= 0.0 && Covariance(xs, ys, w)[1][1] >= 0.0
  {
    AccumulatedSquaresNonNegative(w, Centered(xs, w), Sum(w), |w|);
    AccumulatedSquaresNonNegative(w, Centered(ys, w), Sum(w), |w|);
  }

  /** Translating every coordinate by `d` does not move the centred coordinates. */
  lemma {:induction false} CenteredTranslationInvariant(a: seq<real>, b: seq<real>, w: seq<real>, d: real)
    requires |a| == |w| && |b| == |w| && Sum(w) != 0.0
    requires forall i :: 0 <= i < |a| ==> b[i] == a[i] + d
    ensures Centered(b, w) == Centered(a, w)
  {
    WeightedAverageShifted(a, b, w, d);
    var ma, mb := WeightedAverage(a, w), WeightedAverage(b, w);
    var ca, cb := Centered(a, w), Centered(b, w);
    forall i | 0 <= i < |a|
      ensures cb[i] == ca[i]
    {
      assert cb[i] == b[i] - mb && ca[i] == a[i] - ma;
    }
  }

  /** Translating every point by the same vector leaves the covariance matrix unchanged. */
  lemma {:induction false} CovarianceTranslationInvariant(
    xs: seq<real>, ys: seq<real>, w: seq<real>, xs': seq<real>, ys': seq<real>, dx: real, dy: real)
    requires |xs| == |w| && |ys| == |w| && |xs'| == |w| && |ys'| == |w| && Sum(w) != 0.0
    requires forall i :: 0 <= i < |w| ==> xs'[i] == xs[i] + dx && ys'[i] == ys[i] + dy
    ensures Covariance(xs', ys', w) == Covariance(xs, ys, w)
  {
    CenteredTranslationInvariant(xs, xs', w, dx);
    CenteredTranslationInvariant(ys, ys', w, dy);
  }

  /** Scaling every weight and the divisor by the same `c != 0` leaves each running total unchanged. */
  lemma {:induction false} AccumulatedScaleInvariant(
    w: seq<real>, v: seq<real>, a: seq<real>, b: seq<real>, total: real, scaledTotal: real, c: real, k: nat)
    requires |a| == |w| && |b| == |w| && |v| == |w| && k <= |w| && total != 0.0 && c != 0.0
    requires forall i :: 0 <= i < |w| ==> v[i] == c * w[i]
    requires scaledTotal == c * total
    ensures scaledTotal != 0.0
    ensures Accumulated(v, a, b, scaledTotal, k) == Accumulated(w, a, b, total, k)
  {
    CancelFactor(c, total, total, scaledTotal, scaledTotal);
    if k > 0 {
      AccumulatedScaleInvariant(w, v, a, b, total, scaledTotal, c, k - 1);
      var i := k - 1;
      var term := w[i] * a[i] * b[i];
      var scaled := v[i] * a[i] * b[i];
      assert scaled == c * term;
      CancelFactor(c, term, total, scaled, scaledTotal);
    }
  }

  /** Scaling the weights by `c != 0` leaves the covariance of already-centred columns unchanged. */
  lemma {:induction false} CenteredCovarianceWeightScaleInvariant(
    cx: seq<real>, cy: seq<real>, w: seq<real>, v: seq<real>, c: real)
    requires |cx| == |w| && |cy| == |w| && |v| == |w| && Sum(w) != 0.0 && c != 0.0
    requires forall i :: 0 <= i < |w| ==> v[i] == c * w[i]
    requires Sum(v) == c * Sum(w)
    ensures Sum(v) != 0.0
    ensures CenteredCovariance(cx, cy, v) == CenteredCovariance(cx, cy, w)
  {
    var n := |w|;
    AccumulatedScaleInvariant(w, v, cx, cx, Sum(w), Sum(v), c, n);
    AccumulatedScaleInvariant(w, v, cx, cy, Sum(w), Sum(v), c, n);
    AccumulatedScaleInvariant(w, v, cy, cx, Sum(w), Sum(v), c, n);
    AccumulatedScaleInvariant(w, v, cy, cy, Sum(w), Sum(v), c, n);
  }

  /** Scaling the weights by `c != 0` leaves the weighted mean, hence the centred column, unchanged. */
  lemma {:induction false} CenteredWeightScaleInvariant(a: seq<real>, w: seq<real>, v: seq<real>, c: real)
    requires |a| == |w| && |v| == |w| && Sum(w) != 0.0 && c != 0.0
    requires forall i :: 0 <= i < |w| ==> v[i] == c * w[i]
    ensures Sum(v) != 0.0
    ensures Centered(a, v) == Centered(a, w)
  {
    WeightedAverageScaleInvariant(a, w, v, c);
    SumScaled(w, v, c);
  }

  /** Multiplying every weight by the same nonzero constant leaves the covariance matrix unchanged. */
  lemma {:induction false} CovarianceWeightScaleInvariant(xs: seq<real>, ys: seq<real>, w: seq<real>, v: seq<real>, c: real)
    requires |xs| == |w| && |ys| == |w| && |v| == |w| && Sum(w) != 0.0 && c != 0.0
    requires forall i :: 0 <= i < |w| ==> v[i] == c * w[i]
    ensures Sum(v) != 0.0
    ensures Covariance(xs, ys, v) == Covariance(xs, ys, w)
  {
    SumScaled(w, v, c);
    CenteredWeightScaleInvariant(xs, w, v, c);
    CenteredWeightScaleInvariant(ys, w, v, c);
    CenteredCovarianceWeightScaleInvariant(Centered(xs, w), Centered(ys, w), w, v, c);
  }

  /** Two weight vectors that pass the same checks and give the same covariance give the same GetEign result. */
  lemma {:induction false} AxesAgree(xs: seq<real>, ys: seq<real>, w: seq<real>, v: seq<real>, eig: Mat2 -> Eigen)
    requires |w| == |xs| && |v| == |xs|
    requires Sum(w) == 0.0 <==> Sum(v) == 0.0
    requires Sum(w) != 0.0 && |ys| == |xs| ==> Covariance(xs, ys, w) == Covariance(xs, ys, v)
    ensures PrincipalAxes(xs, ys, Some(w), eig) == PrincipalAxes(xs, ys, Some(v), eig)
  {
  }

  /**
   * Equal weights `c != 0` give exactly what GetEign gives when the weights are
   * omitted, for every input and every eigen-solver.
   */
  lemma {:induction false} UniformWeightsMatchOmitted(xs: seq<real>, ys: seq<real>, c: real, eig: Mat2 -> Eigen)
    requires c != 0.0
    ensures PrincipalAxes(xs, ys, Some(Uniform(|xs|, c)), eig) == PrincipalAxes(xs, ys, None, eig)
  {
    var ones, v := Uniform(|xs|, 1.0), Uniform(|xs|, c);
    WeightedSumConstantWeights(ones, ones, 1.0);
    SumScaled(ones, v, c);
    if |xs| > 0 && |ys| == |xs| {
      CovarianceWeightScaleInvariant(xs, ys, ones, v, c);
    }
    AxesAgree(xs, ys, v, ones, eig);
    assert EffectiveWeights(xs, None) == ones;
  }

  /** With the weights omitted, GetEign fails exactly on empty input or on coordinate arrays of different lengths. */
  lemma {:induction false} OmittedWeightsFailOnlyOnShape(xs: seq<real>, ys: seq<real>, eig: Mat2 -> Eigen)
    ensures PrincipalAxes(xs, ys, None, eig).Failure? <==> |xs| == 0 || |ys| != |xs|
  {
    var ones := Uniform(|xs|, 1.0);
    WeightedSumConstantWeights(ones, ones, 1.0);
  }

  // ---------------------------------------------------------------------
  // The descending reorder

  /** Already strictly descending eigenvalues are left where they are. */
  lemma {:induction false} SortDescendingKeepsDescending(e: Eigen)
    requires e.values[0] > e.values[1]
    ensures SortDescending(e) == e
  {
  }

  /** Column `k` of a matrix. */
  function Column(m: Mat2, k: Index2): Vec2
  {
    [m[0][k], m[1][k]]
  }

  /** The matrix-vector product `m @ v`. */
  function Apply(m: Mat2, v: Vec2): Vec2
  {
    [m[0][0] * v[0] + m[0][1] * v[1], m[1][0] * v[0] + m[1][1] * v[1]]
  }

  predicate IsEigenvector(m: Mat2, lambda: real, v: Vec2)
  {
    Apply(m, v) == [lambda * v[0], lambda * v[1]]
  }

  /** The solver's convention: column `k` of `vectors` is an eigenvector for `values[k]`. */
  predicate Decomposes(m: Mat2, e: Eigen)
  {
    IsEigenvector(m, e.values[0], Column(e.vectors, 0)) && IsEigenvector(m, e.values[1], Column(e.vectors, 1))
  }

  /** `m[:, p]`: the columns of `m` in the order `p`. */
  function PermuteColumns(m: Mat2, p: Order): Mat2
  {
    [Permute(m[0], p), Permute(m[1], p)]
  }

  /** The reorder the eigen-solver's column convention calls for: `EignVec[:, order]`. */
  function SortEigenpairs(e: Eigen): (r: Eigen)
    ensures r.values[0] >= r.values[1]
    ensures r.values == SortDescending(e).values
  {
    var order := DescendingOrder(e.values);
    Eigen(Permute(e.values, order), PermuteColumns(e.vectors, order))
  }

  /** Re-indexing the columns keeps every eigenvalue with its own eigenvector. */
  lemma {:induction false} SortEigenpairsKeepsDecomposition(m: Mat2, e: Eigen)
    requires Decomposes(m, e)
    ensures Decomposes(m, SortEigenpairs(e))
  {
    var order := DescendingOrder(e.values);
    var r := SortEigenpairs(e);
    assert Column(r.vectors, 0) == Column(e.vectors, order[0]);
    assert Column(r.vectors, 1) == Column(e.vectors, order[1]);
  }

  /**
   * Re-indexing the rows, as line 44 does, can separate an eigenvalue from its
   * eigenvector: for this symmetric matrix and a solver output that lists the
   * eigenvalue 1 before 2, the first column returned is not an eigenvector for
   * the first eigenvalue returned.
   */
  lemma {:induction false} RowReorderBreaksDecomposition()
    ensures var m := [[41.0 / 25.0, -12.0 / 25.0], [-12.0 / 25.0, 34.0 / 25.0]];
      var e := Eigen([1.0, 2.0], [[3.0 / 5.0, -4.0 / 5.0], [4.0 / 5.0, 3.0 / 5.0]]);
      && Decomposes(m, e)
      && Decomposes(m, SortEigenpairs(e))
      && !Decomposes(m, SortDescending(e))
  {
    var m: Mat2 := [[41.0 / 25.0, -12.0 / 25.0], [-12.0 / 25.0, 34.0 / 25.0]];
    var e := Eigen([1.0, 2.0], [[3.0 / 5.0, -4.0 / 5.0], [4.0 / 5.0, 3.0 / 5.0]]);
    var r := SortDescending(e);
    assert r.vectors == [[4.0 / 5.0, 3.0 / 5.0], [3.0 / 5.0, -4.0 / 5.0]];
    assert Apply(m, Column(r.vectors, 0))[0] == 128.0 / 125.0;
    SortEigenpairsKeepsDecomposition(m, e);
  }
}
