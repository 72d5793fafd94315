/**
 * GetAL: the table of scaled pairwise distances and weight products over all
 * ordered pairs of distinct cores, and the two alignment parameters drawn from
 * it (GetAL.py, lines 49-91).
 *
 * The Euclidean norm of a difference vector is a parameter `norm`; the lemmas
 * that need its meaning assume `IsEuclideanNorm(norm)`, which pins it down as
 * the non-negative square root of `dx*dx + dy*dy`.
 */
module Alignment {
  import opened Wrappers
  import opened Averages

  /** One row `[Sij/σ_PCA, Sij/σ_WPCA, w_i*w_j]` of the pair table. */
  datatype Record = Record(scaledPca: real, scaledWpca: real, weightProduct: real)

  /** `(ALuw, ALw)`. */
  datatype AlignmentParameters = AlignmentParameters(unweighted: real, weighted: real)

  /** The exceptions GetAL lets escape from numpy and from indexing the weights. */
  datatype AlignmentError =
    | StackShapeMismatch     // np.stack of coordinate arrays of different lengths
    | WeightIndexOutOfRange  // CoreWeight[i] or CoreWeight[j] past the end
    | EmptyRecordTable       // `[:, 0]` of the empty array built from fewer than two cores
    | ZeroWeightSum          // np.average whose weights sum to zero

  type Pair = (nat, nat)

  /** The 2D Euclidean norm: non-negative, and its square is `dx*dx + dy*dy`. */
  ghost predicate IsEuclideanNorm(norm: (real, real) -> real)
  {
    forall dx, dy :: norm(dx, dy) >= 0.0 && norm(dx, dy) * norm(dx, dy) == dx * dx + dy * dy
  }

  /**
   * The pairs `(i, j')` the inner loop has appended for row `i` once it has
   * looked at the columns `j' < j`: every column except `i` itself.
   */
  function RowPairs(i: nat, j: nat): seq<Pair>
  {
    if j == 0 then []
    else if j - 1 == i then RowPairs(i, j - 1)
    else RowPairs(i, j - 1) + [(i, j - 1)]
  }

  /** Row `i` skips exactly the diagonal column: its `k`-th pair is `(i, k)` before it and `(i, k+1)` after. */
  lemma {:induction false} RowPairsAt(i: nat, j: nat)
    ensures |RowPairs(i, j)| == if i < j then j - 1 else j
    ensures forall k :: 0 <= k < |RowPairs(i, j)| ==> RowPairs(i, j)[k] == (i, if k < i then k else k + 1)
  {
    if j > 0 {
      RowPairsAt(i, j - 1);
    }
  }

  /** The pairs appended by the first `i` rows of the outer loop over `n` cores. */
  function PairsPrefix(n: nat, i: nat): seq<Pair>
    requires i <= n
  {
    if i == 0 then [] else PairsPrefix(n, i - 1) + RowPairs(i - 1, n)
  }

  /** All ordered pairs of distinct indices below `n`, in the order the loops visit them. */
  function OrderedPairs(n: nat): seq<Pair>
  {
    PairsPrefix(n, n)
  }

  /** Each of the first `i` rows contributes `n - 1` pairs. */
  lemma {:induction false} PairsPrefixLength(n: nat, i: nat)
    requires i <= n
    ensures |PairsPrefix(n, i)| == i * (n - 1)
  {
    if i > 0 {
      PairsPrefixLength(n, i - 1);
      RowPairsAt(i - 1, n);
      assert |PairsPrefix(n, i)| == (i - 1) * (n - 1) + (n - 1);
    }
  }

  /** The position of the pair `(a, b)` in row-major order with the diagonal skipped. */
  function PairIndex(n: nat, a: nat, b: nat): nat
    requires a < n && b < n && a != b
  {
    a * (n - 1) + (if b < a then b else b - 1)
  }

  /** GetAL's requirements on its arrays once np.stack has succeeded and no weight index fails. */
  predicate WellShaped(xs: seq<real>, ys: seq<real>, w: seq<real>)
  {
    |ys| == |xs| && (|xs| < 2 || |xs| <= |w|)
  }

  /**
   * The row the loop body appends for the pair `(i, j)`: undoing either scaling
   * recovers the distance `Sij`, so one `σ` for both gives equal columns.
   */
  function PairRecord(
    xs: seq<real>, ys: seq<real>, w: seq<real>, sp: real, sw: real, norm: (real, real) -> real, i: nat, j: nat)
    : (r: Record)
    requires |ys| == |xs| && i < |xs| && j < |xs| && i < |w| && j < |w| && sp != 0.0 && sw != 0.0
    ensures r.scaledPca * sp == norm(xs[i] - xs[j], ys[i] - ys[j])
    ensures r.scaledWpca * sw == norm(xs[i] - xs[j], ys[i] - ys[j])
    ensures sp == sw ==> r.scaledPca == r.scaledWpca
  {
    var s := norm(xs[i] - xs[j], ys[i] - ys[j]);
    Record(s / sp, s / sw, w[i] * w[j])
  }

  /** The rows the inner loop appends for core `i` over the columns `j' < j`, skipping `j' == i`. */
  function RowRecords(
    xs: seq<real>, ys: seq<real>, w: seq<real>, sp: real, sw: real, norm: (real, real) -> real, i: nat, j: nat)
    : seq<Record>
    requires WellShaped(xs, ys, w) && sp != 0.0 && sw != 0.0 && i < |xs| && j <= |xs|
  {
    if j == 0 then []
    else if j - 1 == i then RowRecords(xs, ys, w, sp, sw, norm, i, j - 1)
    else RowRecords(xs, ys, w, sp, sw, norm, i, j - 1) + [PairRecord(xs, ys, w, sp, sw, norm, i, j - 1)]
  }

  /**
   * The rows the outer loop has appended once the first `i` cores are done;
   * finishing even one core needs a weight for every core.
   */
  function RecordsBefore(
    xs: seq<real>, ys: seq<real>, w: seq<real>, sp: real, sw: real, norm: (real, real) -> real, i: nat)
    : seq<Record>
    requires |ys| == |xs| && sp != 0.0 && sw != 0.0 && i <= |xs| && (i == 0 || WellShaped(xs, ys, w))
  {
    if i == 0 then []
    else RecordsBefore(xs, ys, w, sp, sw, norm, i - 1) + RowRecords(xs, ys, w, sp, sw, norm, i - 1, |xs|)
  }

  /** Row `i` holds one record per pair of `RowPairs(i, j)`. */
  lemma {:induction false} RowRecordsLength(
    xs: seq<real>, ys: seq<real>, w: seq<real>, sp: real, sw: real, norm: (real, real) -> real, i: nat, j: nat)
    requires WellShaped(xs, ys, w) && sp != 0.0 && sw != 0.0 && i < |xs| && j <= |xs|
    ensures |RowRecords(xs, ys, w, sp, sw, norm, i, j)| == |RowPairs(i, j)|
  {
    if j > 0 {
      RowRecordsLength(xs, ys, w, sp, sw, norm, i, j - 1);
    }
  }

  /** The `k`-th record of row `i` is the record of the `k`-th pair of that row. */
  lemma {:induction false} RowRecordsAt(
    xs: seq<real>, ys: seq<real>, w: seq<real>, sp: real, sw: real, norm: (real, real) -> real, i: nat, j: nat, k: nat)
    requires WellShaped(xs, ys, w) && sp != 0.0 && sw != 0.0 && i < |xs| && j <= |xs| && k < |RowPairs(i, j)|
    ensures RowPairs(i, j)[k].0 == i && RowPairs(i, j)[k].1 < |xs| && RowPairs(i, j)[k].1 != i
    ensures k < |RowRecords(xs, ys, w, sp, sw, norm, i, j)|
    ensures RowRecords(xs, ys, w, sp, sw, norm, i, j)[k] == PairRecord(xs, ys, w, sp, sw, norm, i, RowPairs(i, j)[k].1)
  {
    RowRecordsLength(xs, ys, w, sp, sw, norm, i, j - 1);
    if j - 1 == i || k < |RowPairs(i, j - 1)| {
      RowRecordsAt(xs, ys, w, sp, sw, norm, i, j - 1, k);
    }
  }

  /** The first `i` rows hold one record per pair of `PairsPrefix(n, i)`. */
  lemma {:induction false} RecordsBeforeLength(
    xs: seq<real>, ys: seq<real>, w: seq<real>, sp: real, sw: real, norm: (real, real) -> real, i: nat)
    requires WellShaped(xs, ys, w) && sp != 0.0 && sw != 0.0 && i <= |xs|
    ensures |RecordsBefore(xs, ys, w, sp, sw, norm, i)| == |PairsPrefix(|xs|, i)|
  {
    if i > 0 {
      var before, row := RecordsBefore(xs, ys, w, sp, sw, norm, i - 1), RowRecords(xs, ys, w, sp, sw, norm, i - 1, |xs|);
      var pairsBefore, pairsRow := PairsPrefix(|xs|, i - 1), RowPairs(i - 1, |xs|);
      RecordsBeforeLength(xs, ys, w, sp, sw, norm, i - 1);
      RowRecordsLength(xs, ys, w, sp, sw, norm, i - 1, |xs|);
      assert RecordsBefore(xs, ys, w, sp, sw, norm, i) == before + row;
      assert PairsPrefix(|xs|, i) == pairsBefore + pairsRow;
      assert |before + row| == |pairsBefore + pairsRow|;
    }
  }

  /** The `k`-th record of the first `i` rows is the record of the `k`-th pair they visit. */
  lemma {:induction false} RecordsBeforeAt(
    xs: seq<real>, ys: seq<real>, w: seq<real>, sp: real, sw: real, norm: (real, real) -> real, i: nat, k: nat)
    requires WellShaped(xs, ys, w) && sp != 0.0 && sw != 0.0 && i <= |xs| && k < |PairsPrefix(|xs|, i)|
    ensures PairsPrefix(|xs|, i)[k].0 < |xs| && PairsPrefix(|xs|, i)[k].1 < |xs|
    ensures PairsPrefix(|xs|, i)[k].0 != PairsPrefix(|xs|, i)[k].1
    ensures k < |RecordsBefore(xs, ys, w, sp, sw, norm, i)|
    ensures RecordsBefore(xs, ys, w, sp, sw, norm, i)[k]
         == PairRecord(xs, ys, w, sp, sw, norm, PairsPrefix(|xs|, i)[k].0, PairsPrefix(|xs|, i)[k].1)
  {
    assert i > 0;
    var pairsBefore, pairsRow := PairsPrefix(|xs|, i - 1), RowPairs(i - 1, |xs|);
    var before, row := RecordsBefore(xs, ys, w, sp, sw, norm, i - 1), RowRecords(xs, ys, w, sp, sw, norm, i - 1, |xs|);
    RecordsBeforeLength(xs, ys, w, sp, sw, norm, i - 1);
    assert PairsPrefix(|xs|, i) == pairsBefore + pairsRow;
    assert RecordsBefore(xs, ys, w, sp, sw, norm, i) == before + row;
    if k < |pairsBefore| {
      RecordsBeforeAt(xs, ys, w, sp, sw, norm, i - 1, k);
      assert (pairsBefore + pairsRow)[k] == pairsBefore[k];
      assert (before + row)[k] == before[k];
    } else {
      var k' := k - |pairsBefore|;
      RowRecordsAt(xs, ys, w, sp, sw, norm, i - 1, |xs|, k');
      assert (pairsBefore + pairsRow)[k] == pairsRow[k'];
      assert (before + row)[k] == row[k'];
    }
  }

  /** CoreSijWiWj after both loops: one row per ordered pair of distinct cores. */
  function Records(xs: seq<real>, ys: seq<real>, w: seq<real>, sp: real, sw: real, norm: (real, real) -> real)
    : (rs: seq<Record>)
    requires WellShaped(xs, ys, w) && sp != 0.0 && sw != 0.0
    ensures |rs| == |OrderedPairs(|xs|)|
  {
    RecordsBeforeLength(xs, ys, w, sp, sw, norm, |xs|);
    RecordsBefore(xs, ys, w, sp, sw, norm, |xs|)
  }

  /** Row `k` of CoreSijWiWj is the row for the `k`-th ordered pair, whose indices are distinct cores. */
  lemma RecordsAt(
    xs: seq<real>, ys: seq<real>, w: seq<real>, sp: real, sw: real, norm: (real, real) -> real, k: nat)
    requires WellShaped(xs, ys, w) && sp != 0.0 && sw != 0.0 && k < |Records(xs, ys, w, sp, sw, norm)|
    ensures OrderedPairs(|xs|)[k].0 < |xs| && OrderedPairs(|xs|)[k].1 < |xs|
    ensures OrderedPairs(|xs|)[k].0 < |w| && OrderedPairs(|xs|)[k].1 < |w|
    ensures OrderedPairs(|xs|)[k].0 != OrderedPairs(|xs|)[k].1
    ensures Records(xs, ys, w, sp, sw, norm)[k]
         == PairRecord(xs, ys, w, sp, sw, norm, OrderedPairs(|xs|)[k].0, OrderedPairs(|xs|)[k].1)
  {
    RecordsBeforeAt(xs, ys, w, sp, sw, norm, |xs|, k);
  }

  /** GetAL builds `N*(N-1)` rows from `N` cores. */
  lemma RecordCount(xs: seq<real>, ys: seq<real>, w: seq<real>, sp: real, sw: real, norm: (real, real) -> real)
    requires WellShaped(xs, ys, w) && sp != 0.0 && sw != 0.0
    ensures |Records(xs, ys, w, sp, sw, norm)| == |xs| * (|xs| - 1)
  {
    PairsPrefixLength(|xs|, |xs|);
  }

  function ScaledPca(rs: seq<Record>): seq<real>
  {
    seq(|rs|, k requires 0 <= k < |rs| => rs[k].scaledPca)
  }

  function ScaledWpca(rs: seq<Record>): seq<real>
  {
    seq(|rs|, k requires 0 <= k < |rs| => rs[k].scaledWpca)
  }

  function WeightProducts(rs: seq<Record>): seq<real>
  {
    seq(|rs|, k requires 0 <= k < |rs| => rs[k].weightProduct)
  }

  /**
   * Lines 86-89: the plain mean of column 0 and the column-2-weighted mean of
   * column 1, with numpy's errors on an empty table and on zero weights.
   */
  function Parameters(rs: seq<Record>): (r: Result<AlignmentParameters, AlignmentError>)
    ensures |rs| == 0 ==> r == Failure(EmptyRecordTable)
    ensures |rs| > 0 && Sum(WeightProducts(rs)) == 0.0 ==> r == Failure(ZeroWeightSum)
    ensures r.Failure? <==> |rs| == 0 || Sum(WeightProducts(rs)) == 0.0
    ensures r.Success? ==> r.value.unweighted * |rs| as real == Sum(ScaledPca(rs))
    ensures r.Success? ==> r.value.weighted * Sum(WeightProducts(rs)) == WeightedSum(ScaledWpca(rs), WeightProducts(rs))
  {
    if |rs| == 0 then Failure(EmptyRecordTable)
    else if Sum(WeightProducts(rs)) == 0.0 then Failure(ZeroWeightSum)
    else Success(AlignmentParameters(Mean(ScaledPca(rs)), WeightedAverage(ScaledWpca(rs), WeightProducts(rs))))
  }

  /** Both `CoreWeight[i]` and `CoreWeight[k]` exist. */
  predicate WeightsCover(w: seq<real>, i: nat, k: nat)
  {
    i < |w| && k < |w|
  }

  /**
   * The inner loop of GetAL for core `i`: for every `j != i`, append the row
   * for `(i, j)` to `records`.  Reading a weight past the end of `w` raises.
   */
  method CollectRow(
    xs: seq<real>, ys: seq<real>, w: seq<real>, sp: real, sw: real, norm: (real, real) -> real,
    i: nat, records: seq<Record>)
    returns (r: Result<seq<Record>, AlignmentError>)
    requires |ys| == |xs| && i < |xs| && sp != 0.0 && sw != 0.0
    ensures r.Failure? ==> r.error == WeightIndexOutOfRange && |xs| >= 2 && |w| < |xs|
    ensures r.Success? ==> WellShaped(xs, ys, w) && r.value == records + RowRecords(xs, ys, w, sp, sw, norm, i, |xs|)
  {
    var n := |xs|;
    var row := records;
    for j := 0 to n
      invariant forall k :: 0 <= k < j && k != i ==> WeightsCover(w, i, k)
      invariant WellShaped(xs, ys, w) ==> row == records + RowRecords(xs, ys, w, sp, sw, norm, i, j)
    {
      if j != i {
        if |w| <= i || |w| <= j {
          return Failure(WeightIndexOutOfRange);
        }
        var s := norm(xs[i] - xs[j], ys[i] - ys[j]);
        var spijPca := s / sp;
        var spijWpca := s / sw;
        var wiwj := w[i] * w[j];
        row := row + [Record(spijPca, spijWpca, wiwj)];
        assert WeightsCover(w, i, j);
        if WellShaped(xs, ys, w) {
          assert RowRecords(xs, ys, w, sp, sw, norm, i, j + 1)
              == RowRecords(xs, ys, w, sp, sw, norm, i, j) + [PairRecord(xs, ys, w, sp, sw, norm, i, j)];
        }
      } else if WellShaped(xs, ys, w) {
        assert RowRecords(xs, ys, w, sp, sw, norm, i, j + 1) == RowRecords(xs, ys, w, sp, sw, norm, i, j);
      }
    }
    if n >= 2 {
      assert WeightsCover(w, i, if i == n - 1 then n - 2 else n - 1);
    }
    r := Success(row);
  }

  /**
   * The nested loops of GetAL: for every `i` and every `j != i`, append the
   * row for `(i, j)`.  Reading a weight past the end of `w` raises, which can
   * happen exactly when there are two or more cores and fewer weights than cores.
   */
  method CollectRecords(
    xs: seq<real>, ys: seq<real>, w: seq<real>, sp: real, sw: real, norm: (real, real) -> real)
    returns (r: Result<seq<Record>, AlignmentError>)
    requires |ys| == |xs| && sp != 0.0 && sw != 0.0
    ensures r.Failure? <==> |xs| >= 2 && |w| < |xs|
    ensures r.Failure? ==> r.error == WeightIndexOutOfRange
    ensures r.Success? ==> WellShaped(xs, ys, w) && r.value == Records(xs, ys, w, sp, sw, norm)
  {
    var n := |xs|;
    var records: seq<Record> := [];
    for i := 0 to n
      invariant i == 0 || WellShaped(xs, ys, w)
      invariant records == RecordsBefore(xs, ys, w, sp, sw, norm, i)
    {
      var row := CollectRow(xs, ys, w, sp, sw, norm, i, records);
      if row.Failure? {
        return row;
      }
      records := row.value;
    }
    r := Success(records);
  }

  /**
   * GetAL: stack the coordinates, build the pair table, then average.  The
   * error cases come in the order the source meets them.
   */
  method GetAL(xs: seq<real>, ys: seq<real>, w: seq<real>, sp: real, sw: real, norm: (real, real) -> real)
    returns (r: Result<AlignmentParameters, AlignmentError>)
    requires sp != 0.0 && sw != 0.0
    ensures |xs| != |ys| ==> r == Failure(StackShapeMismatch)
    ensures |xs| == |ys| && |xs| >= 2 && |w| < |xs| ==> r == Failure(WeightIndexOutOfRange)
    ensures |xs| == |ys| && |xs| < 2 ==> r == Failure(EmptyRecordTable)
    ensures WellShaped(xs, ys, w) ==> r == Parameters(Records(xs, ys, w, sp, sw, norm))
  {
    if |xs| != |ys| {
      return Failure(StackShapeMismatch);
    }
    var table := CollectRecords(xs, ys, w, sp, sw, norm);
    if table.Failure? {
      return Failure(table.error);
    }
    if |xs| < 2 {
      RecordCount(xs, ys, w, sp, sw, norm);
    }
    r := Parameters(table.value);
  }

  /** The pair `(a, b)` sits at `PairIndex(n, a, b)` in the first rows covering `a`. */
  lemma {:induction false} PairsPrefixAt(n: nat, i: nat, a: nat, b: nat)
    requires a < i <= n && b < n && a != b
    ensures PairIndex(n, a, b) < |PairsPrefix(n, i)|
    ensures PairsPrefix(n, i)[PairIndex(n, a, b)] == (a, b)
  {
    var before := PairsPrefix(n, i - 1);
    var row := RowPairs(i - 1, n);
    assert PairsPrefix(n, i) == before + row;
    if a == i - 1 {
      var k := if b < a then b else b - 1;
      RowPairsAt(a, n);
      assert row[k] == (a, b);
      PairsPrefixLength(n, a);
    } else {
      PairsPrefixAt(n, i - 1, a, b);
    }
  }

  /** Every ordered pair of distinct cores appears, at index `a*(n-1) + b` with the diagonal skipped. */
  lemma {:induction false} OrderedPairsAt(n: nat, a: nat, b: nat)
    requires a < n && b < n && a != b
    ensures PairIndex(n, a, b) < |OrderedPairs(n)|
    ensures OrderedPairs(n)[PairIndex(n, a, b)] == (a, b)
  {
    PairsPrefixAt(n, n, a, b);
  }

  /** The table is in row-major order: lexicographically smaller pairs come first. */
  lemma {:induction false} PairIndexRowMajor(n: nat, a: nat, b: nat, a': nat, b': nat)
    requires a < n && b < n && a != b && a' < n && b' < n && a' != b'
    requires a < a' || (a == a' && b < b')
    ensures PairIndex(n, a, b) < PairIndex(n, a', b')
  {
    if a < a' {
      RowStartsIncrease(n - 1, a, a');
      assert PairIndex(n, a, b) < a * (n - 1) + (n - 1);
    }
  }

  lemma {:induction false} RowStartsIncrease(m: nat, a: nat, a': nat)
    requires a < a'
    ensures a * m + m <= a' * m
  {
    if a + 1 < a' {
      RowStartsIncrease(m, a, a' - 1);
    }
    assert a' * m == (a' - 1) * m + m;
  }

  /** A non-negative square root is unique. */
  lemma {:induction false} SquareRootUnique(p: real, q: real)
    requires p >= 0.0 && q >= 0.0 && p * p == q * q
    ensures p == q
  {
    if p < q {
      SquareIncreasing(p, q);
    } else if q < p {
      SquareIncreasing(q, p);
    }
  }

  lemma {:induction false} SquareIncreasing(p: real, q: real)
    requires 0.0 <= p < q
    ensures p * p < q * q
  {
    assert p * (q - p) >= 0.0;
    assert q * (q - p) > 0.0;
  }

  /** `||Posi - Posj|| == ||Posj - Posi||`. */
  lemma {:induction false} NormOfNegation(norm: (real, real) -> real, dx: real, dy: real)
    requires IsEuclideanNorm(norm)
    ensures norm(-dx, -dy) == norm(dx, dy)
  {
    assert (-dx) * (-dx) + (-dy) * (-dy) == dx * dx + dy * dy;
    SquareRootUnique(norm(-dx, -dy), norm(dx, dy));
  }

  /** The rows for `(i, j)` and `(j, i)` are equal: every unordered pair is counted twice alike. */
  lemma {:induction false} RecordsSymmetric(
    xs: seq<real>, ys: seq<real>, w: seq<real>, sp: real, sw: real, norm: (real, real) -> real, a: nat, b: nat)
    requires WellShaped(xs, ys, w) && sp != 0.0 && sw != 0.0 && IsEuclideanNorm(norm)
    requires a < |xs| && b < |xs| && a != b
    ensures PairIndex(|xs|, a, b) < |Records(xs, ys, w, sp, sw, norm)|
    ensures PairIndex(|xs|, b, a) < |Records(xs, ys, w, sp, sw, norm)|
    ensures Records(xs, ys, w, sp, sw, norm)[PairIndex(|xs|, a, b)]
         == Records(xs, ys, w, sp, sw, norm)[PairIndex(|xs|, b, a)]
  {
    var n := |xs|;
    OrderedPairsAt(n, a, b);
    OrderedPairsAt(n, b, a);
    RecordsAt(xs, ys, w, sp, sw, norm, PairIndex(n, a, b));
    RecordsAt(xs, ys, w, sp, sw, norm, PairIndex(n, b, a));
    NormOfNegation(norm, xs[a] - xs[b], ys[a] - ys[b]);
    assert -(xs[a] - xs[b]) == xs[b] - xs[a] && -(ys[a] - ys[b]) == ys[b] - ys[a];
    assert w[a] * w[b] == w[b] * w[a];
  }

  /** Each row's entry is the scaled distance of its pair (the body of both loops). */
  lemma {:induction false} RecordAt(
    xs: seq<real>, ys: seq<real>, w: seq<real>, sp: real, sw: real, norm: (real, real) -> real, a: nat, b: nat)
    requires WellShaped(xs, ys, w) && sp != 0.0 && sw != 0.0
    requires a < |xs| && b < |xs| && a != b
    ensures PairIndex(|xs|, a, b) < |Records(xs, ys, w, sp, sw, norm)|
    ensures Records(xs, ys, w, sp, sw, norm)[PairIndex(|xs|, a, b)]
         == Record(norm(xs[a] - xs[b], ys[a] - ys[b]) / sp,
                   norm(xs[a] - xs[b], ys[a] - ys[b]) / sw,
                   w[a] * w[b])
  {
    OrderedPairsAt(|xs|, a, b);
    RecordsAt(xs, ys, w, sp, sw, norm, PairIndex(|xs|, a, b));
  }

  /** With a positive σ_PCA, every scaled distance and hence ALuw is non-negative. */
  lemma {:induction false} UnweightedNonNegative(
    xs: seq<real>, ys: seq<real>, w: seq<real>, sp: real, sw: real, norm: (real, real) -> real)
    requires WellShaped(xs, ys, w) && sp > 0.0 && sw != 0.0 && IsEuclideanNorm(norm)
    ensures forall k :: 0 <= k < |Records(xs, ys, w, sp, sw, norm)| ==>
      Records(xs, ys, w, sp, sw, norm)[k].scaledPca >= 0.0
    ensures Parameters(Records(xs, ys, w, sp, sw, norm)).Success? ==>
      Parameters(Records(xs, ys, w, sp, sw, norm)).value.unweighted >= 0.0
  {
    var rs := Records(xs, ys, w, sp, sw, norm);
    var col := ScaledPca(rs);
    forall k | 0 <= k < |rs|
      ensures rs[k].scaledPca >= 0.0
    {
      RecordsAt(xs, ys, w, sp, sw, norm, k);
      var p := OrderedPairs(|xs|)[k];
      var s := norm(xs[p.0] - xs[p.1], ys[p.0] - ys[p.1]);
      assert rs[k].scaledPca == s / sp;
    }
    if |rs| > 0 {
      MeanNonNegative(col);
    }
  }

  /** Equal nonzero weights make every `w_i*w_j` equal, so ALw is the plain mean of column 1. */
  lemma {:induction false} EqualWeightsGiveMean(
    xs: seq<real>, ys: seq<real>, w: seq<real>, sp: real, sw: real, norm: (real, real) -> real, c: real)
    requires WellShaped(xs, ys, w) && sp != 0.0 && sw != 0.0 && |xs| >= 2 && c != 0.0
    requires forall i :: 0 <= i < |w| ==> w[i] == c
    ensures Parameters(Records(xs, ys, w, sp, sw, norm)).Success?
    ensures Parameters(Records(xs, ys, w, sp, sw, norm)).value.weighted
         == Mean(ScaledWpca(Records(xs, ys, w, sp, sw, norm)))
  {
    var rs := Records(xs, ys, w, sp, sw, norm);
    var column, products := ScaledWpca(rs), WeightProducts(rs);
    ConstantProducts(xs, ys, w, sp, sw, norm, c);
    OrderedPairsAt(|xs|, 0, 1);
    // The products are 1 scaled by c twice; scaling the weights leaves the average alone.
    var ones := seq(|products|, k => 1.0);
    var once := seq(|products|, k => c);
    WeightedAverageOfEqualWeights(column, ones, 1.0);
    WeightedAverageScaleInvariant(column, ones, once, c);
    WeightedAverageScaleInvariant(column, once, products, c);
  }

  lemma {:induction false} ConstantProducts(
    xs: seq<real>, ys: seq<real>, w: seq<real>, sp: real, sw: real, norm: (real, real) -> real, c: real)
    requires WellShaped(xs, ys, w) && sp != 0.0 && sw != 0.0
    requires forall i :: 0 <= i < |w| ==> w[i] == c
    ensures forall k :: 0 <= k < |WeightProducts(Records(xs, ys, w, sp, sw, norm))| ==>
      WeightProducts(Records(xs, ys, w, sp, sw, norm))[k] == c * c
  {
    var rs := Records(xs, ys, w, sp, sw, norm);
    forall k | 0 <= k < |rs|
      ensures WeightProducts(rs)[k] == c * c
    {
      RecordsAt(xs, ys, w, sp, sw, norm, k);
      var p := OrderedPairs(|xs|)[k];
      assert WeightProducts(rs)[k] == w[p.0] * w[p.1];
    }
  }

  /**
   * Fewer than two cores leave the table empty, so indexing its first column
   * raises; all-zero weights leave the products summing to zero, so the
   * weighted average raises.
   */
  lemma {:induction false} DegenerateInputsRaise(
    xs: seq<real>, ys: seq<real>, w: seq<real>, sp: real, sw: real, norm: (real, real) -> real)
    requires WellShaped(xs, ys, w) && sp != 0.0 && sw != 0.0
    ensures |xs| < 2 ==> Parameters(Records(xs, ys, w, sp, sw, norm)) == Failure(EmptyRecordTable)
    ensures |xs| >= 2 && (forall i :: 0 <= i < |w| ==> w[i] == 0.0) ==>
      Parameters(Records(xs, ys, w, sp, sw, norm)) == Failure(ZeroWeightSum)
  {
    var rs := Records(xs, ys, w, sp, sw, norm);
    RecordCount(xs, ys, w, sp, sw, norm);
    if |xs| < 2 {
      assert |rs| == 0;
    } else if forall i :: 0 <= i < |w| ==> w[i] == 0.0 {
      OrderedPairsAt(|xs|, 0, 1);
      ConstantProducts(xs, ys, w, sp, sw, norm, 0.0);
      var products := WeightProducts(rs);
      WeightedSumConstantWeights(products, products, 0.0);
    }
  }

  /** With equal weights and the same σ for both columns, ALw and ALuw coincide. */
  lemma {:induction false} EqualWeightsAndScalesAgree(
    xs: seq<real>, ys: seq<real>, w: seq<real>, sigma: real, norm: (real, real) -> real, c: real)
    requires WellShaped(xs, ys, w) && sigma != 0.0 && |xs| >= 2 && c != 0.0
    requires forall i :: 0 <= i < |w| ==> w[i] == c
    ensures Parameters(Records(xs, ys, w, sigma, sigma, norm)).Success?
    ensures Parameters(Records(xs, ys, w, sigma, sigma, norm)).value.weighted
         == Parameters(Records(xs, ys, w, sigma, sigma, norm)).value.unweighted
  {
    var rs := Records(xs, ys, w, sigma, sigma, norm);
    EqualWeightsGiveMean(xs, ys, w, sigma, sigma, norm, c);
    forall k | 0 <= k < |rs|
      ensures rs[k].scaledWpca == rs[k].scaledPca
    {
      RecordsAt(xs, ys, w, sigma, sigma, norm, k);
    }
    assert ScaledWpca(rs) == ScaledPca(rs);
  }

  /** Moving every core by the same vector leaves the pair table unchanged. */
  lemma {:induction false} RecordsTranslationInvariant(
    xs: seq<real>, ys: seq<real>, xs': seq<real>, ys': seq<real>, w: seq<real>,
    sp: real, sw: real, norm: (real, real) -> real, dx: real, dy: real)
    requires WellShaped(xs, ys, w) && |xs'| == |xs| && |ys'| == |ys| && sp != 0.0 && sw != 0.0
    requires forall i :: 0 <= i < |xs| ==> xs'[i] == xs[i] + dx && ys'[i] == ys[i] + dy
    ensures WellShaped(xs', ys', w)
    ensures Records(xs', ys', w, sp, sw, norm) == Records(xs, ys, w, sp, sw, norm)
  {
    var rs, rs' := Records(xs, ys, w, sp, sw, norm), Records(xs', ys', w, sp, sw, norm);
    forall k | 0 <= k < |rs|
      ensures rs'[k] == rs[k]
    {
      RecordsAt(xs, ys, w, sp, sw, norm, k);
      RecordsAt(xs', ys', w, sp, sw, norm, k);
      var p := OrderedPairs(|xs|)[k];
      assert xs'[p.0] - xs'[p.1] == xs[p.0] - xs[p.1];
      assert ys'[p.0] - ys'[p.1] == ys[p.0] - ys[p.1];
    }
  }

  /** Scaling the weights changes only the third column, each entry by `c` twice. */
  lemma {:induction false} RecordsOfScaledWeights(
    xs: seq<real>, ys: seq<real>, w: seq<real>, v: seq<real>, sp: real, sw: real, norm: (real, real) -> real, c: real)
    requires WellShaped(xs, ys, w) && |v| == |w| && sp != 0.0 && sw != 0.0
    requires forall i :: 0 <= i < |w| ==> v[i] == c * w[i]
    ensures WellShaped(xs, ys, v)
    ensures ScaledPca(Records(xs, ys, v, sp, sw, norm)) == ScaledPca(Records(xs, ys, w, sp, sw, norm))
    ensures ScaledWpca(Records(xs, ys, v, sp, sw, norm)) == ScaledWpca(Records(xs, ys, w, sp, sw, norm))
    ensures WeightProducts(Records(xs, ys, v, sp, sw, norm)) == Scale(c, Scale(c, WeightProducts(Records(xs, ys, w, sp, sw, norm))))
  {
    var rs, rs' := Records(xs, ys, w, sp, sw, norm), Records(xs, ys, v, sp, sw, norm);
    var products, twice := WeightProducts(rs), Scale(c, Scale(c, WeightProducts(rs)));
    forall k | 0 <= k < |rs|
      ensures rs'[k] == Record(rs[k].scaledPca, rs[k].scaledWpca, twice[k])
    {
      ScaledRecordAt(xs, ys, w, v, sp, sw, norm, c, k);
      assert twice[k] == c * Scale(c, products)[k];
    }
    assert ScaledPca(rs') == ScaledPca(rs);
    assert ScaledWpca(rs') == ScaledWpca(rs);
    assert WeightProducts(rs') == twice;
  }

  lemma {:induction false} ScaledRecordAt(
    xs: seq<real>, ys: seq<real>, w: seq<real>, v: seq<real>, sp: real, sw: real, norm: (real, real) -> real,
    c: real, k: nat)
    requires WellShaped(xs, ys, w) && |v| == |w| && sp != 0.0 && sw != 0.0
    requires forall i :: 0 <= i < |w| ==> v[i] == c * w[i]
    requires k < |Records(xs, ys, w, sp, sw, norm)|
    ensures k < |Records(xs, ys, v, sp, sw, norm)|
    ensures Records(xs, ys, v, sp, sw, norm)[k]
         == Record(Records(xs, ys, w, sp, sw, norm)[k].scaledPca,
                   Records(xs, ys, w, sp, sw, norm)[k].scaledWpca,
                   c * (c * Records(xs, ys, w, sp, sw, norm)[k].weightProduct))
  {
    RecordsAt(xs, ys, w, sp, sw, norm, k);
    RecordsAt(xs, ys, v, sp, sw, norm, k);
    var p := OrderedPairs(|xs|)[k];
    assert v[p.0] * v[p.1] == (c * w[p.0]) * (c * w[p.1]) == c * (c * (w[p.0] * w[p.1]));
  }

  /**
   * Multiplying every weight by `c != 0` multiplies every `w_i*w_j` by `c*c`,
   * which leaves ALuw, ALw and the zero-sum error unchanged.
   */
  lemma {:induction false} WeightScaleInvariant(
    xs: seq<real>, ys: seq<real>, w: seq<real>, v: seq<real>, sp: real, sw: real, norm: (real, real) -> real, c: real)
    requires WellShaped(xs, ys, w) && |v| == |w| && sp != 0.0 && sw != 0.0 && c != 0.0
    requires forall i :: 0 <= i < |w| ==> v[i] == c * w[i]
    ensures WellShaped(xs, ys, v)
    ensures Parameters(Records(xs, ys, v, sp, sw, norm)) == Parameters(Records(xs, ys, w, sp, sw, norm))
  {
    RecordsOfScaledWeights(xs, ys, w, v, sp, sw, norm, c);
    ParametersScaleInvariant(Records(xs, ys, w, sp, sw, norm), Records(xs, ys, v, sp, sw, norm), c);
  }

  /** A table whose third column is scaled by `c != 0` twice yields the same parameters and errors. */
  lemma {:induction false} ParametersScaleInvariant(rs: seq<Record>, rs': seq<Record>, c: real)
    requires c != 0.0
    requires ScaledPca(rs') == ScaledPca(rs) && ScaledWpca(rs') == ScaledWpca(rs)
    requires WeightProducts(rs') == Scale(c, Scale(c, WeightProducts(rs)))
    ensures Parameters(rs') == Parameters(rs)
  {
    var products := WeightProducts(rs);
    assert |rs'| == |ScaledPca(rs')| == |rs|;
    ScaledSumZero(products, c);
    ScaledSumZero(Scale(c, products), c);
    if Sum(products) != 0.0 {
      WeightedAverageTwiceScaled(ScaledWpca(rs), products, c);
    }
  }
}
