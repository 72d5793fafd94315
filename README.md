# ALPara alignment parameters in Dafny

This project models `GetAL.py` from ALPara. The file has two functions.

- `GetEign` does a weighted principal-component analysis of a set of 2-D core
  positions. The weights default to ones. The positions are centred on their
  weighted means, and a 2x2 covariance matrix is accumulated point by point.
  An eigen-solver is applied to that matrix. Its eigenvalues and eigenvectors
  are then re-indexed so that the eigenvalues run in descending order.
- `GetAL` computes the alignment parameters of those cores. For every ordered
  pair of distinct cores it appends a row `[Sij/σ_PCA, Sij/σ_WPCA, w_i*w_j]`,
  where `Sij` is the distance between the two cores. `ALuw` is the plain mean
  of the first column. `ALw` is the mean of the second column, weighted by
  the third.

Everything is computed over Dafny's `real`. The model has four modules.

- `Wrappers` (`wrappers.dfy`) holds `Option` and `Result`.
- `Averages` (`averages.dfy`) holds `np.sum` and `np.average` (plain and
  weighted) and their algebra.
- `Pca` (`pca.dfy`) models `GetEign`. The covariance loop is the imperative
  method `AccumulateCovariance` over a 2x2 `array2`. It is proved against the
  function `CenteredCovariance`.
- `Alignment` (`alignment.dfy`) models `GetAL`. The nested loops are the
  methods `CollectRow` (the inner loop) and `CollectRecords` (the outer loop).
  They are proved equal to the function `Records`, which is the table the
  loops build.

The eigen-solver `np.linalg.eig` is the parameter `eig`. The norm
`np.linalg.norm` of a difference vector is the parameter `norm`. The lemmas
that need the norm's meaning assume `IsEuclideanNorm(norm)`: the norm is
non-negative and its square is `dx*dx + dy*dy`.

Each exception the code can raise is a `Failure` value, returned in the
order the code meets it.

- `np.average` raises when the shapes differ (`ShapeMismatch`) and when the
  weights sum to zero (`ZeroWeightSum`).
- `np.stack` raises on coordinate arrays of different lengths.
- Indexing `CoreWeight` past its end raises `IndexError`.
- Taking the first column of the empty table built from fewer than two cores
  raises `IndexError`.

## Model

| member | source | states |
|---|---|---|
| Pca.Centered | GetAL.py:31-32 | the coordinates shifted by their weighted average keep their length and every pairwise difference (one common shift), and have weighted sum zero |
| Pca.PrincipalAxes | GetAL.py:27-45 | GetEign as a function: it succeeds exactly when both coordinate arrays match the weights and the weights do not sum to zero; a length mismatch gives `ShapeMismatch` and matching lengths with zero weight sum give `ZeroWeightSum`; on success the eigenvalues are those of the solver, as the same multiset, in non-increasing order |
| Pca.OmittedWeightsFailOnlyOnShape | GetAL.py:27-32 | with the weights omitted, GetEign fails exactly on empty input or on coordinate arrays of different lengths |
| Pca.AccumulateCovariance | GetAL.py:25-39 | the loop starting from a zero 2x2 array and adding `w*a*b/Σw` for each point yields `CenteredCovariance`, and the result is symmetric |
| Pca.GetEign | GetAL.py:3-47 | the method equals `PrincipalAxes` applied to `EffectiveWeights` (`np.ones_like` when the weights are omitted): errors for mismatched shapes and zero weight sum, otherwise the reordered eigen-solver output; omitted weights equal explicit ones; successful eigenvalues are non-increasing |
| Pca.ArgsortAscending | GetAL.py:44 | `np.argsort` of two values puts the index of the smaller first and keeps index order on a tie |
| Pca.DescendingOrder | GetAL.py:44-45 | the reversed argsort lists the larger eigenvalue first and swaps the indices on a tie |
| Pca.SortDescending | GetAL.py:44-45 | the reorder as written: the eigenvalues come out non-increasing, as a permutation of the input, and the same permutation is applied to the eigenvector matrix; on a tie the two eigenvector rows are swapped |
| Pca.SortDescendingKeepsDescending | GetAL.py:44-45 | strictly descending eigenvalues are left unchanged, vectors included |
| Pca.AccumulatedSymmetric | GetAL.py:35-39 | the running totals for `(a, b)` and `(b, a)` agree at every step |
| Pca.Covariance | GetAL.py:31-39 | the matrix handed to the eigen-solver, built from the coordinates centred on their weighted means; it is symmetric |
| Pca.AccumulatedIsQuotient | GetAL.py:35-39 | after `k` points the running total is the weighted sum of the first `k` products divided by `Σw` |
| Pca.CovarianceIsWeightedAverage | GetAL.py:31-39 | every entry is the weighted average of the products of the centred coordinates, and the diagonal entries are weighted means of squares |
| Pca.AccumulatedSquaresNonNegative | GetAL.py:36-39 | with non-negative weights and a positive total, a running total of weighted squares is non-negative |
| Pca.CovarianceDiagonalNonNegative | GetAL.py:31-39 | with non-negative weights of positive sum, both variances are non-negative |
| Pca.CenteredTranslationInvariant | GetAL.py:31-32 | shifting every coordinate by the same `d` leaves the centred coordinates unchanged |
| Pca.CovarianceTranslationInvariant | GetAL.py:31-39 | translating every point by the same vector leaves the covariance matrix unchanged |
| Pca.AccumulatedScaleInvariant | GetAL.py:35-39 | scaling the weights and `Σw` by the same `c != 0` leaves every running total unchanged |
| Pca.CenteredCovarianceWeightScaleInvariant | GetAL.py:35-39 | scaling the weights by `c != 0` leaves the covariance of centred columns unchanged |
| Pca.CenteredWeightScaleInvariant | GetAL.py:31-32 | scaling the weights by `c != 0` leaves the centred coordinates unchanged |
| Pca.CovarianceWeightScaleInvariant | GetAL.py:27-39 | scaling the weights by `c != 0` keeps `Σw` nonzero and leaves the covariance matrix unchanged |
| Pca.AxesAgree | GetAL.py:27-45 | two weight arrays of the input's length that are both zero-sum or both not, and give the same covariance matrix, give the same GetEign result |
| Pca.UniformWeightsMatchOmitted | GetAL.py:27-45 | equal weights `c != 0` give exactly the result of omitting the weights, for every input and every eigen-solver, errors included |
| Pca.SortEigenpairs | GetAL.py:44-45 | the corrected reorder, which permutes columns: the same non-increasing eigenvalues as the code's reorder |
| Pca.SortEigenpairsKeepsDecomposition | GetAL.py:42-45 | when column `k` of the solver's output is an eigenvector for eigenvalue `k`, this still holds after the corrected reorder |
| Pca.RowReorderBreaksDecomposition | GetAL.py:42-44 | for a concrete symmetric matrix and solver output, the corrected reorder keeps the eigenpairs and the code's row reorder breaks them |
| Averages.Mean | GetAL.py:88 | `np.average` without weights: the mean times the count is the sum, and a constant column averages to its value |
| Averages.WeightedAverage | GetAL.py:31-32 | `np.average` with weights: the average times the weight sum is the weighted sum, and constant values average to that value whatever the weights |
| Averages.WeightedSumOfConstant | GetAL.py:31-32 | weighting values that all equal `c` gives `c` times the weight sum |
| Averages.SumOfConstant | GetAL.py:88 | a column whose entries all equal `c` sums to `c` times its length |
| Averages.WeightedAverageShifted | GetAL.py:31-32 | adding `d` to every value adds `d` to the weighted average |
| Averages.WeightedSumShifted | GetAL.py:31-32 | adding `c` to every value adds `c*Σw` to the weighted sum |
| Averages.WeightedSumScaledWeights | GetAL.py:31-32 | scaling the weights by `c` scales the weighted sum by `c` |
| Averages.SumScaled | GetAL.py:36-39 | scaling every entry by `c` scales the sum by `c` |
| Averages.WeightedSumConstantWeights | GetAL.py:27-28 | with every weight equal to `c`, the weighted sum is `c` times the plain sum and `Σw` is `c*n` |
| Averages.SumNonNegative | GetAL.py:88 | a sum of non-negative entries is non-negative |
| Averages.MeanNonNegative | GetAL.py:88 | the mean of non-empty non-negative entries is non-negative |
| Averages.WeightedAverageOfEqualWeights | GetAL.py:89 | with equal nonzero weights, the weighted average is the plain mean |
| Averages.WeightedAverageScaleInvariant | GetAL.py:31-32 | scaling every weight by `c != 0` keeps the weight sum nonzero and the weighted average unchanged |
| Averages.ScaledSumZero | GetAL.py:89 | scaling by `c != 0` keeps the sum zero exactly when it was zero |
| Averages.WeightedAverageTwiceScaled | GetAL.py:89 | weights scaled twice by `c != 0`, as `w_i*w_j` is, leave the weighted average unchanged |
| Alignment.RowPairsAt | GetAL.py:78-79 | row `i` of the inner loop has `n-1` pairs (`j` when `i >= j`), and its `k`-th pair is `(i, k)` below the diagonal and `(i, k+1)` after it |
| Alignment.PairsPrefixLength | GetAL.py:77-79 | the first `i` rows of the outer loop visit `i*(n-1)` pairs |
| Alignment.PairsPrefixAt | GetAL.py:77-79 | the pair `(a, b)` with `a < i` sits at `PairIndex(n, a, b)` among the first `i` rows |
| Alignment.OrderedPairsAt | GetAL.py:77-79 | every ordered pair of distinct cores is visited, at index `a*(n-1) + b` with the diagonal skipped |
| Alignment.PairIndexRowMajor | GetAL.py:77-78 | the pairs are visited in row-major order: a lexicographically smaller pair comes earlier |
| Alignment.RowRecordsLength | GetAL.py:78-84 | the inner loop appends one row per visited pair |
| Alignment.RowRecordsAt | GetAL.py:78-84 | the `k`-th row appended for core `i` is the row of the `k`-th pair of that row, whose second index is a core other than `i` |
| Alignment.RecordsBeforeLength | GetAL.py:77-84 | the first `i` cores contribute one row per pair they visit |
| Alignment.RecordsBeforeAt | GetAL.py:77-84 | the `k`-th row after `i` cores is the row of the `k`-th pair visited, whose indices are distinct cores |
| Alignment.PairRecord | GetAL.py:80-84 | the row for the pair `(i, j)`: undoing either scaling recovers the distance `norm(Pos_i - Pos_j)`, and one `σ` for both gives equal columns |
| Alignment.Parameters | GetAL.py:86-89 | an empty table raises the empty-table error and a zero sum of weight products raises the zero-sum error, and only these two fail; otherwise `ALuw` times the row count is the sum of column 0, and `ALw` times the weight sum is the weighted sum of column 1 |
| Alignment.Records | GetAL.py:74-84 | the finished table has one row per ordered pair of distinct cores |
| Alignment.RecordsAt | GetAL.py:77-84 | row `k` of the table is the row of the `k`-th ordered pair, whose indices are distinct and have weights |
| Alignment.RecordCount | GetAL.py:77-84 | `N` cores give `N*(N-1)` rows |
| Alignment.RecordAt | GetAL.py:80-84 | the row at `PairIndex(n, a, b)` holds `norm(pos_a - pos_b)/σ_PCA`, `norm(pos_a - pos_b)/σ_WPCA` and `w_a*w_b` |
| Alignment.CollectRow | GetAL.py:78-84 | the inner loop either appends exactly row `i` of the table, or raises the weight index error, which happens only with two or more cores and too few weights |
| Alignment.CollectRecords | GetAL.py:74-84 | the nested loops raise the weight index error exactly when there are two or more cores and fewer weights than cores; otherwise they build exactly `Records` |
| Alignment.GetAL | GetAL.py:49-91 | mismatched coordinate arrays raise at the stack, too few weights raise at the index, fewer than two cores raise at the empty table, and otherwise the result is `Parameters(Records(..))` |
| Alignment.NormOfNegation | GetAL.py:80 | the Euclidean norm of `Posj - Posi` equals that of `Posi - Posj` |
| Alignment.RecordsSymmetric | GetAL.py:77-84 | with a Euclidean norm, the rows for `(i, j)` and `(j, i)` are equal |
| Alignment.UnweightedNonNegative | GetAL.py:80-88 | with a Euclidean norm and `σ_PCA > 0`, every entry of column 0 is non-negative, and so is `ALuw` whenever it is returned |
| Alignment.ConstantProducts | GetAL.py:83 | with every weight equal to `c`, every weight product is `c*c` |
| Alignment.EqualWeightsGiveMean | GetAL.py:83-89 | with two or more cores and equal nonzero weights, GetAL succeeds and `ALw` is the plain mean of column 1 |
| Alignment.DegenerateInputsRaise | GetAL.py:86-89 | fewer than two cores raise on the empty table; two or more cores with all-zero weights raise on the zero weight sum |
| Alignment.EqualWeightsAndScalesAgree | GetAL.py:81-89 | with equal nonzero weights and the same σ for both columns, `ALw == ALuw` |
| Alignment.RecordsTranslationInvariant | GetAL.py:75-84 | moving every core by the same vector leaves the whole table unchanged |
| Alignment.RecordsOfScaledWeights | GetAL.py:83 | scaling the weights by `c` leaves columns 0 and 1 alone and scales column 2 by `c` twice |
| Alignment.ScaledRecordAt | GetAL.py:83 | row by row: scaled weights give the same distances and a weight product scaled by `c` twice |
| Alignment.ParametersScaleInvariant | GetAL.py:86-89 | a table whose third column is scaled by `c != 0` twice yields the same parameters and the same errors |
| Alignment.WeightScaleInvariant | GetAL.py:83-89 | multiplying every weight by `c != 0` leaves `ALuw`, `ALw` and the zero-sum error unchanged |

## Left out

- `np.linalg.eig` is not modelled. It is the parameter `eig` of `GetEign`, about which nothing is assumed. Complex eigenvalues are out of scope: the solver's output is a pair of reals.
- `np.linalg.norm` is the parameter `norm`. Only the lemmas that need its meaning assume `IsEuclideanNorm(norm)`.
- Floating point is not modelled: all arithmetic is exact over `real`. Rounding, overflow, `inf` and `nan` are out of scope. So is the way the rounding of `Σw` inside the loop can differ from the rounding inside `np.average`.
- Alignment.GetAL: requires both `σ` to be nonzero. In the code, dividing a numpy float by zero yields `inf` or `nan` with a warning, not an exception. `Alignment.CollectRecords` and `Alignment.CollectRow` carry the same precondition.
- The values of `σ_PCA` and `σ_WPCA` come from a caller outside this file, which is not part of this model. The model takes them as inputs.
- numpy's array plumbing is modelled on its results only: `np.stack`, `np.array` and column slicing become sequences and the errors they raise.
- Pca.ArgsortAscending: assumes that `np.argsort` keeps index order when the two eigenvalues are equal. numpy does not promise this: its default sort kind is unstable, and its vectorised sorts leave the order of ties unspecified. On tied eigenvalues the model therefore fixes one of the two possible outputs of line 44-45.
- GetAL returns only the two means. It has no sentinel values for one or two cores and computes no standard errors, so neither is modelled.

## Findings

| source | as written | input that shows it | evidently intended | confidence | as-written member | corrected member |
|---|---|---|---|---|---|---|
| GetAL.py:44 | `EignVec[order]` re-indexes the ROWS of the eigenvector matrix. `np.linalg.eig` returns the eigenvectors as its COLUMNS. | The covariance `[[41/25, -12/25], [-12/25, 34/25]]`, with the solver returning eigenvalues `[1, 2]` and vectors `[[3/5, -4/5], [4/5, 3/5]]`. The row swap makes the first column `(4/5, 3/5)`, which is not an eigenvector for the first eigenvalue 2. | `EignVec[:, order]`: the columns are re-indexed, so each eigenvalue keeps its own eigenvector | not executed | Pca.RowReorderBreaksDecomposition | Pca.SortEigenpairsKeepsDecomposition |

`Pca.GetEign` keeps the reorder as written. Its eigenvalue output is the same under both reorders (`Pca.SortEigenpairs` ensures this). Nothing else in this model reads the eigenvectors.
