# Word-embedding autocorrelation analysis, modelled in Dafny

This project models the core of a Python tool that treats a book as a
sequence of vectors and measures how similarity decays with distance (lag).
It has two generations of the code, a later one under `scripts/` and an older
one at the top level. Both are modelled:

- **Correlations** (`scripts/correlations.py`, `correlations.py`). The lag
  check and the slicing into an unshifted side `Su = x[0:M]` and a lagged side
  `Sl = x[L:N]`. The Pearson statistic, summed over the dimensions. The cosine
  statistic, averaged over the pairs whose two norms are both positive, on the
  dense and the sparse path and with optional precomputed norms. Arithmetic is
  exact over `real`. `sqrt` is a parameter, and the final Pearson quotient
  `cov / sqrt(var_Su * var_Sl)` is kept as a symbolic triple.
- **Lag schedule** (`calculate_autocorrelation` in both pipelines). The loop
  starts at lag 1 and records lags while `lag < 0.5 * (N - 1)`. The growth
  step `int(np.ceil(lag * 1.1))` is modelled as IEEE-754 double arithmetic:
  the product is rounded to 53 significant bits, ties to even, then rounded
  up. So `50 * 1.1` gives 56 here, not the exact 55.
- **Pipelines** (`scripts/pipeline.py`, `pipeline.py`). These are classes whose
  methods update the fields as the source does: the string dispatch of
  `run_pipeline`, the lag loop appending to `lags` and `autocorrelation_cosine`,
  and the failure containment of `fit_power_law`.
- **Mutual information** (`scripts/mutual_information.py`). The marginal and
  joint `defaultdict(int)` counters, including the key a lookup inserts. Also
  the two probability helpers and the mutual-information sum, with `log2` as a
  parameter.
- **Co-occurrence matrix** (`scripts/coocurrence_matrix.py`). The
  `OrderedDict` vocabulary built in order of first appearance, and an
  `array2<int>` filled in place over sliding windows and `combinations(window, 2)`.
- **Preprocessing and embedding** (`scripts/word_embeddings.py`,
  `word_embeddings.py`). Lowercasing, deleting characters outside `a`-`z` and
  whitespace, `str.split()`, the stop-word and length filter, the embedding
  lookup, the coverage ratio and the loader's suffix dispatch. The stop words
  and the loaded table are parameters.

Python exceptions are values: `Result<T> = Ok(value) | Raise(error)`. NaN is
the `NaN` case of `Stat`. Python dictionaries are insertion-ordered
`Dict(keys, values)` values.

Where the code departs from its evident intent, the model follows the code:

- The lag schedule is non-empty exactly when `N >= 4`. The first lag 1 passes
  `1 < 0.5 * (N - 1)` as soon as `N = 4`.
- No lag repeats. Every double-rounded step exceeds the previous lag
  (`LagSchedule.GrowAdvances`).
- Unknown `source` or `method` strings in `run_pipeline` build a `ValueError`
  but never raise it. The run carries on with the fields as they were.
- `count_joint_tokens` pairs `tokens[i]` with `tokens[i + 1]` whatever the lag.
  The lag only sets how many pairs are counted
  (`MutualInformationEstimator.PairsIgnoreLagOffset`, `PairsOfLagTwo`). The
  stated purpose of the estimator is pairs `L` apart. This is modelled as
  written.
- `fit_power_law` calls the optimizer on any curve. No minimum number of
  points is checked first.
- A negative `window_size` does not give an empty count. Python slicing wraps
  the window end around (`Coocurrence.NegativeWindowWraps`). A window size of
  0 or 1 counts nothing.
- In `scripts/pipeline.py`, `build_matrix(sparse=...)` passes an argument that
  `build_matrix` does not take. The `"cooccurence"` method therefore raises
  `TypeError`.
- With the default `sparse=True` and dense embedding vectors, the sparse path
  calls `.multiply` on a NumPy row. That raises `AttributeError` at the first
  lag (`Pipeline.DefaultSparseFlagFailsOnDenseVectors`).

## Model

| member | source | states |
|---|---|---|
| `Correlations.PrepareData` | scripts/correlations.py:3-17 | raises `ValueError` exactly when `L < 1` or `L >= N`; otherwise `M = N - L`, both sides have `M` rows, `Su[i] = x[i]` and `Sl[i] = x[i + L]` |
| `Correlations.PearsonCorrelation` | scripts/correlations.py:19-41 | raises `ValueError` exactly for a lag outside `[1, N)` and returns a value for every other lag; the lemmas below state what the value is |
| `Correlations.ColumnCovarianceIsMeanCrossDeviation` | scripts/correlations.py:23-31 | each entry `mean(Su * Sl) - mean(Su) * mean(Sl)` of `cov_c` is the mean of the products of the deviations from the two column means |
| `Correlations.CrossDeviationExpand` | scripts/correlations.py:25-31 | the sum of the products of the deviations from any two centres expands into the dot product, the two sums and the centres |
| `Correlations.ColumnVarianceNonNegative` | scripts/correlations.py:25-29 | each entry `mean(Su ** 2) - mean(Su) ** 2` of `var_Su_c` is the mean squared deviation from the column mean, so it is never negative |
| `Correlations.ColumnCauchySchwarz` | scripts/correlations.py:29-31 | in every dimension, `cov_c ** 2 <= var_Su_c * var_Sl_c` |
| `Correlations.DotCauchySchwarz` | scripts/correlations.py:54-60 | the dot product of two rows is bounded by their squared norms: `(u . v) ** 2 <= (u . u) * (v . v)` |
| `Correlations.VarianceSumNonNegative` | scripts/correlations.py:33-34 | the summed variance `np.sum(var_Su_c)` is non-negative |
| `Correlations.PearsonNaNIffZeroVariance` | scripts/correlations.py:33-40 | at a valid lag the statistic is NaN exactly when one summed variance is zero; otherwise both are positive, so the square root is of a positive product |
| `Correlations.CovarianceSumCauchySchwarz` | scripts/correlations.py:33-35 | the summed covariance squared is at most the product of the summed variances |
| `Correlations.PearsonCauchySchwarz` | scripts/correlations.py:19-40 | at a valid lag the statistic is NaN or `cov / sqrt(var_Su * var_Sl)` with `cov ** 2 <= var_Su * var_Sl`, so it lies in `[-1, 1]` |
| `Correlations.ConstantSeriesIsNaN` | scripts/correlations.py:23-38 | if all rows are equal, every per-dimension variance is 0 and the statistic is NaN at every valid lag |
| `Correlations.ShiftedColumn` | scripts/correlations.py:23-31 | shifting a column by a constant changes neither its variance nor its covariance with the original |
| `Correlations.ShiftedSeriesIsPerfectlyCorrelated` | scripts/correlations.py:23-40 | if `Sl` is `Su` plus a constant vector, the summed covariance equals both summed variances: NaN or `v / sqrt(v * v)` with `v > 0` |
| `Common.DotIsSumOfProducts` | scripts/correlations.py:50-60 | the dense dot product (`einsum`, `norm`) equals the sparse sum of the element-wise product |
| `Correlations.Norms` | scripts/correlations.py:50-55 | one norm per row, the square root of that row's squared norm |
| `Correlations.DotProducts` | scripts/correlations.py:57-60 | one dot product per pair, by element-wise product on the sparse path and by `einsum` on the dense one |
| `Correlations.PySlice` | scripts/correlations.py:47-48 | a slice `s[i:j]` holds the entries `s[i], s[i + 1], …` below index `j`, cut at the end of `s` and empty when `i` is past it |
| `Correlations.PairNormsAreRowNorms` | scripts/correlations.py:46-55 | the norms of pair `i` are those of rows `i` and `i + L`: `norms[i]` and `norms[i + L]` when precomputed |
| `Correlations.CosineSpec` | scripts/correlations.py:43-67 | a result exactly for a lag in `[1, N)`, a path that matches the rows and `norms` (when given) at least `N` long; `ValueError` for a lag outside `[1, N)`, and exactly then when `norms` are long enough; `AttributeError` exactly when the sparse path is taken on dense rows; `IndexError` only for `norms` shorter than `N`; no other exception |
| `Correlations.ShortNormsRaise` | scripts/correlations.py:46-48 | `norms` shorter than `N` make the slices `norms[0:M]` and `norms[L:M+L]` `min(len, M)` and `max(0, len - L)` long, and the mask then raises `ValueError` when these do not broadcast and `IndexError` otherwise |
| `Correlations.LongerNormsIgnored` | scripts/correlations.py:46-48 | `norms` longer than `N` give the same result as their first `N` entries |
| `Correlations.MaskedTermsArePairCosines` | scripts/correlations.py:57-65 | the masked quotients are, in order, the row cosines `x[i] . x[i + L] / (norm(x[i]) * norm(x[i + L]))` of the pairs whose two norms are positive |
| `Correlations.CosineSpecValue` | scripts/correlations.py:43-67 | at a valid lag with a matching path, the statistic is the mean of the row cosines `x[i] . x[i + L] / (norm(x[i]) * norm(x[i + L]))` over the `i < N - L` whose two norms are positive, and NaN when there is none |
| `Correlations.MaskedMeanOf` | scripts/correlations.py:63-67 | filling `corr = np.zeros(M)` in place through the mask and averaging the masked entries gives NaN without included pairs, else the mean of their quotients |
| `Correlations.MaskedTermsEmptyIff` | scripts/correlations.py:63-65 | no term enters the mean exactly when no pair has two positive norms |
| `Correlations.CosineNaNIffNoPair` | scripts/correlations.py:62-67 | the cosine statistic is NaN, not 0, exactly when no pair `(i, i + L)` has two positive norms |
| `Correlations.ZeroSeriesIsNaN` | scripts/correlations.py:50-67 | with a square root that maps 0 to 0 and no precomputed norms, an all-zero series gives NaN at every valid lag |
| `Correlations.ConstantSeriesIsOne` | scripts/correlations.py:50-67 | with norms computed by a square root, a series whose rows all equal one non-zero vector gives 1 at every valid lag |
| `Correlations.CosineBounded` | scripts/correlations.py:50-67 | with norms computed by a square root, the statistic at a valid lag is NaN or a number in `[-1, 1]` |
| `Correlations.CosineCorrelation` | scripts/correlations.py:43-67 | the method returns or raises exactly what `CosineSpec` states, for any `norms`, short ones included |
| `Correlations.SparseAndDenseAgree` | scripts/correlations.py:50-60 | for the same rows, the sparse and the dense path give the same result at every lag |
| `LegacyCorrelations.PearsonCorrelation` | correlations.py:3-34 | `ValueError` exactly for a lag outside `[1, N)`, with the lag checked and the series sliced inline |
| `LegacyCorrelations.PearsonAgrees` | correlations.py:3-34 | the older Pearson statistic equals the later one for every input, so the NaN and perfect-correlation lemmas apply to it |
| `LegacyCorrelations.CosineCorrelation` | correlations.py:36-58 | the older cosine statistic is the later dense path without precomputed norms, NaN-on-no-pair included |
| `LegacyCorrelations.DemoSeries` | correlations.py:60-61 | the demonstration input is a 3 by 3 array |
| `LegacyCorrelations.DemoPearsonOfScripts` | scripts/correlations.py:19-40 | at lag 1 on the demonstration input, covariance and both variances sum to 6.75 |
| `LegacyCorrelations.DemoPearsonIsOne` | correlations.py:60-62 | on the demonstration input at lag 1, `Sl = Su + 3`, so the statistic is `6.75 / sqrt(6.75 * 6.75)`, which is 1 in exact arithmetic |
| `LagSchedule.ExactGrow` | scripts/pipeline.py:94 | the exact `ceil(11 * lag / 10)`, the value the double step approximates |
| `LagSchedule.GrowAdvances` | scripts/pipeline.py:94 | the double-rounded step `int(np.ceil(lag * 1.1))` is greater than `lag`, so no lag repeats |
| `LagSchedule.GrowInDoublePrecision` | scripts/pipeline.py:94 | the step matches `ceil(11 * lag / 10)` at 10, and exceeds it by one at 50 and at 170 |
| `LagSchedule.ScheduleStart` | scripts/pipeline.py:86-89 | a lag is recorded exactly when lag 1 passes the guard, and the first lag is 1 |
| `LagSchedule.ScheduleNonEmptyIff` | pipeline.py:38-41 | a lag is recorded exactly when there are at least four vectors |
| `LagSchedule.ScheduleShape` | scripts/pipeline.py:86-94 | the schedule starts at 1, each lag is the step of the one before, every lag is at least 1 with `2 * lag < N - 1`, and the step after the last lag fails the guard |
| `LagSchedule.ScheduleNext` | scripts/pipeline.py:88-94 | the step after the `k`-th lag is the next lag, or fails the guard when the `k`-th lag is the last |
| `LagSchedule.ScheduleIncreasing` | scripts/pipeline.py:88-94 | the lags strictly increase |
| `LagSchedule.ScheduleBelowMax` | scripts/pipeline.py:86-88 | every lag is below `0.5 * (N - 1)` |
| `LagSchedule.ScheduleLagsValid` | scripts/pipeline.py:86-90 | every lag is in `[1, N)`, so the lag check of the correlation functions never fires |
| `Pipeline.RunScheduleShape` | scripts/pipeline.py:85-94 | without an exception, every scheduled lag is recorded with one value each. With one, the lags recorded are a prefix of the schedule, there is one lag more than values, and the last lag is the one that raised. Each value is the statistic of its lag |
| `Pipeline.AutocorrelationShape` | scripts/pipeline.py:85-94 | the same lockstep shape for the cosine statistic over the vectors |
| `Pipeline.AutocorrelationErrors` | scripts/pipeline.py:86-90 | the loop never raises the lag check's `ValueError`; with the sparse flag matching the vectors it records the whole schedule with one value per lag |
| `Pipeline.DefaultSparseFlagFailsOnDenseVectors` | scripts/pipeline.py:88-92 | with `sparse=True` on dense vectors of at least four rows, lag 1 is recorded, no value is, and `AttributeError` escapes |
| `Pipeline.ReadTokens` | scripts/pipeline.py:47-60 | `"PG"` gives the preprocessed download, `"SGPC"` gives the tokens read from disk, and any other source leaves the tokens unchanged, raising nothing |
| `Pipeline.VectorsStep` | scripts/pipeline.py:61-69 | `"embeddings"` gives the embedded tokens and the coverage, or `AttributeError` without an embedder; `"cooccurence"` raises `TypeError`; any other method changes nothing and raises nothing |
| `Pipeline.FitResult` | scripts/pipeline.py:97-103 | the fitted parameters when `curve_fit` returns, `None` when it raises |
| `Pipeline.TextAnalysisPipeline.constructor` | scripts/pipeline.py:12-44 | the settings are kept; there is no text, tokens, vectors or coverage, the lists are empty and there is no fit |
| `Pipeline.TextAnalysisPipeline.RecordLags` | scripts/pipeline.py:87-94 | the `while` loop appends to both lists what `RunSchedule` states, after their earlier contents |
| `Pipeline.TextAnalysisPipeline.CalculateAutocorrelation` | scripts/pipeline.py:85-94 | `len(None)` raises `TypeError` when there are no vectors; otherwise the lags and values of the loop are appended and nothing else changes |
| `Pipeline.TextAnalysisPipeline.FitPowerLaw` | scripts/pipeline.py:96-103 | `power_law_cosine` becomes the fit or `None`, no exception escapes, and the curve is unchanged |
| `Pipeline.TextAnalysisPipeline.BuildCoocurrenceMatrix` | scripts/pipeline.py:77-79 | the call `build_matrix(sparse=...)` raises `TypeError` |
| `Pipeline.TextAnalysisPipeline.Vectorize` | scripts/pipeline.py:61-69 | the fields change as `VectorsStep` states; on an exception the vectors and the coverage are unchanged |
| `Pipeline.TextAnalysisPipeline.RunPipeline` | scripts/pipeline.py:46-73 | steps 1-5 in order. An exception in step 3 or 4 ends the run and leaves the later fields as they were; after a complete loop the fit is stored |
| `LegacyPipeline.ScheduleValues` | pipeline.py:37-44 | one cosine value per scheduled lag, each the statistic of that lag, which never raises |
| `LegacyPipeline.TextAnalysisPipeline.constructor` | pipeline.py:6-22 | a fresh embedder for the path, no text, tokens or vectors, and empty lists |
| `LegacyPipeline.TextAnalysisPipeline.CalculateAutocorrelation` | pipeline.py:37-44 | without vectors, `TypeError`; otherwise the whole schedule and its values are appended in lockstep after the earlier contents |
| `LegacyPipeline.TextAnalysisPipeline.RunPipeline` | pipeline.py:24-34 | the text is kept and preprocessed, the table is loaded, the covered tokens' vectors become the series, and the autocorrelation is recorded without an exception |
| `OrderedDicts.Dict.Touch` | scripts/mutual_information.py:30-31 | a `defaultdict` lookup inserts a missing key with 0 and changes no other value |
| `OrderedDicts.Dict.Increment` | scripts/mutual_information.py:14 | `d[k] += 1` adds one to `k`, inserting a missing `k` last; every other key keeps its place and its value |
| `OrderedDicts.IncrementTotal` | scripts/mutual_information.py:13-14 | an increment adds one to `sum(d.values())` |
| `OrderedDicts.TouchTotal` | scripts/mutual_information.py:30-35 | a lookup leaves `sum(d.values())` unchanged |
| `OrderedDicts.CountsOfSpec` | scripts/mutual_information.py:10-16 | the counter's keys are the distinct tokens in order of first appearance, and each count is the number of occurrences |
| `OrderedDicts.CountsOfTotal` | scripts/mutual_information.py:10-16 | the counts add up to the number of tokens |
| `OrderedDicts.SharesSumToOne` | scripts/mutual_information.py:33-35 | with a positive total, the shares `count / total` add up to 1 |
| `OrderedDicts.DistinctOrder` | scripts/coocurrence_matrix.py:11-18 | the distinct tokens keep the order of first appearance |
| `MutualInformationEstimator.Pairs` | scripts/mutual_information.py:23-25 | there are `max(0, len - lag)` pairs |
| `MutualInformationEstimator.JointCounts` | scripts/mutual_information.py:18-28 | `ValueError` exactly when `lag <= 0` |
| `MutualInformationEstimator.JointTotal` | scripts/mutual_information.py:23-26 | the joint counts add up to `max(0, len - lag)` |
| `MutualInformationEstimator.JointCountsSpec` | scripts/mutual_information.py:23-26 | each pair is counted as often as it occurs, and is a key exactly when it is `(tokens[i], tokens[i + 1])` for some `i < len - lag` |
| `MutualInformationEstimator.PairsIgnoreLagOffset` | scripts/mutual_information.py:23-25 | the pairs for any lag are a prefix of the pairs for lag 1: the second token is always the next one |
| `MutualInformationEstimator.PairsOfLagTwo` | scripts/mutual_information.py:23-26 | for `a b c d` at lag 2, the pairs are `(a, b)` and `(b, c)`, and `(a, c)` is not counted |
| `MutualInformationEstimator.MarginalPositive` | scripts/mutual_information.py:30-31 | a stream token has a positive marginal probability |
| `MutualInformationEstimator.MarginalsSumToOne` | scripts/mutual_information.py:30-31 | the marginal probabilities of the distinct tokens add up to 1 |
| `MutualInformationEstimator.JointProbability` | scripts/mutual_information.py:33-35 | 0.0 without pairs; otherwise the pair's share, with the lookup inserting the pair and changing no total |
| `MutualInformationEstimator.JointProbabilitiesSumToOne` | scripts/mutual_information.py:33-35 | with at least one pair, the joint probabilities of the keys add up to 1 |
| `MutualInformationEstimator.JointKeysAreTokens` | scripts/mutual_information.py:45-48 | every joint key is a pair of stream tokens |
| `MutualInformationEstimator.GuardAlwaysHolds` | scripts/mutual_information.py:45-50 | for every joint key, `p_xy`, `p_x` and `p_y` are positive, so the guard always holds |
| `MutualInformationEstimator.MutualInformationOf` | scripts/mutual_information.py:37-52 | `ValueError` exactly when `lag <= 0`; 0.0 when `len <= lag` |
| `MutualInformationEstimator.AddTerm` | scripts/mutual_information.py:49-50 | the accumulator gains `p_xy * log2(p_xy / (p_x * p_y))` under the guard, and nothing otherwise |
| `MutualInformationEstimator.MutualInformation.constructor` | scripts/mutual_information.py:5-8 | the tokens, their number and their counter are stored |
| `MutualInformationEstimator.MutualInformation.CountTokens` | scripts/mutual_information.py:10-16 | the loop builds the counter: distinct tokens in order of first appearance, occurrence counts, total equal to the number of tokens |
| `MutualInformationEstimator.MutualInformation.CountJointTokens` | scripts/mutual_information.py:18-28 | the loop returns or raises exactly `JointCounts` |
| `MutualInformationEstimator.MutualInformation.MarginalProbability` | scripts/mutual_information.py:30-31 | the count over the length, or `ZeroDivisionError` for an empty stream; the lookup inserts a missing word and leaves stream tokens' counts alone |
| `MutualInformationEstimator.MutualInformation.SumTerms` | scripts/mutual_information.py:44-52 | the loop over the joint keys sums their terms and leaves the marginal counter unchanged |
| `MutualInformationEstimator.MutualInformation.CalculateMutualInformation` | scripts/mutual_information.py:37-52 | returns or raises exactly `MutualInformationOf`, and the marginal counter is unchanged |
| `Coocurrence.VocabularySpec` | scripts/coocurrence_matrix.py:11-18 | the keys are the distinct tokens in order of first appearance, and the token at position `i` maps to `i`: a bijection onto `0..n-1` |
| `Coocurrence.VocabularyIndex` | scripts/coocurrence_matrix.py:35-40 | each token's index is its first-appearance rank, and `vocabulary_list[vocabulary[t]] == t` |
| `Coocurrence.VocabularyInRange` | scripts/coocurrence_matrix.py:35-36 | every token of a window has an index in `0..n-1` |
| `Coocurrence.VocabularyOrder` | scripts/coocurrence_matrix.py:15-18 | a token has a smaller index exactly when it first appears earlier |
| `Coocurrence.Window` | scripts/coocurrence_matrix.py:32 | the window holds only tokens of the text |
| `Coocurrence.WindowFits` | scripts/coocurrence_matrix.py:31-32 | a window that fits is exactly the `w` tokens from position `i` on |
| `Coocurrence.Combinations` | scripts/coocurrence_matrix.py:34 | `combinations(window, 2)` pairs tokens of the window |
| `Coocurrence.CombinationsLength` | scripts/coocurrence_matrix.py:34 | `combinations(s, 2)` has `len(s) * (len(s) - 1) / 2` pairs |
| `Coocurrence.AllPairsLength` | scripts/coocurrence_matrix.py:31-34 | with `w >= 0`, the loop visits `C(w, 2) * max(0, len - w + 1)` pairs |
| `Coocurrence.SmallWindowsCountNothing` | scripts/coocurrence_matrix.py:34 | a window size of 0 or 1 counts no pair |
| `Coocurrence.NegativeWindowWraps` | scripts/coocurrence_matrix.py:31-32 | a negative window size slices from the end: for `a b c` and `-1` there are 5 windows and `(a, b)` is counted |
| `Coocurrence.EntrySnoc` | scripts/coocurrence_matrix.py:37-38 | one pair adds 1 to each of its two cells, and 2 to a diagonal cell |
| `Coocurrence.EntrySymmetric` | scripts/coocurrence_matrix.py:37-38 | the counts are symmetric and every diagonal cell is even |
| `Coocurrence.TotalIsTwicePairs` | scripts/coocurrence_matrix.py:35-38 | the cells sum to twice the number of pairs counted |
| `Coocurrence.MatrixTotal` | scripts/coocurrence_matrix.py:28-38 | with `w >= 0`, the cells of the `n` by `n` matrix sum to `2 * C(w, 2) * max(0, len - w + 1)` |
| `Coocurrence.CoocurrenceMatrix.constructor` | scripts/coocurrence_matrix.py:6-9 | the tokens and the window size are kept with an empty vocabulary |
| `Coocurrence.CoocurrenceMatrix.BuildVocabulary` | scripts/coocurrence_matrix.py:11-18 | the vocabulary is rebuilt from the tokens alone, whatever it held, so building twice gives the same map |
| `Coocurrence.CoocurrenceMatrix.CountCombinations` | scripts/coocurrence_matrix.py:34-38 | each pair of a window adds one to both of its cells |
| `Coocurrence.CoocurrenceMatrix.CountWindow` | scripts/coocurrence_matrix.py:32-38 | one pass of the window loop adds the window's pairs |
| `Coocurrence.CoocurrenceMatrix.CountWindows` | scripts/coocurrence_matrix.py:31-38 | the window loop counts every pair of every window into the zero matrix |
| `Coocurrence.CoocurrenceMatrix.BuildMatrix` | scripts/coocurrence_matrix.py:20-41 | returns a fresh `n` by `n` matrix whose cells are the pair counts, symmetric with an even diagonal, and the vocabulary keys as the word list |
| `Embeddings.LowerChar` | scripts/word_embeddings.py:42 | lowercases `A`-`Z` and keeps every other character |
| `Embeddings.Lower` | scripts/word_embeddings.py:42 | `text.lower()` with `LowerChar` applied character by character, so the length is kept (Python's own `lower` can lengthen a text, see below) |
| `Embeddings.Clean` | scripts/word_embeddings.py:43 | the output holds only `a`-`z` and whitespace, is no longer than the input, and a character occurs in it exactly when it occurs in the input and is one of those |
| `Embeddings.CleanSpec` | scripts/word_embeddings.py:43 | the cleaned text keeps each `a`-`z` and whitespace character as often as it occurs in the input, in order, and no other character |
| `Embeddings.SplitWordsSpec` | scripts/word_embeddings.py:44 | the words are non-empty, have no whitespace, use only characters of the text, and concatenated are the text's non-whitespace characters; joined by single spaces they are the text with every whitespace run squeezed to one space and both ends trimmed, so the words break exactly at the whitespace runs |
| `Embeddings.SplitWordsUnique` | scripts/word_embeddings.py:44 | the split is the only list of non-empty, whitespace-free words whose space-joined form is the squeezed text: the words are the maximal non-whitespace runs |
| `Embeddings.SplitJoin` | scripts/word_embeddings.py:44 | splitting `" ".join(ws)` gives back `ws` for non-empty words without whitespace |
| `Embeddings.FilterTokensSpec` | scripts/word_embeddings.py:45 | the filter keeps the tokens that are no stop word and are longer than 1, in order, each as often as it occurs, and drops every other token |
| `Embeddings.PreprocessTextSpec` | scripts/word_embeddings.py:41-46 | the output tokens use only `a`-`z`, are longer than 1, are no stop word, are an order-preserving subsequence of the split, and each kept word occurs as often as in the split |
| `Embeddings.CoveredSpec` | scripts/word_embeddings.py:62-66 | the covered tokens are exactly those in the table, in order, and their number is `n_covered` |
| `Embeddings.EmbedText` | scripts/word_embeddings.py:61-62 | one vector per covered token, that token's vector, in token order; `TypeError` exactly when not loaded and there is a token |
| `Embeddings.CalculateCoverage` | scripts/word_embeddings.py:64-67 | 0.0 for no tokens, otherwise a share in `[0, 1]`; `TypeError` exactly when not loaded and there is a token |
| `Embeddings.CoverageCountsEmbeddedTokens` | scripts/word_embeddings.py:62-67 | the coverage is `len(embed_text(tokens)) / n_tokens` |
| `Embeddings.EmbeddedRowsRectangular` | scripts/pipeline.py:63 | the embedded vectors of one table form a two-dimensional array |
| `Embeddings.WordEmbeddings.constructor` | scripts/word_embeddings.py:49-51 | the path is kept and nothing is loaded |
| `Embeddings.WordEmbeddings.LoadEmbeddings` | scripts/word_embeddings.py:53-59 | a `.bin` path is read as word2vec, otherwise a `.gensim` path with `KeyedVectors.load`, otherwise `ValueError` with the table unchanged |
| `Embeddings.UnknownSuffixIsRefused` | scripts/word_embeddings.py:54-59 | `vectors.txt` matches neither suffix, and `model.gensim` matches only `.gensim` |
| `LegacyEmbeddings.PreprocessText` | word_embeddings.py:35-40 | the output tokens use only `a`-`z`, are longer than 1, are no stop word, and are exactly the kept tokens of the split, in order, each as often as in the split |
| `LegacyEmbeddings.EmbedText` | word_embeddings.py:50-51 | exactly the tokens present in the table, in order, each replaced by its vector; `TypeError` when not loaded |
| `LegacyEmbeddings.CalculateCoverage` | word_embeddings.py:53-56 | 0.0 for no tokens, otherwise `len(embed_text(tokens)) / n_tokens` in `[0, 1]` |
| `LegacyEmbeddings.WordEmbeddings.constructor` | word_embeddings.py:43-45 | the path is kept and nothing is loaded |
| `LegacyEmbeddings.WordEmbeddings.LoadEmbeddings` | word_embeddings.py:47-48 | the table is read as binary word2vec, whatever the suffix |

## Left out

- Network and file input: `TextReader.download_text` and `read_tokens` are not modelled. The downloaded text and the tokens read from disk are parameters of `RunPipeline`.
- Foreign libraries:
  - The gensim readers are function parameters.
  - The nltk stop-word list is a `set<string>` parameter.
  - `curve_fit` with `utils.power_law` is a function parameter that returns parameters or raises. `utils` is not part of this model.
  - The error message printed on a failed fit is dropped.
- Floating point:
  - Correlation and probability arithmetic is exact over `real`.
  - `sqrt` and `log2` are uninterpreted function parameters.
  - The final Pearson division stays symbolic (`Ratio(cov, varSu, varSl)`).
  - Only the lag growth step is modelled in IEEE-754 double precision.
- Correlations.CosineSpec: a SciPy sparse matrix passed with `sparse=False` is excluded by its precondition. What `np.linalg.norm` and `np.einsum` raise on a sparse matrix depends on library versions. Precomputed `norms` are a sequence of numbers: a `norms` of another shape is not modelled, and the error for short `norms` follows NumPy's broadcasting and boolean-indexing rules without their messages.
- Correlations.CosineBounded: the `[-1, 1]` bound, `ConstantSeriesIsOne` and `ZeroSeriesIsNaN` hold in exact arithmetic and for norms computed from the rows. Precomputed `norms` are taken as given and need not be the rows' norms, and double rounding can move a cosine slightly past 1.
- Correlations.PearsonCorrelation: is modelled on dense rows only. On a SciPy sparse matrix, `Su ** 2` is a matrix power, not an element-wise square.
- Sparse rows are modelled as full rows with their zeros. Storage format and the memory footprint are not modelled.
- NumPy's `int32` cells of the co-occurrence matrix are unbounded integers. Overflow is not modelled.
- The row extraction of `build_coocurrence_matrix` (scripts/pipeline.py:80-83) is unreachable, because the call before it raises `TypeError`.
- `check_normality` (pingouin) and `make_plots` (seaborn/matplotlib) are not modelled. Neither is the commented-out Pearson curve with its fit.
- `book_id`, `language`, `embedding_path` and the reader objects are kept only as far as the modelled steps use them.
- Embeddings.LowerChar: lowercases ASCII letters only. Python's `str.lower` also maps some non-ASCII characters to ASCII letters: the Kelvin sign U+212A becomes `k`, and U+0130 (`İ`) becomes `i` followed by U+0307, which lengthens the text, so `"İstanbul"` cleans to `istanbul` in Python but to `stanbul` here. Other non-ASCII letters are deleted by the `[^a-z\s]` pattern either way.
- Embeddings.Lower: keeps the length of the text, which Python's `str.lower` does not do for U+0130.
- The batch scripts `analysis.py`, `main.py` and `get_file_sizes.py` are not part of this model. They do CSV and file input and output.
