# AHP expert scoring — verified model of the arithmetic core

The application is a Streamlit tool. Experts use it to weigh an AI-literacy evaluation system with the Analytic Hierarchy Process (AHP). The system has four top criteria B1–B4, each with five sub-criteria.

Each expert fills a pairwise judgment matrix per level on the 1/5 … 5 scale. The tool derives weights and a consistency ratio from each matrix. It then combines the acceptable experts of a level into group weights, and composes the levels into one weight hierarchy.

This project models that arithmetic in Dafny over exact reals and proves its properties. One module corresponds to each part of the program:

| module | models |
|---|---|
| `Wrappers` | `Option`, for lookups that fail in the source |
| `Sums` | `numpy.sum`/`prod` over sequences, powers, means, and the identities used below |
| `Scale` | the scale options, their meanings, the random-index table, the slider label, the verbal feedback, the snap to the nearest option |
| `Pairs` | the upper-triangle comparison list (i < j, row-major) |
| `JudgmentMatrix` | the in-place fill of an `array2` from the identity, with its reciprocity invariant |
| `Solver` | `calculate_weights_and_consistency`: normalisation, λmax, CI, RI, CR; consistent matrices; a worked example |
| `Consistency` | the stored status and the displayed verdict for a ratio |
| `GroupAnalysis` | `perform_comprehensive_analysis`: the gates, the filter, group weights, average ratio, the pair-correlation loop, consensus labels |
| `Hierarchy` | the evaluation system, `str.split`, the collection of level weights, and the export loop building the hierarchy table |

Inputs the model takes as parameters:
- The n-th root of a row product (app.py:622) is the one step of the solver with no exact counterpart. `Solver.CalculateWeightsAndConsistency` therefore receives the geometric means `g`. They are characterised by `Solver.AreGeometricMeans`: `g[i] > 0` and `g[i]^n` equals the product of row i.
- The log/exp group mean (app.py:733) is a function parameter. It is constrained by `GroupAnalysis.IsGroupMeanFunction`: for every uniform list of vectors, it gives the positive column-wise |ws|-th roots of the column products.
- `numpy.corrcoef` (app.py:830) is an arbitrary function parameter.

## Model

| member | source | states |
|---|---|---|
| Scale.RandomIndex | app.py:377-380 | RI is the tabulated value for orders 1..10 and 1.45 otherwise; it is never negative, and it is 0 exactly for orders 1 and 2 |
| Scale.ScaleClosedUnderReciprocal | app.py:361-374 | there are nine options, all positive; the option at the mirror position is the reciprocal; the options with a meaning are exactly the options |
| Scale.ScaleStrictlyIncreasing | app.py:374 | the options are listed in strictly increasing order, so no two coincide |
| Scale.InScale | app.py:361-374 | every option is positive, and it and its reciprocal are options with a recorded meaning |
| Scale.DecimalStringValue | app.py:481-483 | the decimal rendering of a natural number reads back as that number |
| Scale.FormatScaleLabel | app.py:478-483 | a label exists exactly for the values with a recorded meaning (otherwise the source's lookup fails) |
| Scale.ScaleNumeral | app.py:480-483 | every option is written with an integer k >= 1: k itself at 1 and above, 1/k below 1 |
| Scale.LabelRoundTrip | app.py:478-483 | every option has a label, and the numeral at the head of the label (`k` or `1/k`) reads back as the option itself |
| Scale.DescribeChoice | app.py:565-572 | the feedback succeeds exactly when the value is 1, or when it and its reciprocal both have a meaning |
| Scale.ChoiceMirrored | app.py:565-572 | for every option both lookups succeed; a value above 1 favours the left criterion and its reciprocal disfavours it, with the two meanings swapped; 1 is "equally important" |
| Scale.NearestIndex | app.py:553 | the chosen index has the least distance to the value, and every earlier index is strictly farther, as `min` with a key returns the first minimum |
| Scale.NearestScale | app.py:553 | the slider default is an option, and no option is closer to the stored value |
| Scale.NearestScaleEarliestOnTies | app.py:553 | when two options are equally close to the stored value and no option is closer, the lower of the two is the slider default, as `min` keeps the first minimum of the increasing option list |
| Scale.SnapIdempotent | app.py:553 | a value that already is an option snaps to itself |
| Sums.SumPositive | app.py:623 | `Sum` (`np.sum`) of positive values is never negative, and positive when there is at least one value |
| Sums.SumScaled | app.py:623 | the `Sum` of a pointwise multiple is the multiple of the `Sum`, as dividing by the total relies on |
| Sums.SumConcat | app.py:623 | `Sum` of a concatenation is the sum of the two `Sum`s |
| Sums.SumBelow | app.py:844 | a non-empty list of values each below a bound has a `Sum` below length × bound, which is what puts their `Mean` (`np.mean`) below the bound |
| Sums.ProductPositive | app.py:621 | the `Product` (`np.prod`) of positive values is positive |
| Sums.ProductOfQuotients | app.py:621 | the `Product` of the row a / t[0], ..., a / t[n-1] is a^n over the (positive) `Product` of t |
| Sums.RootUnique | app.py:622 | positive n-th roots are unique, so the geometric mean of a positive row is determined |
| Pairs.UpperPairs | app.py:531-534 | there are n(n-1)/2 pairs, and every one has i < j < n |
| Pairs.RowsBeforeCount | app.py:531-534 | the first i rows of the upper triangle hold i(2n-i-1)/2 pairs |
| Pairs.UpperPairsMembers | app.py:531-534 | a pair is listed exactly when i < j < n |
| Pairs.UpperPairsOrdered | app.py:531-534 | the list is strictly increasing in row-major order, so no pair is listed twice |
| Pairs.EnumerateComparisons | app.py:531-534 | the nested loop builds exactly that list: n(n-1)/2 pairs, all i < j < n, in row-major order |
| JudgmentMatrix.WriteComparisons | app.py:556-575 | after the fill loop over distinct pairs i < j, each pair holds its value and its mirror the reciprocal; every other cell keeps the identity's 1 or 0 |
| JudgmentMatrix.FilledEntry | app.py:574-575 | in a completed fill every cell is non-zero and is the reciprocal of its mirror cell |
| JudgmentMatrix.FilledIsReciprocal | app.py:574-575 | a completed fill is reciprocal: unit diagonal, and M[j][i] = 1/M[i][j] for all i, j |
| JudgmentMatrix.FilledIsPositive | app.py:574-575 | filled from positive values, every entry is positive |
| JudgmentMatrix.FilledIsOnScale | app.py:556-575 | filled from scale values, every entry is a scale value |
| JudgmentMatrix.BuildJudgmentMatrix | app.py:524-575 | the n x n matrix starts as the identity; the k-th value of the form lands at the k-th pair and its reciprocal at the mirror; the result is reciprocal, positive from positive values, on the scale from scale values |
| Solver.Normalize | app.py:623 | dividing a positive vector by its sum gives positive entries that sum to exactly 1 |
| Solver.NormalizeScales | app.py:623 | the normalised vector is proportional to the input: times the input's sum it gives the input back |
| Solver.ConsistencyIndex | app.py:630 | CI is 0 for n <= 1, and otherwise CI(n-1) = λmax - n |
| Solver.ConsistencyRatio | app.py:632 | CR is 0 when RI is 0, and otherwise CR·RI = CI, so it never divides by zero |
| Solver.CalculateWeightsAndConsistency | app.py:616-634 | the weights are `Normalize` of the geometric means (positive, sum 1); λmax is `LambdaMax`, the mean over i of `Dot(M[i], w) / w[i]` (`np.dot`, app.py:626-627); CR uses the RI table; CR is 0 for n <= 2, and for n >= 3 RI is positive and CR·RI = CI |
| Solver.ConsistentGeometricMeans | app.py:621-622 | for M[i][j] = w[i]/w[j], the row geometric means are one positive multiple of w |
| Solver.ProportionalNormalizes | app.py:623 | normalising a positive multiple of a vector that sums to 1 gives that vector back |
| Solver.ConsistentMatrixWeights | app.py:621-623 | on a consistent matrix the solver recovers w exactly |
| Solver.ConsistentRowSums | app.py:626 | each weighted row sum of a consistent matrix is n·w[i] |
| Solver.UniformEigenRatios | app.py:626-627 | when every weighted row sum `Dot(M[i], w)` is n·w[i], `LambdaMax` is n |
| Solver.ConsistentMatrixHasZeroRatio | app.py:621-632 | a consistent matrix gets back w as weights, λmax = n and CR = 0 |
| Solver.ExampleLambdaBound | app.py:621-627 | the matrix with upper triangle 3, 5, 2, 2, 1/2, 1/4 has λmax < 4.1 |
| Solver.ExampleRanking | app.py:621-623 | in that example the first criterion gets the strictly largest weight |
| Solver.ExampleRanksFirstRowHighest | app.py:616-634 | in that example the solver ranks the first criterion highest and its CR is below 0.1 |
| Consistency.StoredStatus | app.py:130 | "excellent" iff cr < 0.1, "acceptable" iff 0.1 <= cr < 0.2, "unacceptable" iff cr >= 0.2 |
| Consistency.DisplayVerdict | app.py:647-655 | pass iff cr < 0.1, acceptable iff 0.1 <= cr < 0.2, fail iff cr >= 0.2 |
| Consistency.StatusMatchesVerdict | app.py:647-655 | the displayed verdict agrees with the status stored at app.py:130 on every ratio |
| Consistency.GroupFilterMatchesStatus | app.py:722 | a judgment enters the group analysis exactly when its stored status (app.py:130) is not "unacceptable" |
| Consistency.SmallMatrixPasses | app.py:630-632 | every 1x1 and 2x2 matrix is stored as excellent and passes |
| Consistency.ConsistentMatrixPasses | app.py:621-632 | a perfectly consistent matrix is stored as excellent |
| Consistency.ExamplePasses | app.py:616-634 | the worked example is stored as excellent |
| GroupAnalysis.ValidJudgments | app.py:722 | a judgment is kept exactly when it is in the input and has cr < 0.2, and the result is no longer than the input |
| GroupAnalysis.ValidJudgmentsCount | app.py:722 | every judgment with cr < 0.2 is kept as often as it occurs in the input, and every other judgment not at all |
| GroupAnalysis.ValidJudgmentsConcat | app.py:722 | filtering distributes over concatenation, so the filter keeps the stored order |
| GroupAnalysis.ValidJudgmentsIdempotent | app.py:722 | filtering a filtered list changes nothing |
| GroupAnalysis.PairCorrelations | app.py:825-838 | the nested loop yields one correlation and one name pair per unordered expert pair i < j, in row-major order: k(k-1)/2 of each, the correlations being `CorrelationsOver` the pairs |
| GroupAnalysis.CorrelationsOver | app.py:828-834 | one correlation per listed expert pair, in the order of the list |
| GroupAnalysis.AverageCorrelation | app.py:840 | the average times the number of pairs is their sum, and it is 0 for no pairs |
| GroupAnalysis.AverageRatioBelow | app.py:777-844 | the `Mean` (`np.mean`, app.py:844) of the consistency ratios (app.py:777) of the kept judgments is below 0.2 |
| GroupAnalysis.ConsensusLevel | app.py:856-865 | high iff c > 0.8, medium iff 0.6 < c <= 0.8, low iff c <= 0.6 |
| GroupAnalysis.AnalyseAcceptable | app.py:732-873 | group weights are the normalised group mean (positive, sum 1); the count, names and average ratio (< 0.2) are those of the kept judgments; the correlations cover every pair, are at least one, and their mean is the consensus level |
| GroupAnalysis.PerformComprehensiveAnalysis | app.py:709-876 | fewer than 2 judgments, or fewer than 2 with cr < 0.2, give the two distinct early returns, and exactly otherwise the analysis completes. A completed analysis covers exactly the kept judgments: group weights are the normalised column geometric mean (n positive weights summing to 1), and it carries their count, names, average ratio, pair correlations, name pairs and consensus |
| Hierarchy.Split | app.py:940-941 | `str.split` on one separator character always yields at least one field |
| Hierarchy.SplitFieldCount | app.py:940-941 | a split has exactly one more field than the string has separators |
| Hierarchy.SplitJoin | app.py:940-941 | joining the fields of `s.split(sep)` with `sep` gives `s` back |
| Hierarchy.SplitFieldsOmitSeparator | app.py:940-941 | no field of a split contains the separator |
| Hierarchy.SplitAppend | app.py:940-941 | text without a separator appended to a string extends its last field |
| Hierarchy.SplitCodeName | app.py:940-941 | "code" + sep + "name", with no other separator, splits into exactly [code, name] |
| Hierarchy.SeparatorGivesTwoFields | app.py:941 | a string containing the separator has at least two fields, so `split(':')[1]` exists |
| Hierarchy.CriterionSplits | app.py:940-941 | a criterion "code:name" has exactly that `Code` (`split(':')[0]`) and that `Name` (`split(':')[1]`), as used for the rows at app.py:940-941 and app.py:956-957 |
| Hierarchy.TopCriteriaHaveCodes | app.py:218-223 | every top criterion contains a colon and has its sub-criteria listed |
| Hierarchy.EvaluationSystemHasCodes | app.py:214-254 | every top criterion and every one of its listed sub-criteria contains a colon, so every code and name of the table exists |
| Hierarchy.LatestAnalysisKept | app.py:912-920 | a completed analysis that no later level of the same name follows is the one whose weights are kept |
| Hierarchy.CollectLevelWeights | app.py:907-920 | a level has weights exactly when one of its analyses completed |
| Hierarchy.SubRowsEntries | app.py:952-961 | sub row j is `SubRow` of sub-criterion j (app.py:953-961): its code and name, absolute weight top weight × sub weight j, relative weight sub weight j, and the note naming its top criterion |
| Hierarchy.ExportHierarchy | app.py:922-961 | nothing is exported exactly when no level was analysed; otherwise the appended rows are `HierarchyRows`, the concatenation of one block per top criterion, and the table is empty without a top-level analysis |
| Hierarchy.RowCount | app.py:935-961 | the table has one row per top criterion, plus one per sub-criterion of each analysed top criterion |
| Hierarchy.BlockShape | app.py:935-961 | each top criterion contributes first its `TopRow` (app.py:938-945) with its own weight, then, exactly when its sub-level was analysed, one sub row per sub-criterion with absolute weight top × sub |
| Hierarchy.SubRowsTotal | app.py:952-961 | a criterion's sub rows add up to top weight × the sum of its sub weights, and add nothing at the top level |
| Hierarchy.BlockTotals | app.py:935-961 | a block's top-level total is the top weight; its sub-level total is the same when the sub weights sum to 1 |
| Hierarchy.LevelTotals | app.py:931-961 | the top rows of the first criteria sum to those criteria's weights, and so do their sub rows when every sub-level was analysed with weights summing to 1 |
| Hierarchy.HierarchyTotals | app.py:929-961 | with normalised top weights the top rows of `HierarchyRows` sum to 1, and so do its sub rows when every sub-level is analysed with normalised weights |

## Left out

- The Streamlit interface is not modelled: widgets, columns, session state, reruns and the `cols_per_row` layout. Each slider reading is an input value.
- Plotting (matplotlib, seaborn) is not modelled.
- `ExpertDataManager` persistence is not modelled: JSON files, MD5 identifiers and `datetime.now()` timestamps. The judgments of a level are an input list of `(name, weights, cr)` in stored order; the source's dictionary keyed by expert becomes a sequence.
- GroupAnalysis.PairCorrelations, GroupAnalysis.AverageCorrelation, GroupAnalysis.ConsensusLevel, GroupAnalysis.AnalyseAcceptable, GroupAnalysis.PerformComprehensiveAnalysis: the correlation is assumed to be a real number. `np.corrcoef` gives NaN when an expert's weight vector is constant (all sliders at 1 give the identity matrix and uniform weights). The source then averages to NaN and, since both `>` tests fail, labels the consensus low; that case is not modelled.
- Floating point is not modelled. Arithmetic is exact over the reals, so 1/3 is exact and rounding of weights, λmax or CR does not appear.
- The n-th root (app.py:622), the log/exp group mean (app.py:733) and `np.corrcoef` (app.py:830) are parameters, characterised as described above.
- The per-criterion weight table (app.py:741-758) is display output and is not modelled: the standard deviation (`np.std`), the coefficient of variation, the experts' min–max range, the percentage strings and the sort by group weight, descending.
- Solver.CalculateWeightsAndConsistency: requires n >= 1. For n = 0 the source raises ZeroDivisionError in `1 / n` (app.py:618, 622), since `shape[0]` is a Python int; that case is excluded rather than modelled. Every criteria list of the evaluation system is non-empty.
- The weight-stability figure (app.py:846, 872) is not modelled. It parses formatted percentage strings and depends on `np.std`; `GroupAnalysis.Analysis` has no such field.
- Hierarchy.ExportHierarchy: the relative-weight column is a real, not a string. '100%' is 1.0 and `f"{w*100:.1f}%"` is the sub weight itself.
- Hierarchy.ExportHierarchy: the level column is the `Level` datatype; `LevelLabel` maps it to the two level names.
- The pandas table, the JSON export and the download button are not modelled.
- Hierarchy.ExportHierarchy: WellFormed states what the loop needs to run without an exception: a top weight per top criterion, and the listed sub-criteria and enough sub weights for every analysed criterion. Inputs that make the source fail with a missing key or an index error are excluded, not modelled.
- `format_value` and `format_matrix_value` are not modelled. They are display formatting.
- The source does not flag a top criterion whose sub-level analysis is missing. The model does the same: that criterion's sub rows are omitted, and nothing flags them.
- GroupAnalysis.PerformComprehensiveAnalysis: the two early returns are both `None` in the source. The model keeps them apart as `TooFewJudgments` and `TooFewAcceptable`, with the counts the source displays.
