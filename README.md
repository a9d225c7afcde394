# Neural entropy closures: verified model of the numerical and bookkeeping core

This project models, in Dafny, the deterministic core of a research code base that trains neural
networks as entropy closures for moment systems of kinetic equations. Floating-point numbers are
modelled as reals, and the transcendental functions `exp` and `log` are parameters. Every property
proved here holds for any choice of them.

The modelled parts are:

- **Grid recurrences** (`src/utils.py`), module `Calculus`.
  - `integrate` is a cumulative right-endpoint Riemann sum, filled in place into a zero array.
  - `finiteDiff` is a difference quotient. Entry 0 is the forward quotient of the first interval.
    Entry `k >= 1` uses the interval that ends at grid point `k - 1`, and entry 1 reaches back to
    the last grid point through Python's negative indexing.
- **Training-data layout** (`load_data`), module `DataLoading`.
  - The CSV column groups are `u` = columns `1..N`, `alpha` = columns `N+1..2N` and `h` = column
    `2N+1`.
  - Each selected group is appended as its own matrix, in the order u, alpha, h.
- **Run bookkeeping** (`writeConfigFile`), modules `Decimal`, `RunScript` and `ConfigFile`.
  - The text of the shell script that re-launches a run, with integer options rendered by `str(int(..))`.
  - The search for the first free `runScript_NNN_.sh` / `config_NNN_.csv` name, with a counter
    zero-padded by `str.zfill(3)`.
  - The two files left in the run folder. The folder is a map from path to content.
- **Kullback-Leibler loss** (`kl_divergence_loss`), module `KlLoss`.
  - `reconstruct_alpha` clips the multipliers to `[-50, 50]`, integrates the exponential against
    basis rows `1..`, and puts `alpha_0` in front of the *unclipped* multipliers.
  - `kl_divergence` computes one value per sample.
- **Error measures** (`experimental/errorAnalysis.py`), module `RelativeError`.
  - `relDifferenceScalar`, elementwise.
  - `relDifference`, the row-wise L1 distance over a row norm (max mode) or over the column norms
    of `x1`, with numpy's broadcasting rules.
- **Perturbation batch** of `errorAnalysisf` / `errorAnalysisU`, module `Perturbation`.
  - 50 copies of sample 25000.
  - A copy whose entry 1 in row `i` is scaled by `1 + 2^(i-20)`.

Shared helpers live in `RealSums` (absolute value, maximum, dot product, the L1 norm) and
`Wrappers` (a `Result` type for operations the source aborts with an exception).

## Model

| member | source | states |
|---|---|---|
| Calculus.Integrate | src/utils.py:37-49 | The returned array is newly allocated and has the grid's length, and entry `i` is the right-endpoint Riemann sum of `y` over the first `i` grid intervals (`Integral`). |
| Calculus.RiemannSum | src/utils.py:46-47 | The loop's recurrence: 0 at the first grid point, then the previous sum plus `(x[i] - x[i-1]) * y[i]`. It has no contract of its own; `Integral` and the lemmas below state its properties. |
| Calculus.Integral | src/utils.py:44-47 | The cumulative sum has one entry per grid point and starts at 0. |
| Calculus.IntegralOfConstant | src/utils.py:46-47 | A constant integrand `c` integrates to `c * (x[i] - x[0])`. |
| Calculus.IntegralMonotone | src/utils.py:46-47 | On a non-decreasing grid, a non-negative integrand gives a non-decreasing cumulative sum. |
| Calculus.PyIndex | src/utils.py:32 | Python indexing: a negative index `i` denotes element `len + i`, and the result is always in range. |
| Calculus.FiniteDiffSpec | src/utils.py:27-32 | Entry 0 is the forward quotient `(y1-y0)/(x1-x0)`. Entry 1 is `(y0-y[n-1])/(x0-x[n-1])`, which wraps around. Entry `k >= 2` is `(y[k-1]-y[k-2])/(x[k-1]-x[k-2])`. |
| Calculus.FiniteDiff | src/utils.py:20-34 | The newly allocated array filled in place equals `FiniteDiffSpec`, whenever the denominators it divides by are non-zero. |
| Calculus.FiniteDiffOfIntegralLags | src/utils.py:31-32 | Applied to a cumulative sum, entry `k >= 2` gives back the integrand one point late (`y[k-1]`). |
| Calculus.FiniteDiffMissesIntegrand | src/utils.py:31-32 | Concrete grid `x = [0,1,2]`, `y = [5,1,4]`: the last entry of `finiteDiff(x, integrate(x, y))` is 1, not `y[2] = 4`. |
| Calculus.BackwardDiff | src/utils.py:29-32 | The corrected quotient: the forward quotient at point 0 and the backward quotient at every later point, so entries 0 and 1 agree. |
| Calculus.BackwardDiffInvertsIntegral | src/utils.py:31-32 | The corrected quotient recovers the integrand exactly at every point after the first. |
| Decimal.NatStringRoundTrip | src/utils.py:204 | The digits `str(n)` writes read back as `n`. |
| Decimal.IntStringRoundTrip | src/utils.py:204 | `int(str(i)) == i` for every integer, negative ones included. |
| Decimal.NatString | src/utils.py:232 | `str(n)` for a natural number: at least one character, all digits, and no leading zero unless the number is 0. |
| Decimal.IntString | src/utils.py:204 | `str(i)` for any integer: a literal of the form optional minus sign, then digits. |
| Decimal.ZFill | src/utils.py:232 | `str.zfill(width)` pads to `width` characters, keeping longer strings as they are. |
| Decimal.LeadingZerosValue | src/utils.py:232 | Padding a digit string with zeros keeps it a digit string with the same value. |
| Decimal.Counter | src/utils.py:232 | The counter `str(count).zfill(3)` is all digits and at least three long. |
| Decimal.CounterRoundTrip | src/utils.py:232 | The counter reads back as its number. |
| Decimal.CounterInjective | src/utils.py:232 | Distinct counts give distinct counters. |
| RunScript.RunScriptText | src/utils.py:203-221 | The finished script for the options: the eighteen flags with their rendered values, in source order. It has no contract of its own; `ScriptLine`, `RunScriptLine`, `LoadModelForced` and `IntegerOptionsReadBack` state what it contains. |
| RunScript.BuildRunScript | src/utils.py:203-221 | The string grown by eighteen reassignments is the run script for the options: the header, then every option line in order. |
| RunScript.ScriptPrefixGrows | src/utils.py:203-221 | Each reassignment only appends: an earlier state of the script is a prefix of every later one. |
| RunScript.ScriptLine | src/utils.py:203-221 | The script starts with the interpreter line. Line `k` sits right after the first `k` lines. Every line but the last ends with ` \` and a newline, and the last line ends the script. |
| RunScript.RunScriptLine | src/utils.py:203-221 | The same facts for the eighteen flags, from `--sampling=` to `--networkdepth=`. |
| RunScript.LoadModelForced | src/utils.py:210 | The script always contains `--loadModel=1` with its continuation, and its text does not depend on the `loadmodel` option. |
| RunScript.IntegerOptionsReadBack | src/utils.py:204-214 | `sampling`, `normalized`, `scaledOutput` and `decorrInput` are written as integer literals that read back as the option values. |
| ConfigFile.NumberedFileInjective | src/utils.py:232 | Different counters give different file names. |
| ConfigFile.TakenNamesBound | src/utils.py:230-233 | While the names for counters `1..m` all exist, there are at least `m` files, so the search loop ends. |
| ConfigFile.FirstFreeFile | src/utils.py:224-234 | The chosen path is the numbered name with the smallest counter `k >= 1` that does not exist: every name from 001 to `k - 1` exists, and this one does not. |
| ConfigFile.FirstFreeUnique | src/utils.py:230-234 | At most one name satisfies the first-free property. |
| ConfigFile.FirstFreeNeverZero | src/utils.py:224-234 | The first free name never carries counter 000. |
| ConfigFile.FileSystem.WriteConfigFile | src/utils.py:201-273 | Writes the run script under the first free `runScript_NNN_.sh`. Then writes the option table and git commit under the first free `config_NNN_.csv`, searched after the script exists. Nothing else changes, and the result is true. |
| DataLoading.UColumns | src/utils.py:63 | `u_cols`: `N` columns. |
| DataLoading.AlphaColumns | src/utils.py:64 | `alpha_cols`: `N` columns. |
| DataLoading.HColumns | src/utils.py:65 | `h_col`: one column. |
| DataLoading.ColumnLayout | src/utils.py:63-65 | `u` reads exactly columns `1..N`, `alpha` exactly `N+1..2N`, and `h` exactly `2N+1`. |
| DataLoading.ColumnsDisjoint | src/utils.py:63-65 | No column belongs to two groups, and column 0 is never read. |
| DataLoading.ColumnsContiguous | src/utils.py:63-65 | Read in order, the three groups are the columns `1..2N+1` with no gap. |
| DataLoading.SelectColumns | src/utils.py:70-71 | Reading with `usecols` keeps every row, restricted to the requested columns. |
| DataLoading.LoadData | src/utils.py:52-85 | The result holds one matrix per true flag, and the matrix of group `k` sits after the selected groups before it. Reading fails exactly when a selected group needs a column the file lacks, which is how pandas 2.0 and later treat an out-of-range `usecols` entry. |
| DataLoading.PositionsOrdered | src/utils.py:69-80 | Selected groups keep the order u, alpha, h in the result, and each lands inside it. |
| KlLoss.Clip | src/utils.py:308-309 | `clip_by_value(x, -50, 50)`: in range, unchanged inside the range, the nearer bound outside it. |
| KlLoss.ClipRowIdempotent | src/utils.py:308-309 | Clipping twice clips no further. |
| KlLoss.ReconstructAlpha | src/utils.py:291-313 | Each completed row is one longer than its input. Its entry 0 is `alpha_0` of the sample, and the rest is the unclipped input. |
| KlLoss.Alpha0 | src/utils.py:308-312 | `alpha_0 = -log(<exp(clip(alpha) . m_b[1:]), q_w>)`. It has no contract of its own; `Alpha0OnlySeesClipped` and `Alpha0IgnoresBasisRowZero` state its properties. |
| KlLoss.Alpha0OnlySeesClipped | src/utils.py:308-312 | `alpha_0` depends on the multipliers only through their clipped values. |
| KlLoss.Alpha0IgnoresBasisRowZero | src/utils.py:311-312 | Basis row 0 plays no part in `alpha_0`. |
| KlLoss.ReconstructKeepsUnclipped | src/utils.py:313 | Entry `i + 1` of a completed row is input entry `i` even beyond the clipping bound, where it differs from the clipped value. |
| KlLoss.KlDivergence | src/utils.py:315-332 | One loss value per sample, with no reduction over the batch. |
| KlLoss.KlSample | src/utils.py:328-332 | The loss of one sample: the quadrature of `exp(alpha_true . m) * ((alpha_true - alpha_pred) . m)`. It has no contract of its own; `KlSampleOfEqual` states its property. |
| KlLoss.KlSampleOfEqual | src/utils.py:328-332 | Equal completed vectors give a zero difference, a zero integrand and a zero loss, whatever `exp` is. |
| KlLoss.KlDivergenceZeroWhereEqual | src/utils.py:325-332 | The loss is zero for every sample whose prediction equals its true multipliers. |
| RelativeError.RelDifferenceScalar | experimental/errorAnalysis.py:261-271 | One value per entry: the distance over `max(|x1|, |x2|, 1e-3)` in max mode, otherwise over `|x1|`. |
| RelativeError.RelMaxProperties | experimental/errorAnalysis.py:268 | The max-mode denominator is at least `1e-3`. The value lies in `[0, 2]`, is 0 exactly when the entries agree, and is symmetric. |
| RelativeError.RelMaxBelowFloor | experimental/errorAnalysis.py:268 | With both magnitudes below `1e-3`, the value is the distance times 1000. |
| RelativeError.RelMaxAtMostRelRef | experimental/errorAnalysis.py:268-270 | The max mode never exceeds the mode relative to `x1`. |
| RelativeError.RelDifferenceScalarMaxMode | experimental/errorAnalysis.py:268 | The max-mode vector is symmetric, within `[0, 2]`, and zero exactly where the inputs agree. |
| RelativeError.BroadcastDivide | experimental/errorAnalysis.py:284 | numpy division under broadcasting: equal lengths divide entrywise, a length-1 side repeats, and any other pair of lengths is an error. |
| RelativeError.RowDistances | experimental/errorAnalysis.py:279 | `absDiff`: one non-negative L1 distance per row. |
| RelativeError.RowNormMax | experimental/errorAnalysis.py:281 | The max-mode normalisation of a row is at least the L1 norm of either operand's row, and is 0 exactly when both rows are all zeros. |
| RelativeError.ColumnNorms | experimental/errorAnalysis.py:283 | The other mode's normalisation: one non-negative L1 norm per column of `x1`. |
| RelativeError.RelDifference | experimental/errorAnalysis.py:274-284 | The max mode gives one value per row. The other mode succeeds exactly when the row count and the column count broadcast. |
| RelativeError.RelDifferenceMaxMode | experimental/errorAnalysis.py:279-281 | In max mode each entry lies in `[0, 2]`, is 0 exactly for equal rows, and is unchanged when the operands are swapped. |
| RelativeError.RelDifferenceOneColumn | experimental/errorAnalysis.py:283-284 | On one-column data, as at lines 226-228, the other mode divides every row distance by the same total `sum_s |x1[s][0]|`. |
| RelativeError.RelDifferenceAgreesWithScalar | experimental/errorAnalysis.py:279-281 | On one-column data with magnitudes above the floor, max-mode `relDifference` equals max-mode `relDifferenceScalar`. |
| Perturbation.PowerOfHalf | experimental/errorAnalysis.py:127 | The first step `0.5 ** 20` is `2^-20`. |
| Perturbation.PerturbedBatch | experimental/errorAnalysis.py:120-131 | Both arrays are 50 by `N`, and `alphas` repeats sample 25000 in every row. In the copy `alphasDist`, row `i` has entry 1 scaled by `1 + 2^(i-20)` and every other entry unchanged. The two arrays are newly allocated and distinct, so `alphas` is untouched. The same batch is built at lines 143-153 of `errorAnalysisU`. |
| Perturbation.PerturbedRow | experimental/errorAnalysis.py:130 | Row `i` of the copy has the base's length, and its entry 1 grows exactly when the base's entry 1 is positive. |
| Perturbation.PerturbationDistance | experimental/errorAnalysis.py:130 | Perturbed row `i` lies at L1 distance `|alpha_1| * 2^(i-20)` from the base row. |
| Perturbation.PerturbationDoubles | experimental/errorAnalysis.py:130-131 | The perturbation of entry 1 doubles from one row to the next. |
| Perturbation.PerturbedIffNonZero | experimental/errorAnalysis.py:130 | A row changes at all exactly when entry 1 of the base is non-zero. |

## Left out

- IEEE-754 arithmetic is replaced by reals: rounding, overflow, NaN and infinity are not modelled. This includes the `check_numerics` guard at src/utils.py:306. Every division therefore carries a non-zero-denominator precondition.
- `exp` and `log` are left as arbitrary functions, so no statement depends on their values.
- Calculus.Integrate: requires `len(y) >= len(x)` whenever the grid has a step. With a shorter `y`, the read of `y[i + 1]` at src/utils.py:47 raises `IndexError`; that exception is not modelled as an error value.
- Calculus.FiniteDiff: requires non-zero denominators (numpy would produce `inf`/`nan` instead). It also requires `len(x) >= 2`, `len(y) >= 2` and `len(y) >= len(x) - 1`. Shorter inputs make the reads at src/utils.py:29 and 32 raise `IndexError`, which is not modelled as an error value.
- RelativeError.RelDifferenceScalar: requires inputs of equal length. numpy broadcasting of differently shaped `x1`, `x2` is not modelled. Outside max mode it requires `x1` without zero entries (numpy would produce `inf`/`nan`).
- RelativeError.RelDifference: requires equal-shaped operands and non-zero normalisations, for the same reason.
- KlLoss.KlDivergence: requires `y_true` and `y_pred` to have the same number of rows. TensorFlow would broadcast a one-row `y_pred` against every row of `y_true` at src/utils.py:328; that batch broadcasting is not modelled.
- Perturbation.PerturbedBatch: requires more than 25000 samples, each with at least two entries. Fewer make `alpha[25000]` at experimental/errorAnalysis.py:122 or `alphas_dist[i, 1]` at line 130 raise `IndexError`, which is not modelled as an error value.
- KlLoss.ReconstructAlpha: the quadrature weights `q_w` of shape `1 x nq` are taken as their single row.
- DataLoading.LoadData: assumes pandas 2.0 or later, which raises on a `usecols` entry beyond the file's columns. Older pandas with the C parser ignored out-of-range integer entries and returned fewer columns, and the source pins no pandas version.
- DataLoading.LoadData: requires a selection of at least three flags. A shorter one makes `selected_cols[0..2]` at src/utils.py:69-77 raise `IndexError`, which is not modelled as an error value. It also requires `input_dim >= 1`. What pandas returns for an empty `usecols` list is not modelled. The CSV file is its rows of numbers after the header line. Parsing, timing and printing are left out.
- RunScript.BuildRunScript: the options `batch`, `degree` and the other non-integer options are taken as their already rendered text `str(option)`. The four `int(...)` options are integers, so the truncation `int()` applies to non-integer values is not modelled.
- ConfigFile.FileSystem.WriteConfigFile: the file contents are the script text and the option table as values. pandas' CSV rendering, `make_directory`, the file writes themselves, and the lookup of the git commit are left out. The commit is a parameter, and printing is not modelled.
- The neural-network wrappers (`evaluateModel`, `evaluateModelDerivative`, `loadTFModel`), `shuffleTrainData` (random) and the plotting helpers are not modelled.
- `errorAnalysisUM0`, `errorAnalysisUM1_normal` and `main` of experimental/errorAnalysis.py are not modelled. They depend on `src/math` (`reconstructU`, `reconstructL1F`, quadrature), which is not part of this model, and on trigonometric functions.
- python/neuralClosures/configModel.py is not part of this model. It dispatches to network constructors that are not available.

## Findings

| source | as written | input that shows it | evidently intended | confidence | as-written member | corrected member |
|---|---|---|---|---|---|---|
| src/utils.py:31-32 | `grad[i + 1] = (y[i] - y[i - 1]) / (x[i] - x[i - 1])` puts the quotient of the interval ending at point `i` into entry `i + 1`. Entry 1 wraps around to the last point. | `x = [0, 1, 2]`, `y = [5, 1, 4]`: `integrate` gives `[0, 1, 5]`, and `finiteDiff` of that gives 1 at index 2 instead of `y[2] = 4`. | The backward quotient `(y[k] - y[k-1]) / (x[k] - x[k-1])` in entry `k`, which inverts `integrate`. | medium, not executed | Calculus.FiniteDiffMissesIntegrand | Calculus.BackwardDiffInvertsIntegral |
