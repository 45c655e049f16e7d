# Ideal-function selection and test-point mapping, in Dafny

This project models the numerical core of a small Python program that fits
empirical data with "ideal functions":

- **Selector** (`FunctionSelector.calculate_least_squares`). For each of the
  four training series `y1..y4` it computes the sum of squared errors against
  each of the fifty ideal functions `y1..y50`. It keeps the first ideal function
  of least error, numbered from 1. It records that function's error times
  `sqrt(2)` as the tolerance for the series. It appends both to two lists held
  by the selector object.
- **Mapper** (`TestMapper.map_test_data`). For each test point `(x, y)` it
  looks up every selected function's ideal y at `x`. It uses the first exact x
  match, or else the first row of nearest x. It takes the first least absolute
  deviation. It keeps the point when that deviation is within the tolerance
  stored at the same position of the selection.

Tables are values of `DataFrames.Table`: a row count and a map from column
labels (`X` = "x", `Y` = "y", `Yn(n)` = "y<n>") to columns of exact `real`
values. The database reads become parameters. The write
(`to_sql(..., if_exists='replace')`) becomes the returned record sequence.

Modules:

- `DataFrames` (`data_frames.dfy`) holds the tables and the searches the core
  calls into. These are numpy's `argmin`, pandas' `idxmin`, Python's `min` and
  `list.index`. Each has a contract that says which position or value it returns.
- `Selector` (`function_selector.dfy`) holds the specification
  `LeastSquares`. It also holds the class `FunctionSelector`, whose method
  `CalculateLeastSquares` fills a `4 x 50` `array2` and appends to the fields
  `selectedFunctions` and `maxDeviations`.
- `Mapper` (`test_mapper.dfy`) holds the specification (`MapPoint`, `Gather`,
  `MappedRecords`), the loops (`MapTestPoints`, `PointDeviations`,
  `LookupIdealY`, `FindExact`, `FindNearest`) and the class `TestMapper`. The
  class reads the selection through the selector's getters.

Where the source handles a bad input, the model has an error path instead of a
precondition:

- The selector returns early with both lists unchanged when the training table
  is empty or a column is missing (`SelectError`).
- In the mapper, an exception inside the loop over test rows aborts the whole
  pass, and nothing is written. A row that raises is a `Step.Fault`. That
  happens when the ideal table has no "x" column, has no rows (`idxmin` then
  raises), or lacks the column "y<n>" of a selected function. Those three
  cases reach the row through `IdealY`. A row also faults when
  `max_devs[best_func_index]` is past the end of the list (Python's
  `IndexError`).
- A test table without an "x" or "y" column raises at its first row
  (`row['x']`, test_mapper.py:29); a test table with no rows raises nothing.
  Either way nothing is written, and `MappedRecords` and `MapTestPoints`
  return `[]` without building any `Step`.

Two behaviours of the code are worth stating:

- **Unequal row counts are not rejected.** The code subtracts two Series
  aligned on their default row index and sums with NaN skipped
  (function_selector.py:45), so `SSE` pairs positions up to the shorter
  column.
- **An empty result writes nothing.** When no point qualifies the code skips
  the write (test_mapper.py:58-63), so an earlier results table stays in
  place; `MappedRecords` is then `[]`.

`np.sqrt(2)` is `Selector.Sqrt2`, the exact value of the IEEE-754 double it
returns.

## Model

| member | source | states |
|---|---|---|
| `DataFrames.ArgMin` | function_selector.py:49 | `np.argmin` returns a position holding the least value, and every earlier position holds a strictly larger value (first minimum on ties) |
| `DataFrames.Min` | test_mapper.py:47 | `min(deviations)` is an element of the list and no greater than any element |
| `DataFrames.FirstIndex` | test_mapper.py:48 | `list.index(v)` returns a position holding `v`, and no earlier position holds `v` |
| `DataFrames.FirstIndexOfMin` | test_mapper.py:47-48 | `deviations.index(min(deviations))` is the first position of a minimum |
| `DataFrames.FirstMinUnique` | test_mapper.py:47-48 | at most one position is a first minimum of a list |
| `DataFrames.MinIndexIsArgMin` | test_mapper.py:47-48 | `list.index(min(list))` is the position numpy's `argmin` returns |
| `DataFrames.Table.Empty` | function_selector.py:21 | `DataFrame.empty`: true when the frame has no rows or no columns (a predicate; its meaning is used by the first error clause of `Selector.LeastSquares`) |
| `DataFrames.Abs` | test_mapper.py:41 | `abs(y - ideal_y)` is non-negative and equals the difference or its negation |
| `Selector.SSE` | function_selector.py:45 | the squared error over the paired row positions is non-negative |
| `Selector.SSEZeroWhenAgreeing` | function_selector.py:45 | series that agree on every paired row have squared error zero |
| `Selector.FirstMissing` | function_selector.py:26-37 | the column check finds nothing exactly when every label in the range is present; otherwise it finds the first absent label |
| `Selector.HasColumns` | function_selector.py:26-37 | training has y1..y4 and ideal has y1..y50 (a predicate; `Selector.LeastSquares` succeeds exactly when it holds on a non-empty training frame) |
| `Selector.Fit` | function_selector.py:42-45 | `Fit(training, ideal, i, j)` is the cell `deviations[i, j]` (0-based, as at line 45): the squared error of training series y(i+1) against ideal function y(j+1), non-negative |
| `Selector.DeviationMatrix` | function_selector.py:39-45 | the 4x50 matrix of squared errors, every row of length 50 and every cell non-negative |
| `Selector.LeastSquares` | function_selector.py:16-51 | the result is "empty training" exactly when the training frame is empty. It is a missing training column exactly when one of y1..y4 is absent, naming the first. It names the first absent y1..y50 of the ideal table otherwise. It is a success exactly when the frame is non-empty and all 54 columns exist, and then gives four indices and four tolerances |
| `Selector.Choose` | function_selector.py:48-51 | per matrix row, the index is in 1..50 and is one plus the first minimum of the row, and the tolerance is that row's minimum times sqrt(2) |
| `Selector.LeastSquaresMinimises` | function_selector.py:39-51 | for each training series i, the chosen function j\* has SSE(i, j\*) <= SSE(i, j) for every j in 1..50, every earlier j has strictly larger SSE, and the tolerance is SSE(i, j\*) * sqrt(2) >= 0 |
| `Selector.ExactFitSelected` | function_selector.py:45-51 | an ideal function with zero error, preceded only by functions of positive error, is the one selected, with tolerance 0 |
| `Selector.FillDeviations` | function_selector.py:39-45 | the nested loops leave `deviations[i, j]` equal to the squared error of training series y(i+1) against ideal function y(j+1), for every cell of the 4x50 array |
| `Selector.FunctionSelector.Valid` | function_selector.py:13-14 | the invariant the selector keeps over its lifetime (the constructor establishes it, `CalculateLeastSquares` preserves it): the two lists are parallel, every index is in 1..50 (from `min_index + 1` at line 50) and every tolerance is non-negative (line 51); `Mapper.TestMapper.MapTestData` relies on it to bound every record's function to 1..50 |
| `Selector.FunctionSelector.constructor` | function_selector.py:13-14 | a new selector starts with two empty lists and satisfies the invariant |
| `Selector.FunctionSelector.CalculateLeastSquares` | function_selector.py:16-51 | on success the two lists grow by exactly the four indices and four tolerances of `LeastSquares`; on every error they are unchanged; the lists stay parallel, indices stay in 1..50 and tolerances non-negative |
| `Selector.FunctionSelector.SelectMinima` | function_selector.py:48-51 | the loop appends `argmin + 1` and `deviations[i][min_index] * sqrt(2)` for the four rows, in training order |
| `Selector.FunctionSelector.GetSelectedFunctions` | function_selector.py:61-62 | returns the stored index list and changes nothing |
| `Selector.FunctionSelector.GetMaxDeviations` | function_selector.py:64-65 | returns the stored tolerance list and changes nothing |
| `Selector.SelectTwice` | function_selector.py:13-14 | the lists accumulate: two successful calls leave the first four entries followed by four more |
| `Mapper.Distances` | test_mapper.py:37 | `(ideal_df['x'] - x).abs()`: one non-negative distance per ideal row, zero exactly at the rows holding `x` |
| `Mapper.LookupRow` | test_mapper.py:34-40 | there is no row only for an empty ideal table. When some row's x equals the test x, the first such row is used. Otherwise the row is the first of least absolute x difference |
| `Mapper.IdealY` | test_mapper.py:34-40 | the ideal y exists exactly when the ideal table has an "x" column and at least one row, and the column "y<funcNo>" exists |
| `Mapper.Deviations` | test_mapper.py:31-42 | the list has one entry per selected function, in selection order, duplicates included, each `abs(y - ideal_y)`. It fails exactly when some lookup fails |
| `Mapper.MapPoint` | test_mapper.py:29-56 | one test row: deviations, `min`, `index`, then the tolerance test. It has no `ensures`; its meaning is stated by `Mapper.MapPointFirstMinimum` (faults, emit condition and record at the first minimum) and `Mapper.EmittedWithinTolerance` (what an emitted record promises) |
| `Mapper.MapPointFirstMinimum` | test_mapper.py:44-56 | with the first minimum b of the deviations, a point faults iff b has no tolerance. It emits iff `deviations[b] <= max_devs[b]`, and the record is `(x, y, deviations[b], selected[b])` |
| `Mapper.EmittedWithinTolerance` | test_mapper.py:47-56 | an emitted record carries the point's own x and y and a non-negative delta no larger than any candidate deviation. Its function is `selected[p]` for a position p whose tolerance `max_devs[p]` bounds the delta |
| `Mapper.Steps` | test_mapper.py:28-56 | the `iterrows` loop: one outcome per test row, in row order (`ensures` the length equals the row count) |
| `Mapper.Gather` | test_mapper.py:26-56 | the rows yield no result exactly when some row faults, and otherwise at most as many records as rows |
| `Mapper.EmittedRows` | test_mapper.py:50-56 | the rows whose point passes the tolerance test: at most one per row, each a row index whose outcome is a record (`Mapper.GatherInRowOrder` adds that they are increasing and complete) |
| `Mapper.GatherInRowOrder` | test_mapper.py:28-56 | without a fault, the records are exactly those of the emitting rows, one per row, in increasing row order, and every emitting row is among them |
| `Mapper.MappedRecords` | test_mapper.py:15-66 | what `map_test_data` writes: nothing on the skip at lines 22-24, on a missing test column or a row that raises (lines 65-66), or when no point qualifies (lines 58-63); otherwise the records of the qualifying rows. It has no `ensures`; its meaning is stated by `Mapper.MappedRecordsSound` and `Mapper.MappedRecordsInRowOrder`, and `Mapper.MapTestPoints` is proved equal to it |
| `Mapper.MappedRecordsSound` | test_mapper.py:22-56 | no records when `selected` or `max_devs` is empty; at most one record per test row; each record has a test row's x and y, delta >= 0, and a selected function whose tolerance at the same position bounds the delta |
| `Mapper.MappedRecordsInRowOrder` | test_mapper.py:28-66 | a fault in any row leaves no records; otherwise the records are those of the emitting rows in row order |
| `Mapper.MapTestPoints` | test_mapper.py:22-56 | the loop over test rows returns exactly `MappedRecords`, including the early skip and every fault path |
| `Mapper.PointDeviations` | test_mapper.py:31-42 | the loop over the selected functions builds exactly `Deviations`, or reports the failing lookup |
| `Mapper.LookupIdealY` | test_mapper.py:34-40 | the exact-match-then-nearest lookup returns exactly `IdealY` |
| `Mapper.FindExact` | test_mapper.py:34-35 | found iff the test x occurs in the ideal x column, and then the position is the first occurrence |
| `Mapper.FindNearest` | test_mapper.py:37 | the scan returns the first position of least absolute x difference |
| `Mapper.TestMapper.constructor` | test_mapper.py:10-13 | the mapper keeps the selector it is given |
| `Mapper.TestMapper.MapTestData` | test_mapper.py:15-56 | mapping with the selector's current lists returns exactly `MappedRecords` of those lists; with the selector's invariant, every record names an ideal function in 1..50 and has a non-negative delta |
| `Mapper.PipelineWithinTolerance` | test_mapper.py:50-56 | after a successful selection, every mapped record's function is in 1..50, was chosen by some training series i, and has delta <= tolerance of i |
| `Mapper.NearestRowExample` | test_mapper.py:37 | on the x grid {0, 1, 2, 3}, test x = 1.4 uses the row x = 1 |
| `Mapper.ExactFitExample` | test_mapper.py:41-56 | with function 7 through (5, 10) and tolerance 0, the point (5, 10) is kept with delta 0 and (5, 10.1) is dropped |

## Left out

- Database access is not modelled. This covers `read_sql_table`, sessions and `to_sql` with `if_exists='replace'`. The tables are parameters, and the written table is the returned sequence.
- Logging and the broad `except` handlers are left out. The selector's caught faults become "return with both lists unchanged". The mapper's become "no records".
- Floating point is left out: rounding, NaN and infinities. The model works on exact reals, so `SSE` and `abs` are exact, and NaN-skipping is modelled only for the row positions one column lacks.
- `Selector.Sqrt2` is the exact value of the double `np.sqrt(2)`. The product `SSE * sqrt(2)` is exact, not rounded.
- An exception inside the selector's final append loop is not modelled. With exact reals nothing there can raise, so partial appends cannot happen.
- Python list aliasing is not modelled. `get_selected_functions` returns the selector's own list object, and the mapper only reads it, so the model hands over the values.
- Column labels are the datatype `Column`, not strings. An index below zero (label "y-1") is treated as a missing column.
- Extra columns such as a row id play no part in the model. One consequence: a training frame with rows whose only columns are unmodelled is `Table(n, map[])`. The model reports it as `EmptyTraining`, while pandas finds it non-empty and the code logs the missing 'y1' instead (function_selector.py:27-30). Both lists stay unchanged either way.
- `Selector.SSEZeroWhenAgreeing`: only the "agreeing series have error zero" direction is proved. The converse needs nonlinear real reasoning that the solver does not carry out reliably here.
- visualizer.py (plotting only) is not part of this model.
- main.py (file checks and wiring) is not part of this model.
