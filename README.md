# Shopping classifier: loader and evaluator model

A Dafny model of the two pieces of logic in `shopping.py`, a program that
predicts whether an online shopping session ends in a purchase:

- **Row coercion and loading** (`load_data`). Each CSV row is 18 cells in header order.
  The row is rewritten in place, as the source rewrites its row dictionary:
  - `Month` goes through the 12-entry `MONTHS` table. June is spelled `June`, and an unknown name raises `KeyError`.
  - `VisitorType`, `Weekend` and `Revenue` become 0/1 by exact string equality.
  - The `INT_LABELS` columns go through `int(...)` and the `FLOAT_LABELS` columns through `float(...)`.
  - The first 17 cells are appended to `evidence` and the Revenue flag to `labels`.
  - The loop over rows stops at the first row that raises.
- **Evaluation** (`evaluate`). Two counting loops compute:
  - the actual positives (label 1);
  - the actual negatives (every other label);
  - the true positives and true negatives.
  Then it divides. A length mismatch raises `ValueError` before any counting. A zero divisor raises `ZeroDivisionError`.
- **Report counts** (`main`). The numbers of correct and incorrect predictions.

Modules: `Wrappers` (`Option`, `Result`), `Loader` (loader.dfy), `Evaluation`
(evaluation.dfy), `Report` (report.dfy).

Design choices:
- Each imperative routine is a `method` with loops. It is proved against a pure specification function: `Coerce` and `ConvertColumns` for the loader, `EvaluateSpec` and the count functions for the evaluator.
- Properties are proved about those functions as lemmas.
- Both of the evaluator's exceptions are modelled as `Err` results. There is no precondition.
- Rates are exact `real`s.
- The source divides by zero when one class is absent from the labels. The model therefore returns `Err(ZeroDivision)` exactly when there are no positive labels or no negative labels.
- A label other than 0 or 1 counts as a negative, as in the code (`else` branch at shopping.py:117-118). It can never be a true negative. Describing negatives as "labels equal to 0" would disagree with the code, and the model follows the code.

## Model

| member | source | states |
|---|---|---|
| Evaluation.EvaluateSpec | shopping.py:108-129 | what `evaluate` returns or raises: `LengthMismatch` exactly when the lengths differ, else `ZeroDivision` when P or N is 0, else (TP/P, TN/N). Its rates are never negative |
| Evaluation.Positives | shopping.py:114-116 | the count of the first loop's `if` branch: labels equal to 1, at most the number of labels |
| Evaluation.Negatives | shopping.py:117-118 | the count of the first loop's `else` branch: labels other than 1, at most the number of labels |
| Evaluation.TruePositives | shopping.py:121-122 | the second loop's count of positions where label and prediction are both 1, at most the number of labels |
| Evaluation.TrueNegatives | shopping.py:121-123 | the second loop's count of positions where label and prediction are both 0, at most the number of labels |
| Evaluation.TruePositivesAreHits | shopping.py:121-122 | TP is the size of the set of indices where label and prediction both equal 1 |
| Evaluation.TrueNegativesAreHits | shopping.py:121-123 | TN is the size of the set of indices where label and prediction both equal 0 |
| Evaluation.Evaluate | shopping.py:108-129 | unequal lengths give `LengthMismatch` before any counting. Otherwise the result is TP/P and TN/N from the two counting loops, or `ZeroDivision` when P or N is 0. Successful rates lie in [0,1] |
| Evaluation.PositivesPlusNegatives | shopping.py:114-118 | every label is counted once, as positive or negative: P + N = len(labels) |
| Evaluation.PositivesIsMultiplicity | shopping.py:114-118 | P is the number of occurrences of 1 among the labels; N is all the rest |
| Evaluation.TruePositivesBound | shopping.py:121-122 | TP <= P |
| Evaluation.TrueNegativesBound | shopping.py:121-123 | TN <= N, since a label of 0 is a label other than 1 |
| Evaluation.PerfectPredictions | shopping.py:121-123 | with 0/1 labels predicted exactly, TP = P and TN = N |
| Evaluation.RatesInUnitInterval | shopping.py:108-129 | evaluation succeeds iff the lengths agree and P > 0 and N > 0. Both rates are then in [0,1] |
| Evaluation.PerfectPredictionsScoreOne | shopping.py:121-129 | exact predictions of 0/1 labels with both classes present give sensitivity 1 and specificity 1 |
| Evaluation.DocstringExample | shopping.py:94-99 | labels [0,1,1,0] with predictions [0,0,1,1] give (0.5, 0.5) |
| Evaluation.MixedExample | shopping.py:114-127 | labels [1,0,1,0] with predictions [1,0,1,1] give (1.0, 0.5) |
| Evaluation.AllPositiveLabelsRaise | shopping.py:126-127 | labels all 1 leave N = 0, and the specificity division raises |
| Loader.MonthTable | shopping.py:48 | the month table's keys are exactly the 12 names ('June', not 'Jun'). It maps them in calendar order onto 0..11, one to one |
| Loader.ColumnsMatchLabels | shopping.py:49-50 | the integer and float column index lists are exactly the header positions of `INT_LABELS` and `FLOAT_LABELS`. Month, VisitorType, Weekend and Revenue sit at positions 10, 15, 16 and 17 |
| Loader.ColumnsCover | shopping.py:49-50 | every column except Revenue is converted by exactly one of the integer and float passes |
| Loader.Flag | shopping.py:60-62 | `int(raw == literal)` is 0 or 1, and 1 exactly when the string equals the literal |
| Loader.FlagIsCaseSensitive | shopping.py:60-62 | case variants of 'TRUE' and 'Returning_Visitor' coerce to 0 |
| Loader.Truncate | shopping.py:65 | `int` of a float truncates towards zero. `Coerce` never reaches it: line 65 sees only strings and the integers set at 59-61, and the source never truncates a float |
| Loader.Convert | shopping.py:65-66 | `int`/`float` of a cell gives an Int/Float cell. On a cell that is already of that type it is the identity |
| Loader.ConvertColumns | shopping.py:65-66 | a conversion pass over a list of columns keeps the row length |
| Loader.ConvertColumnsSpec | shopping.py:65-66 | a pass over distinct columns succeeds iff every listed cell converts. The listed cells are then converted and all others are unchanged |
| Loader.ConvertColumnsFailureSticks | shopping.py:65-66 | once a conversion raises, the whole pass fails |
| Loader.ConvertInPlace | shopping.py:65-66 | the in-place loop over the columns fails iff the pass fails. On success it leaves the row equal to the pass's result |
| Loader.CategoricalStep | shopping.py:59-62 | the row after the month lookup and the three flag coercions: 18 cells, of which exactly Month, VisitorType, Weekend and Revenue are no longer raw text |
| Loader.Coerce | shopping.py:59-66 | the row after the month lookup, the flags and the integer and float passes, in the source's order: an 18-cell row, or the first exception. An `UnknownMonth` error carries the row's month name, which is not a key of the table |
| Loader.FieldValue | shopping.py:48-66 | the value each column ends up with, defined by column name: never raw text. Only Month and the numeric columns can fail; the three flag columns always have a value |
| Loader.CategoricalCells | shopping.py:59-62 | after the month lookup and the three flags, each cell is either its final value or still the raw text |
| Loader.IntPass | shopping.py:65 | the integer pass succeeds iff every integer column has a value. It leaves the float columns as raw text |
| Loader.FloatPass | shopping.py:66 | the float pass succeeds iff every float column parses. It then holds their values |
| Loader.CoerceByColumn | shopping.py:59-66 | a row coerces iff every column has its by-name value, and then each cell holds that value. An unknown month gives `UnknownMonth(name)` before any numeric error. Any other failure is `InvalidNumber` |
| Loader.CoercedRowShape | shopping.py:59-70 | a coerced row has 18 cells and no text left. Its Revenue cell is the 'TRUE' flag and its Month cell is the table index |
| Loader.CoerceRow | shopping.py:57-66 | rewriting the row array in place yields exactly the coercion result, or its error |
| Loader.LoadData | shopping.py:57-72 | loading succeeds iff every row coerces. Evidence and labels then have one entry per row. Each evidence row is that row's first 17 coerced cells, all numeric. `labels[i]` is row i's Revenue == 'TRUE'. On failure, the error is the first failing row's |
| Report.Correct | shopping.py:23 | `(y_test == predictions).sum()`: the number of positions where the prediction is right, at most the number of test labels |
| Report.Incorrect | shopping.py:24 | `(y_test != predictions).sum()`: the number of positions where the prediction is wrong, at most the number of test labels |
| Report.CorrectPlusIncorrect | shopping.py:23-24 | Correct + Incorrect = number of test labels |
| Report.CorrectIsHits | shopping.py:23 | over 0/1 values, Correct = TP + TN as counted by the evaluator |

## Left out

- Opening the file, `csv.DictReader` and re-raising `FileNotFoundError` with the path (shopping.py:53-55, 74-75). These are I/O. The model starts from the rows as sequences of strings.
- Column layout: rows are taken to have the 18 header columns in header order (`LoadData`'s requires). Python's reliance on dict insertion order for the 17-value slice is replaced by this explicit order. Rows with missing or extra fields, which `DictReader` pads with `None` or collects under a `None` key, are not modelled.
- String parsing by `int(str)` and `float(str)` is not defined. It is a parameter (`Parsers`) that returns `None` where Python raises `ValueError`.
- `Convert`: parsed float values are exact reals, so the IEEE rounding of parsing is not modelled.
- `Evaluate`: the two rates are exact reals, so the IEEE rounding of the two divisions is not modelled.
- The iteration order of the `INT_LABELS` and `FLOAT_LABELS` sets is unspecified in Python. The model uses ascending column order. Every numeric failure is the same `InvalidNumber` error, so the order does not change any outcome. Python's message would name the offending text.
- `train_test_split` and `KNeighborsClassifier` fit/predict (shopping.py:15, 18-19) are external library routines with random partitioning.
- Argument checking, `sys.exit` and the four `print` lines with two-decimal percentages (shopping.py:10-11, 23-26) are glue. Only the two counts they print are modelled, in `Report`.
