# Premier League predictor: feature builder and inference contract

A Dafny model of the logic this match-outcome predictor owns itself:

- **The feature builder** (`pl-predictor/src/features.py`). `load_raw` reads a
  CSV of historical fixtures. It parses the `Date` column, renames the upstream
  columns `Home`/`Away`/`Winner` to `HomeTeam`/`AwayTeam`/`FTR`, sorts the rows
  by date with unparseable dates last, and numbers the rows with a dense,
  zero-based `match_id`. `build_training_table` checks the five canonical
  columns, reporting the missing ones in a fixed order. It then splits the
  records into features (the two team names) and labels (the full-time result).
- **The inference contract** (`pl-predictor/src/api.py`). The request body has
  its team names stripped of surrounding whitespace. `GET /health` always
  answers `{"status": "ok"}`. `POST /predict` turns the request into a
  one-element list of records, represented as a one-row frame, and returns the classifier's classes, with the codes
  `H`/`D`/`A` rendered as `home_win`/`draw`/`away_win`, together with its
  probabilities.

Files:

- `wrappers.dfy`: the `Option` and `Result` datatypes.
- `frames.dfy`: a data frame as an ordered list of column names plus rows of
  cells. It includes pandas column selection `df[names]`, which picks every
  column bearing a requested name, in the order of the requested names.
- `features.dfy`: `load_raw` as imperative code over an array of rows (a
  date-parsing loop, an in-place sort, an id-numbering loop) and
  `build_training_table` as a function.
- `api.dfy`: `str.strip`, the request body, the health response, the label map
  and the response of `predict`.

The file system and the CSV reader together are a map from paths to frames.
The day-first date parser is a function parameter that yields `None` where
pandas yields `NaT`. The fitted classifier is represented only by its class
list and its probability function.

`sort_values` uses its default algorithm, which is not stable, so the model
promises only date order with unparseable dates last, not the order of rows
with equal dates. Fixtures on the same day get different identifiers but the
same date, so identifiers follow non-decreasing date order (`DatesAscending`
with `IdsDense`).

## Model

| member | source | states |
|---|---|---|
| Frames.Select | pl-predictor/src/features.py:39 | `df[names]` keeps every row and only columns whose names were requested. Cell (i, k) of the result is row i's cell in a same-named input column, so rows never mix. |
| Frames.SelectColumns | pl-predictor/src/features.py:39 | the selection has a column of a name exactly when that name was requested |
| Frames.SelectDistinct | pl-predictor/src/features.py:39 | with distinct input names, the selected columns are exactly the requested names, in request order. Each cell is the input row's cell at that name's position. |
| Frames.SelectAt | pl-predictor/src/features.py:39 | with distinct input names, selecting names found at known positions yields those names as columns, and each row is the input row projected on those positions |
| Frames.SelectCopies | pl-predictor/src/features.py:39 | every selected column is a same-named input column, copied row by row |
| Frames.ColumnsCopiedTransitive | pl-predictor/src/features.py:42-43 | a selection from a selection still copies columns of the original row by row |
| Features.RenameColumn | pl-predictor/src/features.py:18-22 | `Home`→`HomeTeam`, `Away`→`AwayTeam`, `Winner`→`FTR`; every other name unchanged |
| Features.RenameColumns | pl-predictor/src/features.py:23 | same number of columns, each renamed where it stands, order unchanged |
| Features.RenameIdempotent | pl-predictor/src/features.py:18-23 | renaming an already renamed header changes nothing |
| Features.RenameKeeps | pl-predictor/src/features.py:18-23 | a name the map neither reads nor writes (such as `Date`, `match_id`) is present afterwards exactly when it was before, at the same position |
| Features.RenameCanonical | pl-predictor/src/features.py:18-23 | `HomeTeam`/`AwayTeam`/`FTR` is present afterwards exactly when it or its upstream name was present before |
| Features.RenameDistinct | pl-predictor/src/features.py:18-23 | renaming distinct names keeps them distinct unless a file holds both an upstream name and its canonical name |
| Features.ParseRow | pl-predictor/src/features.py:14-15 | the date cell is replaced by its parsed value (`None` when unparseable); every other cell kept |
| Features.ParsedRows | pl-predictor/src/features.py:15 | every row's date cell parsed, row count and order kept |
| Features.ParseDates | pl-predictor/src/features.py:13-15 | the array afterwards holds exactly the old rows with their dates parsed |
| Features.SortByDate | pl-predictor/src/features.py:26 | the rows afterwards are a permutation of the old rows (same multiset), ordered by date ascending with unparseable dates after all parsed ones |
| Features.WithId | pl-predictor/src/features.py:27 | the id cell is written over the existing `match_id` cell or appended; every other cell kept |
| Features.WithIds | pl-predictor/src/features.py:27 | row i receives identifier i |
| Features.AssignMatchIds | pl-predictor/src/features.py:26-27 | the array afterwards holds the old rows, row i carrying identifier i |
| Features.IdPosition | pl-predictor/src/features.py:27 | `match_id` is written at its existing column exactly when there is one, otherwise one past the last column |
| Features.WithIdColumn | pl-predictor/src/features.py:27 | the header afterwards has `match_id` at the id position; the existing names keep their positions, and one column is appended only when `match_id` was absent |
| Features.LoadRaw | pl-predictor/src/features.py:6-29 | a missing path fails with `FileNotFound` before anything is read. A file without `Date` fails at the sort. Otherwise the result is the parsed, renamed rows, permuted into date order and numbered. It keeps every row, is rectangular, has ids dense from zero and has dates ascending with nulls last. |
| Features.Normalise | pl-predictor/src/features.py:11-27 | the same outcome for an existing file: `NoSuchColumn("Date")` when `Date` is absent, otherwise the loaded frame described above |
| Features.LoadedShape | pl-predictor/src/features.py:26-27 | a loaded frame is rectangular and has as many rows as the file |
| Features.LoadedIds | pl-predictor/src/features.py:26-27 | in a loaded frame row i has `match_id` i |
| Features.LoadedDates | pl-predictor/src/features.py:13-26 | a loaded frame's dates ascend down the rows and a null date is never followed by a parsed one |
| Features.RequiredDistinct | pl-predictor/src/features.py:34 | the five required names are distinct, with `HomeTeam`, `AwayTeam`, `FTR` third to fifth |
| Features.MissingFrom | pl-predictor/src/features.py:35 | the reported names are exactly the required names absent from the columns, in their required order |
| Features.NoneMissing | pl-predictor/src/features.py:35-36 | nothing is reported missing exactly when all five required columns are present |
| Features.BuildTrainingTable | pl-predictor/src/features.py:32-45 | it succeeds exactly when all five required columns are present, otherwise fails with the ordered missing list. On success X and y have the input's row count, X's columns are named `HomeTeam`/`AwayTeam` and y's `FTR`. |
| Features.TrainingTableAligned | pl-predictor/src/features.py:39-43 | every column of X and of y is the same-named input column copied row by row, so row i of both comes from input row i |
| Features.TrainingTableColumns | pl-predictor/src/features.py:42-43 | with distinct input names, X is exactly (`HomeTeam`, `AwayTeam`) and y exactly (`FTR`), each row the input row's cells |
| Features.BaseColumns | pl-predictor/src/features.py:39 | with distinct input names, `df[required_cols]` is the five required columns in their fixed order |
| Features.PickFeatures | pl-predictor/src/features.py:42 | from five distinct columns with `HomeTeam`, `AwayTeam` third and fourth, X is those two columns in that order |
| Features.PickLabel | pl-predictor/src/features.py:43 | from five distinct columns with `FTR` fifth, y is that column |
| Features.SchemaWithId | pl-predictor/src/features.py:27 | with a `Date` column, the header after adding `match_id` has the full schema exactly when the team and result columns are present |
| Features.LoadThenBuild | pl-predictor/src/features.py:34-37 | after a load, the table builds exactly when the file had home team, away team and result under the upstream or canonical name |
| Api.TrimStart | pl-predictor/src/api.py:23 | the result is a suffix that drops only whitespace and starts with a non-space |
| Api.TrimEnd | pl-predictor/src/api.py:23 | the result is a prefix that drops only whitespace and ends with a non-space |
| Api.Trim | pl-predictor/src/api.py:20-23 | the result is a contiguous slice of the input with only whitespace outside it and no whitespace at either end |
| Api.StrippedUnique | pl-predictor/src/api.py:23 | at most one string satisfies that description |
| Api.TrimUnique | pl-predictor/src/api.py:23 | any string satisfying the description is what `Trim` returns |
| Api.TrimIdempotent | pl-predictor/src/api.py:20-23 | stripping twice is stripping once |
| Api.TrimPadding | pl-predictor/src/api.py:20-23 | adding whitespace around a name does not change the stripped name |
| Api.StrippedPadding | pl-predictor/src/api.py:23 | surrounding a string with whitespace does not change what counts as its stripped form |
| Api.Validate | pl-predictor/src/api.py:10-23 | both team names are stripped; the six form figures are unchanged |
| Api.ValidateIdempotent | pl-predictor/src/api.py:20-23 | validating a validated request changes nothing |
| Api.Dump | pl-predictor/src/api.py:33 | a one-row frame with exactly the eight declared fields as distinct columns in declaration order, from which the request reads back unchanged |
| Api.Health | pl-predictor/src/api.py:27-29 | the response has exactly one key, `status`, and it is `ok` |
| Api.HumanLabel | pl-predictor/src/api.py:37-39 | `H`→`home_win`, `D`→`draw`, `A`→`away_win`, any other code unchanged |
| Api.CodeOfHumanLabel | pl-predictor/src/api.py:37-39 | the code is recoverable from its label unless the code is itself a human label |
| Api.HumanLabelIdempotent | pl-predictor/src/api.py:37-39 | mapping a label again changes nothing |
| Api.MapClasses | pl-predictor/src/api.py:39 | same length as the class list; element i is the label of class i |
| Api.UnmapClasses | pl-predictor/src/api.py:37 | the reverse map applied element by element, same length |
| Api.MapClassesRoundTrip | pl-predictor/src/api.py:35-39 | when no class code is a human label, the original class list is recovered from the output, so order and content are kept |
| Api.MapClassesDistinct | pl-predictor/src/api.py:39 | under that condition distinct classes get distinct labels |
| Api.MapClassesAppend | pl-predictor/src/api.py:39 | mapping distributes over concatenation (order preserved) |
| Api.Predict | pl-predictor/src/api.py:31-41 | `classes` has the classifier's length with element i the label of class i. `probabilities` is the classifier's output for the dumped request row, unchanged. |
| Api.PredictIgnoresPadding | pl-predictor/src/api.py:20-41 | a request whose team names carry extra surrounding whitespace gets the same response as the request without it |

## Left out

- `pl-predictor/src/train.py`, `app.py`, `bkp_app.py` and `predict.py` are not part of this model. They cover scikit-learn training, HTML routes and a demo script.
- `make_encoder` is not modelled: it only constructs a library object.
- CSV reading is not modelled. The reader's output is an input, assumed rectangular and with distinct column names, as `pd.read_csv` makes repeated headers unique (`LoadRaw`'s requires).
- Day-first date parsing is not modelled: it is a caller-supplied function.
- Model loading (`joblib.load`, `MODEL_PATH`) and `predict_proba` numerics are left out. The class list and the probability function are parameters.
- Nothing ties the number of probabilities to the number of classes: the code does not check it, and it is a property of the classifier.
- BuildTrainingTable: y is returned as the one-column frame `base[["FTR"]]`; the program returns `base["FTR"]`, a Series, which carries the same cells in the same rows.
- Floats are modelled as `real`: neither rounding nor NaN is modelled.
- HTTP transport, request parsing failures other than the name validator, and the JSON encoding of responses are not modelled.
- SortByDate: promises date order and a permutation, not the order of rows with equal dates. The default sort algorithm does not fix that order.
- Exact column-order claims for selection (`SelectDistinct`, `TrainingTableColumns`, `BaseColumns`) are proved only for distinct column names. After renaming, a file with both `Home` and `HomeTeam` has two `HomeTeam` columns, and then `Select` keeps both, as pandas does. The weaker facts in `BuildTrainingTable` and `TrainingTableAligned` hold in every case.
- `str.strip` covers the characters Python treats as whitespace (`str.isspace`); nothing else about Unicode is modelled.
