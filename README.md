# MillGuard predictive maintenance — verified model of the feature and explanation core

MillGuard predicts machine failure from five sensor readings and a product
quality type, using a logistic-regression pipeline behind a FastAPI service
and a Streamlit dashboard. This project models, in Dafny, the deterministic
table and sequence logic that sits around the opaque classifier. It covers:

- **Serving-time feature row** (`app/inference.py`). A prediction request
  becomes a one-row frame on the preprocessor's expected columns:
  - every expected column starts as NaN;
  - six request fields are copied in;
  - `Temp Delta [K]` is derived from the two temperature columns;
  - the five failure-mode flags are forced to 0.
- **Explanations** (`app/explanation.py`,
  `src/interpretation/feature_importance.py`):
  - global importance is the expanded feature names ranked by |coefficient|;
  - local contribution is value × coefficient, ranked by |contribution|;
  - the offline importance table is every feature ranked by |coefficient|.
- **Service glue** (`app/main.py`, with the dashboard's cut-points from
  `app/app.py`):
  - the expected schema is the concatenation of the transformers' column lists;
  - the HIGH/MEDIUM/LOW risk policy;
  - the echoed operating condition;
  - the assembly of the response.
- **Training-side table code** (`src/data/clean_data.py`,
  `src/features/build_features.py`):
  - identifier columns are dropped;
  - boolean columns become 0/1 integers;
  - torque is clipped at 0;
  - the temperature delta is derived.

How the model is laid out:

- A pandas frame is a `Frames.Table` value: an ordered list of distinct
  column names, one typed column per name, and a row count.
- Code that mutates a frame works on a `Frames.DataFrame` object. Its
  methods follow pandas:
  - `Assign` replaces an existing column in place, or appends a new one;
  - `Drop` removes named columns and keeps the others in order;
  - `Copy` makes a new object, and the caller's object is never in any
    `modifies` clause.
- `Cells` models a cell as NaN (`Missing`), a float (an exact `real`), an
  int, a bool or a string. Each column has a dtype.
- pandas' `sort_values` is not stable by default. So every ranking is
  specified as "the head of *some* descending order of the keys", and
  `Ranking.RankingsAgreeOnKeys` proves that all such orders agree on the key
  values position by position.

Behaviour of the code that a reader might not expect:

- Ties in the global ranking are broken by the sort's own (unspecified)
  order, not by original feature order.
- The global result is a list of names, not (name, coefficient) pairs.
- `build_input_df` writes `Temp Delta [K]` even when it is not an expected
  column. It is then appended after the expected columns (`Inference.RowColumns`).
- `app/inference.py` spells the temperature columns "Air temperature [K]" and
  "Process temperature [K]". `src/features/build_features.py` spells them
  "Air Temperature [K]" and "Process Temperature [K]". Both spellings are
  kept as written (`Inference.AirCol`, `BuildFeatures.AirCol`), so the
  serving and training builders react to different column names.

## Model

| member | source | states |
|---|---|---|
| Sequences.Dedup | app/inference.py:7 | the keys of the dict comprehension: no name twice, and exactly the names of the input |
| Sequences.DedupInOrder | app/inference.py:7 | the distinct names keep the order of their first occurrence |
| Sequences.Without | src/data/clean_data.py:9 | dropping names keeps exactly the names not dropped, with no repeats created |
| Sequences.WithoutInOrder | src/data/clean_data.py:9 | the columns left after a drop keep their original relative order |
| Sequences.Within | src/data/clean_data.py:9 | `[c for c in DROP_COLS if c in df.columns]` lists exactly the identifiers that are present |
| Cells.Broadcast | app/inference.py:20 | assigning a scalar fills every row with that value, in a column whose dtype can hold it |
| Cells.Minus | app/inference.py:27-30 | element-wise subtraction with True and False read as 1 and 0: the result is an int exactly when no float is involved; NaN exactly when a float subtraction meets NaN on either side; otherwise its value is the difference |
| Cells.ColumnMinus | src/features/build_features.py:11-13 | subtraction of bool, int and float columns, except bool from bool: the input length; each cell is the element-wise difference; the dtype is int exactly when neither column is a float column |
| Frames.Assigned | app/inference.py:20 | `df[c] = col` replaces an existing column where it stands, or appends a new one last; all other columns are unchanged; the frame stays well formed |
| Frames.Dropped | src/data/clean_data.py:9 | `drop(columns=...)` removes exactly those names, keeps the other columns and their data, and keeps the row count |
| Frames.ColumnsOfDtype | src/data/clean_data.py:12 | `select_dtypes` yields exactly the columns of that dtype, each once |
| Frames.DataFrame.FromRecord | app/inference.py:7 | a one-row frame with one column per distinct name, in first-occurrence order, each holding the given value |
| Frames.DataFrame.Copy | src/data/clean_data.py:6 | `copy()` is a new frame with the same value |
| Frames.DataFrame.AssignScalar | app/inference.py:20 | `df[c] = v` with a scalar changes the frame exactly as `Assigned` with `v` repeated down every row |
| Frames.DataFrame.Assign | app/inference.py:27 | in-place column assignment changes the frame exactly as `Assigned` says |
| Frames.DataFrame.Drop | src/data/clean_data.py:9 | in-place drop of present names changes the frame exactly as `Dropped` says |
| Inference.NamesDistinct | app/inference.py:4-16 | the six mapped names, the five failure-mode names and the delta name are pairwise different |
| Inference.BuildInputDf | app/inference.py:6-37 | for every request and expected list, with no error: one row; columns are the distinct expected names, plus the delta appended only if both temperatures are expected and it is not; each column holds its `BuiltValue` |
| Inference.CopyRequestFields | app/inference.py:18-20 | each mapped name that is a column takes its request field; the column set is unchanged |
| Inference.DeriveTempDelta | app/inference.py:23-30 | with both temperature columns, the delta column is process minus air and is added if absent; otherwise nothing changes |
| Inference.ZeroFailureModes | app/inference.py:33-35 | each failure-mode flag that is a column becomes 0; nothing else changes |
| Inference.RowColumns | app/inference.py:7-30 | every expected name is a column of the built row; the delta is a column exactly when it is expected or both temperatures are expected |
| Inference.BuiltValue | app/inference.py:9-35 | a column's value is an int exactly for the failure-mode flags, and NaN exactly for a name that no mapping, flag or delta writes |
| Inference.BuiltValueFields | app/inference.py:9-35 | a mapped column holds its request field; the delta is process minus air when both temperatures are expected; failure modes are 0; any other expected column stays NaN |
| Inference.RowColumnsSpec | app/inference.py:7-30 | the row has no repeated column; a name is a column exactly when it is expected, or it is the delta with both temperatures expected; expected names keep first-occurrence order |
| Ranking.Magnitudes | app/explanation.py:13 | `np.abs` element-wise: the same length, each entry the absolute value |
| Ranking.RankPrefixIsRanking | app/explanation.py:14 | the sort yields a permutation of all positions with non-increasing keys |
| Ranking.RankDescending | src/interpretation/feature_importance.py:17 | a descending sort by key: a permutation of the positions with non-increasing keys |
| Ranking.InsertDistinct | src/interpretation/feature_importance.py:17 | inserting a new position into a list without repeats keeps it without repeats |
| Ranking.InsertDescending | src/interpretation/feature_importance.py:17 | inserting a position after every larger-or-equal key keeps the keys non-increasing |
| Ranking.HeadLength | app/explanation.py:16 | `head(n)` takes min(n, rows) rows, or all but the last abs(n) rows for negative n |
| Ranking.HeadOfRankingIsTop | app/explanation.py:14-16 | the head of any descending order is a valid top-k: distinct positions, non-increasing keys, and no omitted position with a larger key |
| Ranking.RankingsAgreeOnKeys | app/explanation.py:14 | any two descending orders of the same keys have equal keys at every position, so ties are the only freedom |
| Ranking.NotBelow | app/explanation.py:14 | the i-th key of one descending order is at least the i-th key of any other |
| Explanation.GlobalFeatureImportance | app/explanation.py:4-16 | length min(top_n, n), with pandas' negative top_n; the names are the head of some descending abs(coef) order; distinct positions; non-increasing abs(coef); no omitted feature has a larger abs(coef) |
| Explanation.GlobalImportanceUpToTies | app/explanation.py:11-16 | whatever order the sort picks, the i-th name has the i-th largest abs(coef) |
| Explanation.Contributions | app/explanation.py:24 | each contribution is the transformed value times the coefficient at the same index |
| Explanation.ContributionsSumToDot | app/explanation.py:24 | the full contribution vector sums to the dot product of the row and the coefficients |
| Explanation.ContributionsSumToLogit | app/explanation.py:23-24 | the sum of all contributions plus the intercept is the classifier's decision value |
| Explanation.Records | app/explanation.py:26-34 | `to_dict(orient="records")` of the selected rows: one record per selected position, pairing that position's feature name and contribution, in order |
| Explanation.LocalContribution | app/explanation.py:19-34 | length min(top_n, n); the records are the head of some descending abs(contribution) order, a valid top-k, with non-increasing abs(contribution) |
| Explanation.LocalRecordsArePaired | app/explanation.py:26-34 | each record pairs a feature name with that same feature's value × coefficient, from distinct positions |
| FeatureImportance.ImportanceRows | src/interpretation/feature_importance.py:11-15 | row i pairs feature i with its own coefficient and abs(coefficient) |
| FeatureImportance.PickInsert | src/interpretation/feature_importance.py:17 | inserting a position into the order adds exactly that row to the multiset of rows |
| FeatureImportance.PickRankPrefix | src/interpretation/feature_importance.py:17 | sorting the first n positions picks exactly the first n rows, as a multiset |
| FeatureImportance.ExtractFeatureImportance | src/interpretation/feature_importance.py:4-17 | a permutation of the unsorted rows (every feature once, nothing truncated); abs_coefficient = abs(coefficient); non-increasing abs_coefficient; the rows in some descending abs(coef) order |
| FeatureImportance.ImportanceTableMatchesGlobal | src/interpretation/feature_importance.py:17 | the API's i-th global name has the abs(coefficient) of the offline table's i-th row |
| Api.Concat | app/main.py:22-25 | every column of every transformer is an expected column |
| Api.ConcatAppend | app/main.py:23-25 | concatenating two runs of transformers gives the concatenation of their column lists |
| Api.ExpectedColumns | app/main.py:22-25 | the extend loop builds the in-order concatenation of every transformer's column list |
| Api.ConcatMembership | app/main.py:23-25 | a name is expected exactly when some transformer consumes it |
| Api.ConcatLayout | app/main.py:23-25 | each transformer's columns appear as one block, right after those of the transformers before it |
| Api.Tier | app/main.py:40-48 | HIGH exactly when p ≥ 0.7, MEDIUM exactly when 0.4 ≤ p < 0.7, LOW exactly when p < 0.4 |
| Api.RiskBucket | app/main.py:39-48 | p ≥ 0.7 gives HIGH with "Immediate maintenance recommended"; 0.4 ≤ p < 0.7 gives MEDIUM with "Monitor closely and prepare maintenance"; p < 0.4 gives LOW with "Normal operation"; each is an if-and-only-if, so every p lands in exactly one tier |
| Api.RiskMonotone | app/main.py:40-48 | a larger probability never gives a lower tier |
| Api.DashboardMessage | app/app.py:103-108 | the dashboard's three messages, each an if-and-only-if on the same cut-points 0.7 and 0.4 |
| Api.DashboardAgreesWithService | app/app.py:103-108 | two probabilities get the same dashboard message exactly when they get the same service tier |
| Api.OperatingCondition | app/main.py:55-62 | exactly six keys; five echo the request unchanged; temp_delta is process minus air |
| Api.OperatingDeltaMatchesRow | app/main.py:58 | the echoed temp_delta equals the delta written into the feature row |
| Api.Predict | app/main.py:33-64 | the response holds the given probability, the risk bucket of it, both explanations with top_n = 5 (both of length min(5, n)) and the operating condition |
| CleanData.BoolAsInt | src/data/clean_data.py:13 | True becomes 1 and False becomes 0 |
| CleanData.AsIntColumn | src/data/clean_data.py:13 | `astype(int)` of a bool column is an int column of the same length, each cell the 0/1 of the bool in the same row |
| CleanData.BoolsAsInt | src/data/clean_data.py:12-13 | every bool column is replaced by its int column where it stands; every other column, the column order and the row count are unchanged |
| CleanData.ClipCell | src/data/clean_data.py:17 | after clipping a value is NaN or non-negative; negatives become exactly 0 of the same kind; non-negatives and NaN are unchanged |
| CleanData.ClipColumn | src/data/clean_data.py:17 | `clip(lower=0)` of a numeric column, or of an object column holding only NaN: keeps the dtype and length and clips each cell as `ClipCell` does |
| CleanData.ClipTorque | src/data/clean_data.py:16-17 | with a torque column, torque becomes its clipped column; without one nothing changes; other columns, the order and the row count are kept |
| CleanData.Cleaned | src/data/clean_data.py:5-19 | the value `clean_data` returns: well formed, the same row count, and the columns are exactly the input's columns other than "UID" and "Product ID" |
| CleanData.ClipZeroOneColumn | src/data/clean_data.py:12-17 | clipping a converted 0/1 column leaves it unchanged |
| CleanData.CleanData | src/data/clean_data.py:5-19 | the caller's frame is untouched; the result is a new frame holding `Cleaned` of its value; a missing identifier column does not raise |
| CleanData.IntifyBools | src/data/clean_data.py:12-13 | the loop turns every boolean column, and only those, into its integer column |
| CleanData.IntifyColumn | src/data/clean_data.py:13 | one boolean column is replaced in place by its integer column |
| CleanData.CleanedColumns | src/data/clean_data.py:3-9 | "UID" and "Product ID" are absent; every other column is kept, in original relative order; the row count is unchanged |
| CleanData.CleanedBools | src/data/clean_data.py:12-13 | a boolean column becomes an int column with True as 1 and False as 0 |
| CleanData.CleanedMissingTorque | src/data/clean_data.py:16-17 | an object torque column holding only NaN is accepted and comes out unchanged |
| CleanData.CleanedTorque | src/data/clean_data.py:16-17 | torque keeps its dtype; every value is non-negative or NaN; negatives become exactly 0; non-negatives are unchanged |
| CleanData.CleanedOthers | src/data/clean_data.py:5-19 | columns that are neither identifiers, booleans nor torque keep every value |
| BuildFeatures.WithTempDelta | src/features/build_features.py:3-15 | accepts any frame whose two temperature columns, when both present, are subtractable; without both temperature columns the output is the input; otherwise the delta is present; the other columns are unchanged; the row count is kept; a new delta is appended last |
| BuildFeatures.BuildFeatures | src/features/build_features.py:3-15 | the caller's frame is untouched; the result is a new frame holding `WithTempDelta` of its value |
| BuildFeatures.DeltaPerRow | src/features/build_features.py:7-13 | with both temperatures, each row's delta is process minus air, booleans counting as 1 and 0; it is NaN exactly when either side is; it is an int exactly when neither side is a float |

## Left out

- The fitted preprocessor's `transform`, the classifier's `predict_proba` and
  the sigmoid are opaque scikit-learn numerics. They are inputs here:
  - the transformed row `x` and the probability `prob` are parameters of `Api.Predict`;
  - feature names, coefficients and intercept come as an `Explanation.LinearModel`.
- Model loading with `joblib`, FastAPI routing, the `/health` endpoint and
  pydantic validation of requests and responses (`app/schemas.py`) are library
  behaviour.
- The Streamlit widgets and layout of `app/app.py` are out of scope; only its
  message cut-points are modelled.
- Encoders, training, grid search, evaluation and metrics; the randomised
  train/test split; permutation importance; plots; the pipeline script. All of
  these are library calls, randomness or I/O.
- Floating point: temperatures, coefficients and contributions are exact
  reals, and NaN is the `Missing` cell. Rounding, infinities and signed zero
  are not modelled, and neither is 64-bit integer overflow in `astype(int)`
  or subtraction.
- The concrete tie order of pandas' sort (quicksort) is not modelled. Every
  contract holds for any descending order.
- Frames with duplicate column labels are not modelled. `Frames.WellFormed`
  requires distinct names; `build_input_df` guarantees this by building from a dict.
- The row index of a frame is not modelled. Only column order, dtypes and cell
  values are.
- CleanData.CleanData: requires that a torque column, if present, holds no text.
  Numeric, boolean, and object columns with only NaN (or no rows) are accepted.
  On text pandas raises TypeError, and that error path is not modelled.
- CleanData.Cleaned: the same requires as `CleanData.CleanData`, for the same
  reason: a torque column holding text is refused, not modelled as raising.
- BuildFeatures.BuildFeatures: when both temperature columns are present, requires
  that neither is an object column and that they are not both boolean. On text,
  and on bool minus bool, pandas raises TypeError, and that error path is not
  modelled. An object column holding only NaN (or no rows), which pandas does
  subtract, is refused as well. A frame missing either temperature column is
  accepted whatever the other column holds.
- BuildFeatures.WithTempDelta: the same requires as `BuildFeatures.BuildFeatures`.
  With both temperature columns present, it refuses text columns and bool minus
  bool, where pandas raises, and an object column holding only NaN (or no rows),
  which pandas subtracts.
- Api.Predict: takes the expected column list as a parameter. In the service
  it is computed once at start-up by `Api.ExpectedColumns`.
- Explanation.LocalContribution: requires the transformed row to have one
  value per coefficient, which the fitted transform always gives to `predict`.
  On other lengths numpy or pandas raise, except that a one-value row is
  broadcast across every coefficient. Neither case is modelled.
