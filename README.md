# NutriSync diet planner: a Dafny model of its core

NutriSync is a Streamlit app that recommends recipes from a diet dataset, estimates
calories from macronutrients, keeps a CSV meal log, charts a user's daily intake, and
computes energy targets from a saved profile. This project models the app's logic in
Dafny and proves what that logic promises:

- **Dataset cleaning** (`Preprocessing`, from `utils/preprocessing.py`):
  - `_find_col` is modelled as a nested search with an early return (`FindCol`), proved
    equal to a declarative characterisation (`ColumnFor`);
  - `load_cleaned` strips headers, resolves six roles by keyword, renames, coerces the
    three macro columns to numbers column by column, drops unparsable rows and
    duplicates the diet column under both spellings (`LoadCleaned`, proved equal to
    `Cleaned`).
- **Meal log** (`TrackerUtils`, from `utils/tracker_utils.py`): the log file is a
  `MealLog` object whose `fileExists`, `header` and `rows` fields the two savers update.
  `load_logs` reads it back. The clock is a parameter.
- **Recommender** (`Recommender`, from `utils/recommender.py`): the selection logic of
  `recommend_similar`, namely:
  1. first case-insensitive name match;
  2. exclude that index;
  3. order by score, highest first;
  4. `head(topn)`.

  The standardisation and cosine arithmetic are a function parameter.
- **Meal-plan page** (`MealPlan`, from `pages/meal_plan_recommender.py`):
  - the `calories_est` column;
  - the calorie estimator with its model and formula branches;
  - the diet, calorie-band, name and cuisine masks;
  - the session plan (`SessionPlan`), which is appended to, totalled and cleared once
    saved.
- **Tracker page** (`Tracker`, from `pages/tracker.py`): the fallback log writer, and
  the per-user daily aggregation (one row per date, ascending, with summed macros and
  calories).
- **Profile page** (`Profile`, from `pages/profile.py`): the saved profile record, and
  BMI, Mifflin-St Jeor BMR, TDEE and the goal-adjusted target, with the page's
  defaults.

Shared modules:

- `Wrappers`: `Option` and `Result`.
- `Cells`: pandas cells, where a missing value is `Null`.
- `Text`: Python's `strip`, ASCII `lower` and substring `in`.
- `Seqs`: order-preserving subsequences.
- `Energy`: the 4/4/9 kcal-per-gram rule both pages use.

How the environment is modelled:

- File contents are values.
- Parsing a string as a number or a date is a function parameter.
- The current time is a string parameter.
- A pickled calorie model is an outcome (`ModelOutcome`).
- Whether an optional import succeeds is a boolean parameter.
- Uncaught exceptions are explicit `Err` or `Crash` results.

For a 70 kg, 170 cm, 25-year-old man the formula at `pages/profile.py:77` gives
10·70 + 6.25·170 − 5·25 + 5 = 1642.5, and at moderate activity 1642.5 × 1.55 = 2545.875
(`Profile.ReferenceMan`).

## Model

| member | source | states |
|---|---|---|
| Preprocessing.FindCol | utils/preprocessing.py:10-22 | the nested keyword/column loop with early return yields exactly `ColumnFor`: the first header hit by the first keyword that hits any header, or `None` |
| Preprocessing.ColumnFor | utils/preprocessing.py:10-22 | `None` iff no keyword occurs, ignoring case, in any header; otherwise a header of the list that is the (unique) winning keyword/header pair |
| Preprocessing.WinnerUnique | utils/preprocessing.py:17-21 | at most one keyword/header pair satisfies the winning condition, so the result is determined |
| Preprocessing.FindIndexIgnoresCase | utils/preprocessing.py:16-20 | respelling headers or keywords with the same lower case does not change which position is found |
| Preprocessing.KeywordOrderWins | utils/preprocessing.py:17-21 | keyword order beats header order: for headers `dish_name, recipe_id` and keywords `recipe, name` the result is `recipe_id` |
| Text.ContainsIffSlice | utils/preprocessing.py:20 | the substring test used for `kw_lower in c` holds iff the keyword occurs at some position of the header |
| Text.Lower | utils/preprocessing.py:16 | lower-casing keeps the length and maps each ASCII capital to its small letter, leaving other characters alone |
| Text.Strip | utils/preprocessing.py:36 | the stripped header is the slice of the original that starts after its leading whitespace; only whitespace lies before and after it, and it has no whitespace at either end |
| Preprocessing.StripAll | utils/preprocessing.py:36 | every header is stripped, positions unchanged |
| Preprocessing.RenameMap | utils/preprocessing.py:55-65 | the map's keys are exactly the resolved headers; each role's canonical name is kept unless a later role resolved to the same header |
| Preprocessing.Rename | utils/preprocessing.py:67 | headers that are keys take their mapped name, all others are kept, positions unchanged |
| Preprocessing.LaterRoleOverwrites | utils/preprocessing.py:55-65 | when the recipe and diet roles resolve to one header it is renamed `diet_type` and no header is named `recipe_name` |
| Preprocessing.HeadersRenamed | utils/preprocessing.py:36-67 | after a successful load, header i is the stripped raw header, replaced by its canonical name iff some role resolved to it |
| Preprocessing.RenamedColumnsNoneIff | utils/preprocessing.py:39-53 | renaming is refused exactly when one of `protein`, `carb`, `fat` occurs in no stripped, lower-cased header |
| Preprocessing.RenameColumns | utils/preprocessing.py:36-67 | stripping the headers, the six keyword searches, the missing-macro refusal and the role-by-role rename map give exactly `RenamedColumns` of the raw headers |
| Preprocessing.FoundIsTruthy | utils/preprocessing.py:48 | for a non-empty lower-case keyword the found header is truthy iff some header contains it |
| Preprocessing.MissingMacroIffUnresolved | utils/preprocessing.py:48-53 | `load_cleaned` raises the missing-macro error iff one macro keyword matches no header |
| Preprocessing.PositionsFrom | utils/preprocessing.py:70-71 | succeeds iff each macro header occurs exactly once, giving its position; otherwise the KeyError/TypeError the loop raises |
| Preprocessing.PositionsErrorKind | utils/preprocessing.py:70-71 | the lookup only ever fails with the KeyError (name absent) or TypeError (name duplicated) |
| Preprocessing.ToNumeric | utils/preprocessing.py:71 | `to_numeric(errors="coerce")`: numbers and missing values are kept, text becomes its parsed value or NaN; never text afterwards |
| Preprocessing.CoercedRows | utils/preprocessing.py:70-71 | each row is coerced at the macro positions and keeps its length |
| Preprocessing.CoerceMacroColumns | utils/preprocessing.py:69-71 | the column-by-column loop fails exactly as `PositionsFrom` does and otherwise yields `CoercedRows` at those positions |
| Preprocessing.CoerceOneMore | utils/preprocessing.py:70-71 | coercing one more column extends the set of coerced positions by that column |
| Preprocessing.DropNonNumeric | utils/preprocessing.py:72 | `dropna`: the kept rows are exactly those with numbers at every macro position, in input order, each as often as in the input |
| Preprocessing.Numeric | utils/preprocessing.py:67-72 | the coerced, filtered frame is rectangular and keeps the renamed headers |
| Preprocessing.AddAlias | utils/preprocessing.py:75-78 | `df[to] = df[from]` adds a last column copying `from` when only `from` exists, refuses a duplicated `from`, and otherwise changes nothing |
| Preprocessing.Aliased | utils/preprocessing.py:74-78 | after both alias steps `diet_type` exists iff `Diet_type` does; at most one column is added and the old columns and cells are kept |
| Preprocessing.Cleaned | utils/preprocessing.py:24-80 | what `load_cleaned` returns or raises; a returned frame is rectangular |
| Preprocessing.LoadCleaned | utils/preprocessing.py:24-80 | the imperative load is exactly `Cleaned` of the file's contents |
| Preprocessing.CleanedOk | utils/preprocessing.py:67-80 | a successful load is the alias steps applied to the coerced, filtered, renamed frame |
| Preprocessing.AliasedCount | utils/preprocessing.py:74-78 | the alias steps leave every other header exactly as frequent as before |
| Preprocessing.AliasedKeepsNumeric | utils/preprocessing.py:74-78 | a uniquely named numeric column stays unique, in place and numeric through the alias steps |
| Preprocessing.LoadedMacrosNumeric | utils/preprocessing.py:69-78 | after a load each of `protein`, `carbs`, `fat` occurs exactly once and every row holds a number under it |
| Preprocessing.CoercedNumericIffParses | utils/preprocessing.py:71-72 | a coerced row is numeric at the macro positions iff every raw macro cell there converts |
| Preprocessing.KeptIffParses | utils/preprocessing.py:71-72 | `dropna` after coercion keeps the coerced form of exactly the raw rows that parse |
| Preprocessing.AliasedRows | utils/preprocessing.py:74-78 | up to the alias column every row is the row the alias steps were given |
| Preprocessing.LoadedRowsAreParsedRows | utils/preprocessing.py:69-78 | for the frame a successful load returns (see `CleanedOk`), the loaded rows up to the alias column are exactly `dropna` of the coerced input rows (so in input order and with duplicates kept), and an input row is kept iff all its macro cells convert |
| Preprocessing.AliasedDietCopies | utils/preprocessing.py:74-78 | when exactly one diet header existed, both now exist and hold the same cell in every row |
| Preprocessing.DietHeadersPaired | utils/preprocessing.py:74-78 | after any successful load `diet_type` exists iff `Diet_type` does |
| TrackerUtils.Write | utils/tracker_utils.py:19-22 | a write to a new file writes the header and the batch; to an existing file it appends the batch and keeps the header |
| TrackerUtils.Read | utils/tracker_utils.py:24-28 | `None` iff the file is missing; a file with no header line reads as headerless; any other file reads back as exactly its rows |
| TrackerUtils.PlanColumns | utils/tracker_utils.py:43 | the frame of an empty plan has no columns; a non-empty one has the seven log columns |
| TrackerUtils.PlanField | utils/tracker_utils.py:37-40 | `r.get(key, default)`: the recipe's value when present, the default when no recipe of the plan has the column, NaN otherwise |
| TrackerUtils.BuildPlanRows | utils/tracker_utils.py:32-42 | one row per recipe in plan order, each with the given user, commit date and time, and the recipe's name and macros per `PlanField`; the rows are exactly `PlanRows`, the value the save appends |
| TrackerUtils.PlanRows | utils/tracker_utils.py:32-42 | the plan rows as a value: one per recipe, row i built from recipe i |
| TrackerUtils.MealLog.constructor | utils/tracker_utils.py:6-7 | before any write there is no log file |
| TrackerUtils.MealLog.SaveUserLog | utils/tracker_utils.py:9-22 | the file afterwards is `Write` of exactly one row stamped with `now`; header only if the file was new |
| TrackerUtils.MealLog.LoadLogs | utils/tracker_utils.py:24-28 | returns `Read` of the current file |
| TrackerUtils.MealLog.SavePlanLog | utils/tracker_utils.py:30-47 | the file afterwards is `Write` of the plan rows, in plan order, with the plan frame's header if the file was new |
| TrackerUtils.WriteAppends | utils/tracker_utils.py:19-22 | writing to an existing log keeps every earlier row in place and puts the batch last |
| TrackerUtils.HeaderWrittenOnce | utils/tracker_utils.py:44-47 | after two writes the header is the one the creating write gave |
| TrackerUtils.NoDeduplication | utils/tracker_utils.py:9-22 | logging the same meal twice leaves two identical rows |
| TrackerUtils.ReadAfterWrites | utils/tracker_utils.py:24-47 | starting from no file, with a non-empty first batch, reading gives back all batches' rows in write order |
| TrackerUtils.EmptyPlanCreatesHeaderlessFile | utils/tracker_utils.py:43-47 | saving an empty plan to a missing log creates a file with no header line |
| Recommender.FeaturesOf | utils/recommender.py:13 | `fillna(0)`: a missing macro becomes 0, a present one is kept |
| Recommender.FeatureMatrix | utils/recommender.py:13-15 | one feature vector per recipe, in table order |
| Recommender.FirstMatch | utils/recommender.py:21-24 | `None` iff no name matches case-insensitively; otherwise the first matching row |
| Recommender.Others | utils/recommender.py:28 | `df.index != idx`: every row index except `idx`, ascending, no repeats |
| Recommender.SortDesc | utils/recommender.py:28 | a permutation of the indices with scores non-increasing |
| Recommender.Head | utils/recommender.py:28 | `head(topn)`: a prefix of length `min(topn, n)`, or all but the last `-topn` for negative `topn` |
| Recommender.Scores | utils/recommender.py:25-26 | one score per row: its similarity to the query row |
| Recommender.RecommendSimilar | utils/recommender.py:18-29 | the records are the selected rows' columns with their scores; no match gives `[]` |
| Recommender.RowsInRange | utils/recommender.py:28 | every selected index is a row of the table |
| Recommender.HeadOfSortedIsTopN | utils/recommender.py:28 | the head of the sorted distinct candidates is a top-N selection: distinct candidates, best first, none left out scoring higher |
| Recommender.UnmatchedGivesNothing | utils/recommender.py:22-23 | a name that matches no row gives an empty list |
| Recommender.RecommendationIsTopN | utils/recommender.py:18-29 | with a match at `idx`, the result is a top-`min(topn, n-1)` selection of all other rows by similarity to `idx`, never containing `idx` |
| Recommender.RecordsDescribeRows | utils/recommender.py:29 | record k carries the name, cuisine and macros of the k-th selected row and its similarity to the query row |
| Recommender.SameNameRowMayBeReturned | utils/recommender.py:27-28 | only the query index is excluded: another row with the same name can be recommended |
| MealPlan.RowKcal | pages/meal_plan_recommender.py:47 | 4·protein + 4·carbs + 9·fat of a row, NaN exactly when a macro is missing |
| MealPlan.WithCaloriesEst | pages/meal_plan_recommender.py:46-47 | an existing `calories_est` column is kept untouched; otherwise each row gets `RowKcal` and nothing else changes |
| MealPlan.WithCaloriesEstIdempotent | pages/meal_plan_recommender.py:46-47 | adding the column twice is adding it once |
| MealPlan.ComputedCaloriesAreMacroEnergy | pages/meal_plan_recommender.py:47 | a computed estimate equals the macro energy and the row's other columns are unchanged |
| MealPlan.EstimateCalories | pages/meal_plan_recommender.py:57-67 | the model's prediction when it loads and predicts; the formula otherwise, marked as fallback or formula |
| MealPlan.NoModelMeansFormula | pages/meal_plan_recommender.py:62-67 | without a working model the estimate is exactly the formula |
| MealPlan.DefaultEstimate | pages/meal_plan_recommender.py:54-67 | the default macros 20/30/10 g give 290 kcal by the formula |
| MealPlan.Where | pages/meal_plan_recommender.py:74 | `df[mask]`: the rows that pass, in original order (a subsequence) |
| MealPlan.WhereThenWhere | pages/meal_plan_recommender.py:74-86 | applying one more mask to the chain's result is applying the extended conjunction |
| MealPlan.WhereNothing | pages/meal_plan_recommender.py:82 | with no mask every row is kept |
| MealPlan.WhereCommutes | pages/meal_plan_recommender.py:83-86 | the order in which two masks are applied does not matter |
| MealPlan.DietChoice | pages/meal_plan_recommender.py:33 | the profile's diet, or `mediterranean` when none is saved |
| MealPlan.ActiveCriteria | pages/meal_plan_recommender.py:73-86 | the diet mask, then the band `[target - tol, target + tol]`, then the search mask iff the search is non-empty and the cuisine mask iff the cuisine is not `All` |
| MealPlan.DisplayedIsConjunction | pages/meal_plan_recommender.py:49-86 | the displayed rows are exactly the dataset rows passing every active mask, in dataset order |
| MealPlan.ShownRowsHaveMacroEnergyInBand | pages/meal_plan_recommender.py:46-74 | on a dataset without `calories_est`, every shown row is a dataset row with its macro energy added, all macros present, and that energy within the band |
| MealPlan.DisplayedMembersAndOrder | pages/meal_plan_recommender.py:49-86 | a row is shown iff it is a dataset row passing every active mask; shown rows keep their order among the diet rows |
| MealPlan.InactiveMasksKeepAll | pages/meal_plan_recommender.py:83-86 | an empty search and cuisine `All` filter nothing beyond diet and band |
| MealPlan.ToDict | pages/meal_plan_recommender.py:112 | `row.to_dict()` carries the recipe's name and macros under the dataset's column names |
| MealPlan.Dicts | pages/meal_plan_recommender.py:122 | one dict per session item, in order |
| MealPlan.PlanTotals | pages/meal_plan_recommender.py:122-126 | the total calories are 4·protein + 4·carbs + 9·fat of the summed macros |
| MealPlan.TotalIsSumOfItems | pages/meal_plan_recommender.py:123-126 | the plan's total energy equals the sum of its items' energies, missing macros counting 0 |
| MealPlan.AddingItemAddsMacros | pages/meal_plan_recommender.py:112-126 | adding an item adds its macros to each total |
| MealPlan.SessionPlan.constructor | pages/meal_plan_recommender.py:111 | a new session plan is empty |
| MealPlan.SessionPlan.AddRecipe | pages/meal_plan_recommender.py:99-113 | with the log helper the recipe is logged as one row dated today and the plan is unchanged; without it the recipe is appended to the plan and the log is unchanged |
| MealPlan.SessionPlan.SavePlan | pages/meal_plan_recommender.py:133-139 | saved iff the plan was non-empty and the write succeeded; then the log gains the plan's rows in order and the plan is cleared; otherwise nothing changes |
| MealPlan.SavedRowsCarryRecipes | utils/tracker_utils.py:33-42 | each saved plan row holds the session item's own name and macros, the user and the commit date |
| Tracker.UnionColumns | pages/tracker.py:70 | `concat` keeps the old columns in order, then adds each new name not yet present exactly once, in the order of the new columns |
| Tracker.FallbackWrite | pages/tracker.py:68-73 | a missing file is created with the six fallback columns and the entry; an existing one gains the entry after all old rows; a file with no header cannot be read |
| Tracker.FallbackSave | pages/tracker.py:58-73 | the file afterwards is `FallbackWrite` of the entry; on a read failure nothing changes |
| Tracker.FallbackKeepsRows | pages/tracker.py:69-71 | the fallback writer keeps every old row in place, puts the entry last, and the log reads back as old rows plus the entry |
| Tracker.FallbackKeepsSaverHeader | pages/tracker.py:69-71 | on a log the savers created, the fallback writer keeps the seven-column header |
| Tracker.ForUser | pages/tracker.py:89 | exactly the log rows whose user is the given name, in log order, each as often as it was logged |
| Tracker.Grams | pages/tracker.py:96 | a macro cell's contribution to `sum`: its number, 0 for NaN, none for text |
| Tracker.Entries | pages/tracker.py:95-96 | every row's parsed day and macros, or failure iff some date does not parse or some macro is text |
| Tracker.Days | pages/tracker.py:96 | the group keys: the distinct days of the entries, strictly ascending |
| Tracker.Aggregate | pages/tracker.py:96-97 | one row per distinct day, ascending, each with calories 4·protein + 4·carbs + 9·fat of its sums |
| Tracker.ViewAsWritten | pages/tracker.py:76-97 | as written: with the helper importable a missing log file crashes; without it the page shows no logs |
| Tracker.View | pages/tracker.py:76-97 | as intended: a missing file shows no logs; an existing file is read and aggregated as written |
| Tracker.MissingLogFileCrashes | pages/tracker.py:77-87 | the as-written page crashes on a missing file with the helper importable, where the intended page and the import fallback show "No logs yet" |
| Tracker.ViewsAgreeOnExistingFile | pages/tracker.py:76-86 | when the log file exists the as-written and intended pages agree |
| Tracker.NoAggregationWithoutUserRows | pages/tracker.py:86-91 | an empty log, or one with no row for the user, produces no daily table |
| Tracker.OtherUsersIgnored | pages/tracker.py:89 | another user's row does not change the current user's rows |
| Tracker.AggregateRowsAreDaySums | pages/tracker.py:96 | each daily row is a day with an entry, later than all earlier rows, holding that day's protein, carbs and fat sums |
| Tracker.EveryDayHasARow | pages/tracker.py:96 | every entry's day has a daily row |
| Tracker.DaySumsAddUp | pages/tracker.py:96 | the day sums over all days add up to the total over all entries |
| Tracker.MacrosConserved | pages/tracker.py:96-97 | each macro column of the daily table sums to that macro's total over the user's entries |
| Profile.SaveProfile | pages/profile.py:44-58 | the saved record holds exactly the form's eight values |
| Profile.SaveReplacesWholesale | pages/profile.py:44-56 | the saved record does not depend on what was saved before |
| Profile.SummaryProfile | pages/profile.py:61-62 | the session profile if any, else the loaded one when it is non-empty; no summary iff neither |
| Profile.Bmi | pages/profile.py:74 | BMI times the squared height in metres is the weight; undefined (division by zero) iff the height is 0 |
| Profile.ActivityFactor | pages/profile.py:80-81 | 1.2, 1.375, 1.725 for the named levels and 1.55 for Moderate, unknown or missing |
| Profile.Target | pages/profile.py:82-87 | 0.85·TDEE for weight loss, 1.1·TDEE for weight gain, TDEE otherwise |
| Profile.ComputeMetrics | pages/profile.py:74-87 | the figures are computed unless a stored height of 0 makes the BMI divide by zero; then BMI, BMR, TDEE and target follow the formulas with each missing field's default (70 kg, 170 cm, 25 years, male, moderate) |
| Profile.MaleGap | pages/profile.py:76-79 | for the same body the male BMR exceeds the other by exactly 166 kcal |
| Profile.BmrMonotone | pages/profile.py:77-79 | BMR increases with weight and height and decreases with age |
| Profile.GenderTest | pages/profile.py:76 | "Male", "MALE" and a missing gender count as male; "Female" and "Other" do not |
| Profile.ReferenceMan | pages/profile.py:77-81 | 70 kg, 170 cm, 25 years, male: BMR 1642.5 and, at moderate activity, TDEE 2545.875 |
| Profile.ModerateFactor | pages/profile.py:80-81 | Moderate and a missing level both give 1.55 |
| Profile.DefaultMetrics | pages/profile.py:74-87 | an empty profile gives BMI 7000/289, BMR 1642.5, TDEE and target 2545.875 |
| Profile.SavedProfileUsesForm | pages/profile.py:44-81 | a saved profile's figures use its own values, with no default |
| Profile.ActivityOrder | pages/profile.py:80-81 | with a positive BMR, each higher activity level gives a higher TDEE |
| Profile.GoalOrder | pages/profile.py:82-87 | with a positive TDEE, loss < maintain < gain |

## Findings

| source | as written | input that shows it | evidently intended | confidence | as-written member | corrected member |
|---|---|---|---|---|---|---|
| pages/tracker.py:77-86 | with the log helper importable, `logs = load_logs()` is `None` when no log file exists, and `logs.empty` raises AttributeError | first visit to the tracker page before any meal is logged (no `models/user_logs.csv`) | show "No logs yet", as the import fallback at lines 83-84 does with an empty frame | high; not executed | Tracker.ViewAsWritten | Tracker.View |

`Tracker.MissingLogFileCrashes` states both halves for the missing-file input.

## Left out

- Streamlit UI: widgets, layout, CSS, messages and charts are not modelled. Widget values (search text, tolerance, button presses) are parameters. The recipe listing order of `iterrows` is the displayed order.
- File-system and CSV/JSON I/O: files are values. Whether the dataset or log file exists is a state field or a parameter. CSV parsing and type inference are not modelled, so values written are the values read back. `read_json` and `json.load` failures are an empty profile.
- Clock: `datetime.now()` and `Timestamp.today()` are string parameters.
- Concurrency: two sessions writing the log at once are not modelled.
- Parsing numbers and dates: `pd.to_numeric` on a string and `pd.to_datetime` are function parameters (`parse`, `dayOf`).
- `train_calorie_model`: the RandomForest training in `utils/preprocessing.py:82-102` is not modelled. The saved model is the `ModelOutcome` of the estimator.
- Scaling and similarity: `StandardScaler` and `cosine_similarity` are the `similarity` parameter of the recommender. Floating-point arithmetic is modelled as exact `real`.
- Reading the recommender's dataset: `read_csv` and `str.strip` in `_build_features` are not modelled; the table is a parameter. A missing `Recipe_name` column (KeyError) is not modelled.
- Recommendation wiring (`pages/meal_plan_recommender.py:143-154`): calling `recommend_similar` on the first session item and showing the result is not modelled beyond `RecommendSimilar` itself.
- Recommender.SortDesc: pandas' sort is not stable, so the order among equal scores is unspecified. The model fixes one order, and every lemma holds for any order (`IsTopN`).
- Text.Lower: only ASCII letters are lower-cased; Python's Unicode case mapping is not modelled.
- MealPlan.Holds: `str.contains(search, case=False)` treats the search as a regular expression. The model treats it as a literal substring, so a search with regex metacharacters may match differently.
- The meal-plan page's KeyError when the dataset lacks `Protein(g)`, `Carbs(g)`, `Fat(g)`, `Diet_type`, `Recipe_name` or `Cuisine_type` is not modelled; the row type always has these columns.
- The cuisine options list (line 79) is not modelled; the chosen cuisine is any string.
- MealPlan.SessionPlan.SavePlan: a failing write is modelled as writing nothing. A partial write before an exception is not modelled.
- Tracker.Grams: a macro column holding text makes `sum` raise, modelled as a crash. An all-text column, which pandas would concatenate, is not distinguished.
- Tracker.FallbackWrite: a file with no header line is modelled as unreadable. When such a file holds rows, pandas would take its first row as the header. Rows with more values than the header (fallback and helper writers mixed) are not modelled.
- The descending sort of the displayed log table (`pages/tracker.py:94`) and the daily averages (lines 107-111) are not modelled.
- Profile form prefill (`pages/profile.py:29-41`): filling the form from the loaded profile, and the ValueError `list.index` raises for a stored value outside the options, are not modelled. JSON values of the wrong type are not modelled.
- MealPlan.SessionPlan.AddRecipe: the `helperAvailable` parameter is free, but `pages/meal_plan_recommender.py:7` already imports `save_user_log` at the top of the page, so the import inside the button (lines 101-105) always succeeds. As the page is written, `AddRecipe` never adds to the session plan, and the session summary and save (lines 115-139) are never reached. The model covers that path for the case the fallback was written for, a missing helper.
- `home.py` and `test.py` are not part of this model.
