# LemonDS churn pipeline: the deterministic layer, in Dafny

This project models the decision logic of a churn pipeline, with everything
around that logic left out. It covers four stages:

1. The engagement filter of `DataProcessor.define_engagement`.
2. The feature engineering of `DataProcessor.transform`.
3. The threshold choice, predictions and list of users to treat in the churn
   script.
4. The A/B split, ROI projection and power verdict of `run_growth_design`.

The library calls the pipeline makes become inputs:

- the trained model's probabilities;
- the precision/recall curve;
- the 99th-percentile caps;
- the numeric parse of a text cell;
- the seeded random draws;
- the required sample size per group.

Modules, one per component:

- `Strings`: substring test on column names (Python's `p in s`).
- `Seqs`: boolean-mask selection (`df[mask]`). It provides the kept elements and the positions they come from.
- `Frames`: cells (`Num`, `Text`, `Missing`), tables as rows of column-to-cell maps, numeric frames, and the error cases pandas and Python raise.
- `Engagement`: `define_engagement`.
- `Features`: `transform`.
- `Threshold`: `ChurnPredictor.__init__`, the effect of `train_optimized` on the predictor, and `evaluate`.
- `Targeting`: the `usuarios_a_tratar` table and its `is_target` filter in `__main__`.
- `Growth`: `run_growth_design`.

Exceptions the code raises become `Err` values of a `Result`:

- `ValueError` without data;
- `KeyError` on a missing column;
- `TypeError` comparing text with a number;
- an integer cast of NaN;
- `IndexError` past the thresholds;
- `AttributeError` from evaluating a predictor that has no trained model;
- `ValueError` from building a table out of columns of unequal length;
- `ValueError` from the argmax of an empty array;
- `ZeroDivisionError` in the ROI;
- a missing input file.

Numbers are exact reals.

## Model

| member | source | states |
|---|---|---|
| Engagement.TxTotalCountsTxColumns | preprocess_data.py:32-36 | the transaction total sums exactly the columns whose name contains `_tx_amount`, each once: changing such a cell moves the total by the change, changing any other cell leaves it alone |
| Engagement.AnnotateRow | preprocess_data.py:36-44 | a row gains exactly `total_avg_tx_count` and `is_engaged`, keeps every other cell, and is flagged exactly when tenure >= 2 and (logins >= 1 or transaction total >= 1) |
| Engagement.Annotate | preprocess_data.py:36-44 | the loaded table after the filter ran keeps every row, each annotated, and appends the two new columns to its column list |
| Engagement.DefineEngagement | preprocess_data.py:22-50 | fails with no data loaded; otherwise succeeds exactly when the rule's columns exist and hold no text; the processor then holds the loaded table annotated with the two new columns, and the result has the input's columns plus the two new ones and at most as many rows |
| Engagement.EngagedExactly | preprocess_data.py:44-47 | the returned rows are exactly the rows satisfying the rule, in original order, each the original row plus the two new columns |
| Engagement.ShortTenureNeverEngaged | preprocess_data.py:39 | a user with tenure below 2 (or unknown) is never engaged |
| Engagement.TransactingUserEngaged | preprocess_data.py:33-44 | tenure 3, no logins and one transaction column holding 2 gives a total of 2 and an engaged user |
| Engagement.RuleMonotone | preprocess_data.py:39-40 | more tenure, logins or transactions never turn an engaged user into a disengaged one |
| Features.Truncate | preprocess_data.py:65 | the integer cast of a float rounds toward zero |
| Features.Clip | preprocess_data.py:77 | a clipped value is at most the cap, and a value already at most the cap is unchanged |
| Features.Prepare | preprocess_data.py:67-77 | a coerced, capped row has one entry per column other than the identifier and the label; an uncapped column holds the cell's number, the parsed number of a text cell, or 0 for a missing or unparseable cell; a column whose name holds `volumen` or `amount` is at most its cap, equal to the coerced value when that is within the cap and to the cap otherwise |
| Features.DeriveRow | preprocess_data.py:79-91 | the three derived columns are added and nothing else changes; ratio times (transaction total + 1) is the earn transactions; breadth counts the positive product volumes and lies in 0..3; net flow plus cash-out is cash-in |
| Features.BreadthCounts | preprocess_data.py:84-88 | the sum of the three positive-volume indicators equals the number of active product lines, at most 3 |
| Features.DerivedValues | preprocess_data.py:79-99 | after the leak drop the three derived values survive with the ratio, count and difference meanings above |
| Features.Featurize | preprocess_data.py:79-99 | the feature row has the prepared columns plus the derived ones minus the leaks, and every kept prepared value is unchanged |
| Features.FeatureRow | preprocess_data.py:60-99 | one input row's features: its columns plus the derived ones minus the leaks, each kept column holding that cell's coerced, capped value |
| Features.FeatureColumns | preprocess_data.py:93-99 | X's column list holds exactly the input's columns plus the derived ones minus every leak column, without repetitions |
| Features.Transform | preprocess_data.py:53-102 | an uncastable label, then the first missing column the derived features read, then a missing identifier column, is an error; success exactly when labels cast, those columns exist and every ratio is finite |
| Features.TransformAligned | preprocess_data.py:99-102 | X, the identifiers and (when present) y have one entry per input row in input order, each computed from that row; y is present exactly when the label column is |
| Features.AssembleLabels | preprocess_data.py:63-65 | y holds, per row, the integer cast of that row's label, and exists exactly when the label column does |
| Features.TransformColumns | preprocess_data.py:93-99 | X is a proper table, and its columns are the input's plus the derived ones minus every leak column |
| Features.CappedColumnsBounded | preprocess_data.py:74-77 | in X every capped column is at most its cap, and a value already at most its cap arrives unchanged |
| Features.FeaturesCoerced | preprocess_data.py:67-72 | an uncapped kept column in X holds the cell's number, the parsed number of a text cell, or 0 for a missing or unparseable cell |
| Features.CapIdempotent | preprocess_data.py:74-77 | capping an already capped row changes nothing |
| Threshold.NewPredictor | churn_prediction.py:28-30 | a fresh predictor has no model and classifies at 0.5 |
| Threshold.Train | churn_prediction.py:32-52 | training stores a model and leaves the threshold as it was |
| Threshold.F1 | churn_prediction.py:59 | the guarded F1 is always defined on rates, lies in [0, 1), and is 0 exactly when precision or recall is 0 |
| Threshold.ArgMax | churn_prediction.py:60 | the chosen index holds the largest score and no earlier index ties it; an empty sequence is an error |
| Threshold.FirstMaxUnique | churn_prediction.py:60 | the first maximum is unique, so the chosen threshold is determined by the scores |
| Threshold.Evaluate | churn_prediction.py:54-62 | a predictor without a trained model fails first; otherwise the adopted threshold is the threshold of the first point of best F1, predictions use it, an empty curve or an index past the thresholds is an error, and a trained predictor on a curve of the library's shape always succeeds |
| Threshold.BestHasThreshold | churn_prediction.py:58-60 | on a curve with one more point than thresholds, ending at precision 1 and recall 0, the first best point always has a threshold |
| Threshold.Predict | churn_prediction.py:62 | one 0/1 prediction per probability, 1 exactly when the probability reaches the threshold |
| Threshold.PredictMonotone | churn_prediction.py:62 | raising the threshold never turns a 0 prediction into a 1 |
| Targeting.ScoreTable | churn_prediction.py:113-124 | a missing raw column or derived feature, or columns of different lengths, is an error; otherwise one record per user with that user's id and probability and `is_target` 1 exactly when the probability reaches the threshold |
| Targeting.Interventions | churn_prediction.py:126-127 | the intervention list has at most as many users as were scored, each with `is_target` 1 and probability at least the threshold |
| Targeting.InterventionsExactly | churn_prediction.py:113-127 | the list holds exactly the users whose probability reaches the threshold, in input order, each record taken from that same user's id, probability, raw row and feature row |
| Targeting.SameSelection | churn_prediction.py:116-127 | filtering on `is_target == 1` keeps the same positions as filtering on probability >= threshold |
| Targeting.ScoresOfTransform | churn_prediction.py:90-124 | on an engaged table that `transform` accepts, the list can be built, and each user's record carries the filled identifier, the active product count and the smoothed earn ratio of that user's own row |
| Growth.Assign | growth_strategy_and_test.py:25 | every listed user gets exactly one group, the one drawn at their position, and the roster keeps the list's length and order |
| Growth.GroupsPartition | growth_strategy_and_test.py:25-37 | the treatment and control groups together are the whole roster: nA + nB = len(df) |
| Growth.LtvTotal | growth_strategy_and_test.py:30-34 | the recovered lifetime value is 4.00 x 5 = 20 |
| Growth.Project | growth_strategy_and_test.py:27-44 | an empty treatment group is a division by zero; otherwise the cost is 4.10 per treated user, the retained users are 0.92 x 0.25 per treated user, the return is 20 per retained user, the ROI is (return - cost) / cost, which comes to 5/41 (about 12.2%) whatever the group size, and net benefit is 0.5 per treated user |
| Growth.ThousandUsers | growth_strategy_and_test.py:28-44 | 1000 treated users cost 4100, retain 230 users, return 4600, and give ROI 500/4100 |
| Growth.Verdict | growth_strategy_and_test.py:67 | the verdict is "SÍ" exactly when the list length is at least twice the required size per group, and "NO (Ajustar MDE)" otherwise |
| Growth.RunGrowthDesign | growth_strategy_and_test.py:11-79 | with a generator that draws one group per user: a missing input ends the run with an error; otherwise every listed user is in the roster once in order with the group drawn at their position after seeding with 42, the treated count is the size of group A, cost, users saved, return and ROI are the projection for that count, the groups partition it, the ROI is 5/41, the verdict is "SÍ" or "NO (Ajustar MDE)" by half the list length, and a present list fails, always with a division by zero, exactly when nobody is drawn into treatment |
| Growth.Reproducible | growth_strategy_and_test.py:12-25 | two runs whose generators give the same draws for seed 42 produce the same experiment; this holds because the run is a function of its inputs, and the lemma records the law rather than proving anything deeper |
| Growth.VerdictIgnoresDraws | growth_strategy_and_test.py:67 | the verdict does not depend on the draws: it uses half the list length, not the treated count; like `Reproducible`, it follows directly from the definitions |

## Left out

- Model training (`train_optimized`: weighting, grid search, gradient boosting). These are library internals; the model's probabilities are an input, and `Threshold.Train` records only that a model exists.
- `train_test_split`: also a library call. `Evaluate` takes the test probabilities as given.
- `precision_recall_curve`, `roc_auc_score` and `classification_report`. The curve is an input. Its shape is stated as `LibraryShape`. The report and the AUC are only printed.
- `generate_shap_visual`: SHAP attribution and plotting are a foreign library and rendering.
- `save_artifact`, `read_csv`, `to_csv`, `os.makedirs`, logging and printing: I/O. A loaded activity file is a `Table`; the intervention list read by `run_growth_design` is a sequence of `Targeting.Intervention` records, and the CSV round trip between the churn and growth stages is not modelled; a missing file is `None`. The processor's constructor is reduced to `Processor(df)`. The exported files are not modelled; the roster is the result of `RunGrowthDesign`.
- `quantile(0.99)`: the cap is a parameter `cap(column)`. It is not tied to the column's values.
- `pd.to_numeric`: a parameter `parse` that may fail. The integer cast of a text label is a parameter `parseInt`. The cast of a float label truncates toward zero.
- `proportion_effectsize` and `NormalIndPower.solve_power`: floating-point numerics. The required size per group is an input. The MDE, alpha and power constants are not modelled.
- NumPy's generator and `np.random.seed(42)`: a parameter `draw(seed, n)` gives the draws, one per user (`Growth.Draws`), as `size=len(df)` guarantees. Reproducibility is stated as "same draws for seed 42, same experiment".
- The `importlib` fallback import: module plumbing.
- IEEE floating point: all numbers are exact reals.
- Features.Transform: a ratio with a zero denominator is reported as `NonFinite`. pandas would store an infinite value instead, or NaN when the earn amount is also 0, and the model has neither.
- Engagement.DefineEngagement: a text cell in a summed or compared column is reported as `TypeMismatch`. pandas raises `TypeError` for the comparison; its sum would concatenate or fail depending on the column's dtype.
- The `__main__` of `preprocess_data.py` prints a report and saves a file. The report and the file are left out; the stage itself is `DefineEngagement`.
- Threshold.Evaluate: the threshold it adopts is passed to `Targeting.ScoreTable` by the caller. The two are not composed in one member.

Two notes on the code the model follows:

- The code matches the Spanish substring `volumen` (or `amount`) in a column name to decide which columns are capped, and so does the model.
- pandas compares a missing value false. So a user whose tenure is missing is never engaged, and a missing value adds nothing to the transaction total.
