# AmbuSense risk scoring: a Dafny model

AmbuSense scores a patient's risk in an ambulance from vital-sign series:
heart rate, SpO₂ (oxygen saturation), systolic and diastolic blood pressure,
and a motion signal.
This project models its deterministic core in Dafny and proves properties of
that model:

- **Artifact detection and cleaning** (`artifact_handler.dfy`, module
  `ArtifactHandler`).
  - Flags from first differences, computed as pure functions.
  - In-place NaN masking of flagged SpO₂ on an `array`.
  - Centred width-5 rolling median of heart rate and rolling mean of systolic
    pressure. Both are undefined at the two edge samples at each end.
- **Window enumeration** (`anomaly_detector.dfy`, module `AnomalyDetector`).
  - The `range(0, n - 30, 5)` loop, written as a `while` loop that builds the
    feature and timestamp lists in lockstep.
  - The mapping of the outlier model's −1/1 prediction to a 0/1 flag.
- **Offline risk fusion** (`risk_engine.dfy`, module `RiskEngine`).
  - The per-row threshold risk and the confidence.
  - Min-max normalisation of the anomaly scores.
  - The in-place running-maximum floor over each window. `.loc[start:start+30]`
    is inclusive, so each window covers 31 samples.
  - Fusion by maximum, the confidence discount applied twice, the clip, and
    the 70/40 levels.
- **Online scoring** (`online_api.dfy`, module `OnlineApi`).
  - Python's builtin `max`/`min` over the request buffers, including their
    NaN behaviour.
  - The buffer confidence and the single-discount risk.
  - The 60/40 levels and the slope-based anomaly flag.
- **Alert evaluation** (`evaluate_alerts.dfy`, module `EvaluateAlerts`).
  - The ground-truth rule and the HIGH-level alert.
  - The confusion-matrix cells and the first-event latency.

`vitals.dfy` (module `Vitals`) holds the shared vocabulary:

- A missing reading (NaN / NA) is `None`. Every comparison with it is false,
  as in pandas and numpy.
- The additive threshold rule, shared by the offline and the online scorer.
- The confidence rule.
- The level tables.

Numbers are `real`, so the arithmetic is exact.
Four behaviours of the code are kept as they are, even where a reader might
expect otherwise:

- The offline score applies the confidence twice.
- Window starts stop strictly below `n - 30`, so the last full window is never
  produced.
- The online call never compares the lengths of its input lists. It fails on
  an empty list and on a slope fit that raises. The fit is opaque, so the
  model does not decide which buffers make it raise.
- Anomaly scores that are all equal make the code divide 0 by 0. The
  resulting NaN is kept only by `RiskEngine.AnomRiskAsWritten` and
  `RiskEngine.RowLevelAsWritten`. The pipeline (`RiskEngine.Windows`,
  `RiskEngine.ScoreRecording`) uses the corrected normalisation, which gives 0
  there. See "## Findings".

## Model

| member | source | states |
|---|---|---|
| Vitals.ThresholdRisk | src/risk_scoring/risk_engine.py:25-35 | the additive rule stays within [0, 0.9]; it is 0.9 exactly when all three rules fire and 0 exactly when none fires; a missing reading never fires |
| Vitals.ThresholdRiskDeterminesRules | src/risk_scoring/risk_engine.py:28-33 | the three rules are independent: equal sums mean the same rules fired |
| Vitals.MissingSpo2AddsNoRisk | src/risk_scoring/risk_engine.py:30-31 | a NaN saturation counts like a normal one, so it adds no risk and caps the sum at 0.5 |
| Vitals.ThresholdRiskMonotone | api/main.py:48-56 | raising heart rate or systolic pressure, or lowering saturation, never lowers the threshold risk |
| Vitals.Discount | src/risk_scoring/risk_engine.py:37-45 | confidence is 1.0 minus 0.4 per penalty; it is always 1.0, 0.6 or 0.2, and the 0.2 floor never binds in exact arithmetic |
| Vitals.Classify | src/risk_scoring/risk_engine.py:78-84 | the if-chain gives HIGH exactly from the high bound up, MEDIUM exactly between the bounds, and LOW exactly below both |
| Vitals.ClassifyMonotone | src/risk_scoring/risk_engine.py:78-84 | under any table with medium ≤ high, a higher score never gives a lower level |
| AnomalyDetector.WindowCount | src/anomaly_detection/anomaly_detector.py:21 | no window for n ≤ 30; otherwise the count c is the one where the last start 5(c − 1) lies below n − 30 and the next start 5c does not |
| AnomalyDetector.WindowCountExact | src/anomaly_detection/anomaly_detector.py:21 | window k exists exactly when 5k + 30 < n, so the window starting at n − 30 is never produced |
| AnomalyDetector.ExtractWindows | src/anomaly_detection/anomaly_detector.py:18-33 | the lists grow in lockstep to ⌈(n − 30)/5⌉ entries; entry k starts at 5k, lies inside the series, and holds the features of the 30 samples from 5k |
| AnomalyDetector.AnomalyFlag | src/anomaly_detection/anomaly_detector.py:47-49 | the flag is 0 or 1, and 1 exactly for a −1 prediction |
| AnomalyDetector.AnomalyTable | src/anomaly_detection/anomaly_detector.py:46-50 | row k carries window k's features, score and start, with flag 1 exactly when the prediction is −1 |
| RiskEngine.VitalRisk | src/risk_scoring/risk_engine.py:25-35 | the capped per-row risk equals the threshold rule, so the cap at 1.0 never binds |
| RiskEngine.Confidence | src/risk_scoring/risk_engine.py:37-45 | per-row confidence is 1.0, 0.6 or 0.2; it is 0.2 exactly with motion above 1.0 and SpO₂ missing, and 1.0 exactly with neither |
| RiskEngine.RiskLevel | src/risk_scoring/risk_engine.py:78-84 | HIGH exactly from 70, MEDIUM exactly in [40, 70), LOW exactly below 40 |
| RiskEngine.RiskLevelMonotone | src/risk_scoring/risk_engine.py:78-86 | the 70/40 level is monotone in the score |
| RiskEngine.SeqMin | src/risk_scoring/risk_engine.py:17 | the minimum score is one of the scores and at most every score |
| RiskEngine.SeqMax | src/risk_scoring/risk_engine.py:18 | the maximum score is one of the scores and at least every score |
| RiskEngine.NormaliseFacts | src/risk_scoring/risk_engine.py:20-23 | min-max normalisation maps [min, max] into [0, 1] and reverses order |
| RiskEngine.NormaliseAtEnds | src/risk_scoring/risk_engine.py:20-23 | the maximum score normalises to 0 and the minimum to 1 |
| RiskEngine.AnomRiskAsWritten | src/risk_scoring/risk_engine.py:17-23 | one normalised value per window, which is NaN when all scores are equal |
| RiskEngine.AnomRisk | src/risk_scoring/risk_engine.py:17-23 | one value per window; the degenerate case gives 0 |
| RiskEngine.AnomRiskAgreesWithCode | src/risk_scoring/risk_engine.py:17-23 | with max > min, the corrected normalisation equals the code's, value by value |
| RiskEngine.AnomRiskAsWrittenDegenerate | src/risk_scoring/risk_engine.py:20-23 | with max = min, the code yields NaN everywhere and the corrected model yields 0 |
| RiskEngine.AnomRiskInUnit | src/risk_scoring/risk_engine.py:17-23 | under the corrected normalisation, every anom_risk lies in [0, 1] |
| RiskEngine.AnomRiskOrderReversing | src/risk_scoring/risk_engine.py:17-23 | a higher anomaly score never gives a higher anom_risk |
| RiskEngine.AnomRiskExtremes | src/risk_scoring/risk_engine.py:17-23 | the maximum score maps to 0; with max > min the minimum maps to 1 |
| RiskEngine.Windows | src/risk_scoring/risk_engine.py:50-56 | one floor window per anomaly row, starting at its time_sec and carrying that row's anom_risk under the corrected normalisation |
| RiskEngine.FloorAfter | src/risk_scoring/risk_engine.py:50-57 | applying the windows in order never lowers an entry below its start value, and leaves it there when no window's half-risk exceeds it |
| RiskEngine.FloorIsMaximum | src/risk_scoring/risk_engine.py:50-57 | after the loop, entry i is the maximum of its initial value and 0.5·anom_risk of every window covering i |
| RiskEngine.FloorOrderIrrelevant | src/risk_scoring/risk_engine.py:50-57 | the order in which the windows are applied does not matter |
| RiskEngine.FloorUncovered | src/risk_scoring/risk_engine.py:14 | a sample that no window covers keeps its initial 0 |
| RiskEngine.FloorBounds | src/risk_scoring/risk_engine.py:54-57 | every floor lies in [0, 0.5] |
| RiskEngine.WindowsInUnit | src/risk_scoring/risk_engine.py:20-23 | under the corrected normalisation, every window's anom_risk lies in [0, 1] |
| RiskEngine.RaiseFloor | src/risk_scoring/risk_engine.py:54-57 | one window step replaces each covered entry that exists (at most 31) by its maximum with 0.5·anom_risk; it never lowers an entry and leaves the others unchanged |
| RiskEngine.ApplyWindowFloors | src/risk_scoring/risk_engine.py:50-57 | the in-place loop leaves entry i equal to the floor specification of its old value |
| RiskEngine.Clip | src/risk_scoring/risk_engine.py:73-75 | the result lies within the bounds; it is the value itself inside them and the nearer bound outside |
| RiskEngine.FuseRow | src/risk_scoring/risk_engine.py:60-86 | the score is 100·max(floor, vital)·conf·conf, lies in [0, 100] (at most 90 for floor ≤ 0.9) and gets the 70/40 level; with floor < 0.7, HIGH needs a fast heart and low SpO₂ without heavy motion |
| RiskEngine.ScoreRecording | src/risk_scoring/risk_engine.py:14-86 | the whole script with the corrected normalisation: row i is the fusion of sample i with its window floor |
| RiskEngine.RecordingRowFacts | src/risk_scoring/risk_engine.py:50-86 | with the corrected normalisation, every floor of a scored recording lies in [0, 0.5] and every score in [0, 90]; HIGH needs a fast heart and low SpO₂ at rest, so the anomaly floor alone never alerts |
| RiskEngine.NoWindowsMeansVitalRisk | src/risk_scoring/risk_engine.py:60-75 | with no anomaly rows, the score is the threshold risk with the confidence applied twice |
| RiskEngine.HalfAsWritten | src/risk_scoring/risk_engine.py:54-57 | the window's half-risk is NaN exactly when its anom_risk is NaN, and otherwise twice it is the anom_risk |
| RiskEngine.MaxNaN | src/risk_scoring/risk_engine.py:62-65 | `np.maximum` with a NaN operand is NaN; otherwise it is the larger operand |
| RiskEngine.RowLevelAsWritten | src/risk_scoring/risk_engine.py:62-86 | a NaN floor makes the row LOW; a present floor gives the same level as the fusion |
| RiskEngine.OneWindowRecordingHidesAlert | src/risk_scoring/risk_engine.py:17-86 | a recording of 31–35 samples has one window, whose anom_risk is NaN as written; the floor `np.maximum(0, 0.5 · NaN)` stays NaN and a critical patient then rates LOW, where the corrected model rates HIGH |
| OnlineApi.PyMax | api/main.py:50-54 | builtin max is an element of the buffer; a NaN first element is the result, otherwise it bounds every present element |
| OnlineApi.PyMin | api/main.py:52 | builtin min is an element; a NaN first element is the result, otherwise it is below every present element |
| OnlineApi.PyMaxAboveIff | api/main.py:41 | with a present first element, max > t exactly when some element exceeds t |
| OnlineApi.PyMinBelowIff | api/main.py:52 | with a present first element, min < t exactly when some element is below t |
| OnlineApi.HasMissing | api/main.py:43 | the scan reports a NaN exactly when some element of the buffer is NaN |
| OnlineApi.ComputeAnomaly | api/main.py:33-36 | the score of two fitted slopes is non-negative and bounds both absolute slopes; the flag is set exactly when the score exceeds 0.5 |
| OnlineApi.ComputeConfidence | api/main.py:39-45 | buffer confidence is 1.0, 0.6 or 0.2; it is 0.2 exactly when max motion > 1.0 and some SpO₂ is NaN, and 1.0 exactly with neither |
| OnlineApi.ComputeRisk | api/main.py:48-57 | the cap is never above 100; for conf in [0, 1] the risk is the threshold rule over the extrema discounted once, within [0, 90] |
| OnlineApi.ComputeRiskMonotone | api/main.py:48-57 | at fixed confidence, raising max hr or max bp_sys, or lowering min SpO₂, never lowers the risk |
| OnlineApi.Predict | api/main.py:62-85 | responds exactly when hr, SpO₂, motion and bp_sys are non-empty and both slope fits succeed; otherwise it names an empty list or a failed fit. A response has a score in [0, 90] discounted once, the 60/40 level, and the slope-rule anomaly |
| OnlineApi.OnlineHighNeedsLowSpo2AtRest | api/main.py:70-78 | an online HIGH needs no heavy motion, no missing SpO₂ and a minimum SpO₂ below 92 |
| OnlineApi.BpDiaIgnored | api/main.py:63-71 | the diastolic list never influences the response |
| OnlineApi.OnlineLevelMonotone | api/main.py:73-78 | the 60/40 level is monotone in the score |
| OnlineApi.ExampleMotionDiscount | api/main.py:39-78 | hr 120, SpO₂ 85, bp_sys 150, motion 1.5 give confidence 0.6, score 54 and MEDIUM |
| OnlineApi.ExampleFastHeartOnly | api/main.py:39-78 | hr 120, SpO₂ 95, bp_sys 130, motion 0.1 give confidence 1.0, score 30 and LOW |
| OnlineApi.AllSpo2MissingPenalised | api/main.py:39-45 | `compute_confidence` called on its own with an all-NaN SpO₂ buffer gives exactly 0.4 less confidence than with a fully present buffer, whatever the motion |
| OnlineApi.MissingSpo2ResponseDiscounted | api/main.py:43-44 | a `predict` response computed from a SpO₂ buffer containing a NaN has confidence at most 0.6 |
| ArtifactHandler.Diff | src/preprocessing/artifact_handler.py:27 | `.diff()` at row i is NaN exactly at row 0 or next to a NaN; otherwise adding it to row i − 1 gives row i |
| ArtifactHandler.Spo2MotionArtifact | src/preprocessing/artifact_handler.py:27-32 | row i is flagged exactly when motion > 0.9 and SpO₂ fell by more than 3 between two present readings; row 0 is never flagged |
| ArtifactHandler.HrArtifact | src/preprocessing/artifact_handler.py:37-38 | row i is flagged exactly when two present consecutive heart rates differ by more than 15; row 0 is never flagged |
| ArtifactHandler.Spo2Missing | src/preprocessing/artifact_handler.py:41 | the flag is exactly the raw missingness of SpO₂ |
| ArtifactHandler.MaskSpo2 | src/preprocessing/artifact_handler.py:48 | flagged rows lose their SpO₂; every other row and every other column is unchanged |
| ArtifactHandler.RollingMean | src/preprocessing/artifact_handler.py:63-68 | defined exactly when samples i−2..i+2 exist and are present; then it is their mean |
| ArtifactHandler.RollingMedian | src/preprocessing/artifact_handler.py:56-61 | defined exactly on a full window; then it is one of the five values, with at least three at or below it and three at or above it |
| ArtifactHandler.RollingEdgesUndefined | src/preprocessing/artifact_handler.py:57-68 | the two samples at each end get no rolling value |
| ArtifactHandler.MedianFacts | src/preprocessing/artifact_handler.py:56-61 | the middle of the sorted five is one of them and splits them three and three |
| ArtifactHandler.SmoothVitals | src/preprocessing/artifact_handler.py:56-68 | in place, heart rate becomes its rolling median and systolic pressure its rolling mean; other columns stay as they were |
| ArtifactHandler.MaskKeepsSmoothedColumns | src/preprocessing/artifact_handler.py:48-68 | masking SpO₂ leaves the heart-rate and systolic columns that smoothing reads unchanged |
| ArtifactHandler.CleanVitals | src/preprocessing/artifact_handler.py:16-68 | flags come from the raw table; a cleaned SpO₂ is missing exactly when raw was missing or flagged, otherwise it is unchanged; heart rate and systolic pressure are smoothed from the raw columns; the other columns are unchanged |
| EvaluateAlerts.GroundTruth | src/evaluation/evaluate_alerts.py:7-13 | 1 exactly for hr > 115 and SpO₂ < 92; a missing reading gives 0 |
| EvaluateAlerts.Alert | src/evaluation/evaluate_alerts.py:22 | 1 exactly for rows classified HIGH |
| EvaluateAlerts.Cell | src/evaluation/evaluate_alerts.py:24-27 | the sum of one cell's mask is at most the row count and is zero exactly when no row falls in the cell |
| EvaluateAlerts.TP | src/evaluation/evaluate_alerts.py:24 | the count of HIGH rows that are true events; zero exactly when there is none |
| EvaluateAlerts.FP | src/evaluation/evaluate_alerts.py:25 | the count of HIGH rows that are not true events; zero exactly when there is none |
| EvaluateAlerts.FN | src/evaluation/evaluate_alerts.py:26 | the count of true events that are not HIGH; zero exactly when there is none |
| EvaluateAlerts.TN | src/evaluation/evaluate_alerts.py:27 | the count of rows that are neither HIGH nor true events; zero exactly when there is none |
| EvaluateAlerts.ConfusionPartition | src/evaluation/evaluate_alerts.py:24-27 | TP + FP + FN + TN equals the number of rows |
| EvaluateAlerts.ConfusionGroundTruthColumn | src/evaluation/evaluate_alerts.py:24-27 | TP + FN equals the number of ground-truth rows |
| EvaluateAlerts.ConfusionAlertRow | src/evaluation/evaluate_alerts.py:24-27 | TP + FP equals the number of alert rows |
| EvaluateAlerts.FirstIndex | src/evaluation/evaluate_alerts.py:37-41 | the least index whose flag is set, and none exactly when no flag is set |
| EvaluateAlerts.GroundTruthFlags | src/evaluation/evaluate_alerts.py:37 | row i is selected exactly when its ground truth is 1 |
| EvaluateAlerts.AlertFlags | src/evaluation/evaluate_alerts.py:38 | row i is selected exactly when its alert is 1 |
| EvaluateAlerts.Latency | src/evaluation/evaluate_alerts.py:37-44 | defined exactly when there is both a ground-truth row and an alert; then it is the first alert index minus the first ground-truth index |
| EvaluateAlerts.EarlyAlertNegativeLatency | src/evaluation/evaluate_alerts.py:40-41 | an alert before every true event makes the latency negative |
| EvaluateAlerts.MotionHidesTrueEvent | src/evaluation/evaluate_alerts.py:7-27 | a true event scored offline under heavy motion is never alerted, so it is a false negative |
| EvaluateAlerts.AlertWithoutTrueEvent | src/evaluation/evaluate_alerts.py:7-25 | heart rate 112 with low SpO₂ and high pressure alerts without being a true event: a false positive |

## Left out

- CSV reads and writes, path setup, plots and console output in every script: I/O.
- The FastAPI application, its root endpoint and the pydantic request schema: transport.
- The request body's lists are modelled as already parsed.
- IsolationForest fit, `decision_function` and `predict`: a randomised library ensemble. Scores and predictions are inputs of the model.
- Window features: the means, the variance and the `np.polyfit` slopes are library numerics. They are the opaque parameters `featureOf` and `slope`.
  - A slope fit over an all-NaN window, which raises, is not modelled.
- `interpolate(method="linear", limit=5)` of SpO₂: its forward-limit and edge semantics are library behaviour. The cleaned table is modelled up to the step before it.
- `round().astype("Int64")` of the cleaned columns and `round(…, 2)` in the response: floating-point rounding.
- Precision, recall and false-alert rate with the 1e-6 epsilon: floating-point ratios. The counts they divide are modelled.
- Floating-point effects generally. In floats, 1.0 − 0.4 − 0.4 is slightly below 0.2, so the 0.2 floor binds there. It never binds in `real`.
- Synthetic data generation: random input, nothing deterministic to state.
- AnomalyDetector.ExtractWindows: states each feature vector only as `featureOf` of its window. The means, slopes and variance inside it are opaque.
- RiskEngine.Windows: uses the corrected normalisation. When all anomaly scores are equal, the script's anom_risk is NaN for every window; the model gives 0. The NaN value is `RiskEngine.AnomRiskAsWritten`.
- RiskEngine.WindowsInUnit: the [0, 1] bound holds only for the corrected normalisation. When all anomaly scores are equal, the script's anom_risk is NaN, which lies in no interval.
- RiskEngine.ScoreRecording: uses the corrected normalisation. When all anomaly scores are equal (a recording of 31 to 35 samples has one window), the script gives the covered rows a NaN score and the level LOW. The model gives those rows anom_risk 0 and their vital-risk level. The NaN path is `RiskEngine.RowLevelAsWritten`; see "## Findings".
- RiskEngine.RecordingRowFacts: its floor bound [0, 0.5] and score bound [0, 90] hold for the corrected normalisation. As written, both are NaN in the all-equal-scores case.
- OnlineApi.Predict: which buffers make `np.polyfit` raise (for example an all-NaN saturation list) is library behaviour. The fit is the opaque partial function `slope`, and the model states only that a failed fit makes the call fail.
- OnlineApi.ComputeRisk: states only the cap at 100 for a confidence outside [0, 1]. `predict` only passes 1.0, 0.6 or 0.2.
- ArtifactHandler.CleanVitals: stops before SpO₂ interpolation and integer rounding, which are listed above.

## Findings

| source | as written | input that shows it | evidently intended | confidence | as-written member | corrected member |
|---|---|---|---|---|---|---|
| src/risk_scoring/risk_engine.py:20-23 | `anom_risk = (max − score) / (max − min)` with no guard, which is 0/0 = NaN when all anomaly scores are equal. Half of NaN is NaN, `np.maximum` keeps it as the floor, and the NaN then survives the products and the clip and fails both level comparisons. | A recording of 31 to 35 samples has exactly one window, which covers rows 0 to 30. Any row from 2 to 28 (covered by that window, with its rolling medians defined) with hr 130, SpO₂ 85, bp_sys 150 and motion 0.1 is then classified LOW. | Degenerate scores give anom_risk 0, so the row keeps its vital risk: score 90, HIGH. | not executed | RiskEngine.OneWindowRecordingHidesAlert | RiskEngine.AnomRisk |
