/**
 * Sliding-window feature extraction and the labelling of the outlier
 * model's output (src/anomaly_detection/anomaly_detector.py).
 *
 * The statistics of a window (means, least-squares slopes, variance) and
 * the isolation-forest scores and predictions are library numerics; they
 * enter the model as an opaque function `featureOf` and as input columns.
 */
module AnomalyDetector {
  import opened Vitals

  const WINDOW_SIZE: nat := 30
  const STEP_SIZE: nat := 5

  /** The fingerprint of one window; its values are opaque here. */
  datatype Features = Features(hrMean: real, hrSlope: real, spo2Mean: real, spo2Slope: real, bpSysVar: real)

  /** One row of the anomaly table: the features plus the three added columns. */
  datatype AnomalyRow = AnomalyRow(features: Features, anomalyScore: real, anomalyFlag: int, timeSec: nat)

  /**
   * Length of `range(0, n - WINDOW_SIZE, STEP_SIZE)`: none for n <= 30,
   * otherwise the least count whose next start would reach n - 30.
   */
  function WindowCount(n: nat): (c: nat)
    ensures c == 0 <==> n <= WINDOW_SIZE
    ensures c > 0 ==> STEP_SIZE * (c - 1) + WINDOW_SIZE < n <= STEP_SIZE * c + WINDOW_SIZE
  {
    if n > WINDOW_SIZE then (n - WINDOW_SIZE + STEP_SIZE - 1) / STEP_SIZE else 0
  }

  /**
   * The k-th window exists exactly when its start 5k lies strictly below
   * n - 30: the bound of `range` is exclusive, so the full window that
   * starts at n - 30 is never produced.
   */
  lemma WindowCountExact(n: nat, k: nat)
    ensures k < WindowCount(n) <==> STEP_SIZE * k + WINDOW_SIZE < n
  {
  }

  /**
   * The window loop: starts 0, 5, 10, ... while start < n - 30; each step
   * appends the window's features and its start to two parallel lists.
   */
  method ExtractWindows(series: seq<Sample>, featureOf: seq<Sample> -> Features)
    returns (features: seq<Features>, timestamps: seq<nat>)
    ensures |features| == |timestamps| == WindowCount(|series|)
    ensures forall k :: 0 <= k < |timestamps| ==>
      && timestamps[k] == STEP_SIZE * k
      && timestamps[k] + WINDOW_SIZE < |series|
      && features[k] == featureOf(series[timestamps[k]..timestamps[k] + WINDOW_SIZE])
  {
    features, timestamps := [], [];
    var start: nat := 0;
    while start < |series| - WINDOW_SIZE
      invariant start == STEP_SIZE * |timestamps|
      invariant |features| == |timestamps|
      invariant start <= if |series| > WINDOW_SIZE then |series| - WINDOW_SIZE + STEP_SIZE - 1 else 0
      invariant forall k :: 0 <= k < |timestamps| ==>
        && timestamps[k] == STEP_SIZE * k
        && timestamps[k] + WINDOW_SIZE < |series|
        && features[k] == featureOf(series[timestamps[k]..timestamps[k] + WINDOW_SIZE])
      decreases |series| - start
    {
      var window := series[start..start + WINDOW_SIZE];
      features := features + [featureOf(window)];
      timestamps := timestamps + [start];
      start := start + STEP_SIZE;
    }
  }

  /** The model predicts -1 for an outlier and 1 otherwise; the flag is 1 for -1. */
  function AnomalyFlag(prediction: int): (flag: int)
    ensures flag == 0 || flag == 1
    ensures flag == 1 <==> prediction == -1
  {
    if prediction == -1 then 1 else 0
  }

  /**
   * Assembles the anomaly table: the model's decision values, the mapped
   * flags and the window starts become columns beside the features.
   */
  function AnomalyTable(features: seq<Features>, timestamps: seq<nat>, scores: seq<real>, predictions: seq<int>): (rows: seq<AnomalyRow>)
    requires |timestamps| == |scores| == |predictions| == |features|
    ensures |rows| == |features|
    ensures forall k :: 0 <= k < |rows| ==>
      && rows[k].features == features[k]
      && rows[k].anomalyScore == scores[k]
      && rows[k].timeSec == timestamps[k]
      && (rows[k].anomalyFlag == 1 <==> predictions[k] == -1)
      && (rows[k].anomalyFlag == 0 <==> predictions[k] != -1)
  {
    seq(|features|, k requires 0 <= k < |features| =>
      AnomalyRow(features[k], scores[k], AnomalyFlag(predictions[k]), timestamps[k]))
  }
}
