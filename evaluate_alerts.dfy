/**
 * Offline evaluation of the alerts (src/evaluation/evaluate_alerts.py): a
 * ground-truth rule on the vitals, an alert for every HIGH row, the four
 * cells of the confusion matrix and the latency between the first true
 * event and the first alert.
 */
module EvaluateAlerts {
  import opened Vitals
  import RiskEngine

  const GT_HR_LIMIT: real := 115.0
  const GT_SPO2_LIMIT: real := 92.0

  /** One row of the scored table, reduced to the columns the evaluation reads. */
  datatype ScoredRow = ScoredRow(heartRate: Reading, spo2: Reading, level: Level)

  /** `ground_truth`: 1 for heart rate above 115 with saturation below 92. */
  function GroundTruth(row: ScoredRow): (g: int)
    ensures g == 0 || g == 1
    ensures g == 1 <==> Above(row.heartRate, GT_HR_LIMIT) && Below(row.spo2, GT_SPO2_LIMIT)
  {
    if Above(row.heartRate, GT_HR_LIMIT) && Below(row.spo2, GT_SPO2_LIMIT) then 1 else 0
  }

  /** The `alert` column: 1 exactly for rows classified HIGH. */
  function Alert(row: ScoredRow): (a: int)
    ensures a == 0 || a == 1
    ensures a == 1 <==> row.level == HIGH
  {
    if row.level == HIGH then 1 else 0
  }

  /** Row k falls in the cell with this alert and this ground truth. */
  predicate InCell(row: ScoredRow, alert: int, gt: int)
  {
    Alert(row) == alert && GroundTruth(row) == gt
  }

  /**
   * Number of rows whose alert is `alert` and whose ground truth is `gt`
   * (the sum of a boolean mask): at most the number of rows, and zero
   * exactly when no row falls in the cell.
   */
  function Cell(rows: seq<ScoredRow>, alert: int, gt: int): (n: nat)
    ensures n <= |rows|
    ensures n == 0 <==> forall k :: 0 <= k < |rows| ==> !InCell(rows[k], alert, gt)
  {
    if rows == [] then 0
    else
      var rest := Cell(rows[1..], alert, gt);
      assert (forall k :: 0 <= k < |rows| ==> !InCell(rows[k], alert, gt))
         <==> !InCell(rows[0], alert, gt) && forall k :: 0 <= k < |rows[1..]| ==> !InCell(rows[1..][k], alert, gt) by {
        if forall k :: 0 <= k < |rows[1..]| ==> !InCell(rows[1..][k], alert, gt) {
          forall k | 1 <= k < |rows|
            ensures !InCell(rows[k], alert, gt)
          {
            assert rows[k] == rows[1..][k - 1];
          }
        }
      }
      (if InCell(rows[0], alert, gt) then 1 else 0) + rest
  }

  /** True positives: alerted rows that are true events; none exactly when no such row exists. */
  function TP(rows: seq<ScoredRow>): (n: nat)
    ensures n <= |rows|
    ensures n == 0 <==> forall k :: 0 <= k < |rows| ==> !(rows[k].level == HIGH && GroundTruth(rows[k]) == 1)
  {
    Cell(rows, 1, 1)
  }

  /** False positives: alerted rows that are not true events. */
  function FP(rows: seq<ScoredRow>): (n: nat)
    ensures n <= |rows|
    ensures n == 0 <==> forall k :: 0 <= k < |rows| ==> !(rows[k].level == HIGH && GroundTruth(rows[k]) == 0)
  {
    Cell(rows, 1, 0)
  }

  /** False negatives: true events that were not alerted. */
  function FN(rows: seq<ScoredRow>): (n: nat)
    ensures n <= |rows|
    ensures n == 0 <==> forall k :: 0 <= k < |rows| ==> !(rows[k].level != HIGH && GroundTruth(rows[k]) == 1)
  {
    Cell(rows, 0, 1)
  }

  /** True negatives: rows neither alerted nor true events. */
  function TN(rows: seq<ScoredRow>): (n: nat)
    ensures n <= |rows|
    ensures n == 0 <==> forall k :: 0 <= k < |rows| ==> !(rows[k].level != HIGH && GroundTruth(rows[k]) == 0)
  {
    Cell(rows, 0, 0)
  }

  /** Number of alert rows (the sum of the `alert` column). */
  function AlertCount(rows: seq<ScoredRow>): nat
  {
    if rows == [] then 0 else Alert(rows[0]) + AlertCount(rows[1..])
  }

  /** Number of ground-truth rows (the sum of the `ground_truth` column). */
  function GroundTruthCount(rows: seq<ScoredRow>): nat
  {
    if rows == [] then 0 else GroundTruth(rows[0]) + GroundTruthCount(rows[1..])
  }

  /** The four cells partition the rows. */
  lemma {:induction false} ConfusionPartition(rows: seq<ScoredRow>)
    ensures TP(rows) + FP(rows) + FN(rows) + TN(rows) == |rows|
  {
    if rows != [] {
      ConfusionPartition(rows[1..]);
    }
  }

  /** The true positives and the false negatives are exactly the ground-truth rows. */
  lemma {:induction false} ConfusionGroundTruthColumn(rows: seq<ScoredRow>)
    ensures TP(rows) + FN(rows) == GroundTruthCount(rows)
  {
    if rows != [] {
      ConfusionGroundTruthColumn(rows[1..]);
    }
  }

  /** The true and the false positives are exactly the alert rows. */
  lemma {:induction false} ConfusionAlertRow(rows: seq<ScoredRow>)
    ensures TP(rows) + FP(rows) == AlertCount(rows)
  {
    if rows != [] {
      ConfusionAlertRow(rows[1..]);
    }
  }

  /** `i` is the smallest index whose flag is set. */
  predicate FirstAt(flags: seq<bool>, i: nat)
  {
    i < |flags| && flags[i] && forall j :: 0 <= j < i ==> !flags[j]
  }

  /** `flags[flags].index.min()`, or nothing when no flag is set. */
  function FirstIndex(flags: seq<bool>): (r: Option<nat>)
    ensures r.None? <==> forall j :: 0 <= j < |flags| ==> !flags[j]
    ensures r.Some? ==> FirstAt(flags, r.value)
  {
    if flags == [] then None
    else if flags[0] then Some(0)
    else
      var rest := FirstIndex(flags[1..]);
      if rest.None? then None
      else
        assert forall j :: 1 <= j <= rest.value ==> flags[j] == flags[1..][j - 1];
        Some(rest.value + 1)
  }

  function GroundTruthFlags(rows: seq<ScoredRow>): (flags: seq<bool>)
    ensures |flags| == |rows| && forall i :: 0 <= i < |rows| ==> (flags[i] <==> GroundTruth(rows[i]) == 1)
  {
    seq(|rows|, i requires 0 <= i < |rows| => GroundTruth(rows[i]) == 1)
  }

  function AlertFlags(rows: seq<ScoredRow>): (flags: seq<bool>)
    ensures |flags| == |rows| && forall i :: 0 <= i < |rows| ==> (flags[i] <==> Alert(rows[i]) == 1)
  {
    seq(|rows|, i requires 0 <= i < |rows| => Alert(rows[i]) == 1)
  }

  /**
   * The latency report: it is computed only when there is at least one
   * ground-truth row and at least one alert; it is the first alert's index
   * minus the first ground-truth index, so an early alert makes it negative.
   */
  function Latency(rows: seq<ScoredRow>): (r: Option<int>)
    ensures r.Some? <==>
      (exists i :: 0 <= i < |rows| && GroundTruth(rows[i]) == 1) && (exists j :: 0 <= j < |rows| && Alert(rows[j]) == 1)
    ensures r.Some? ==> exists a: nat, g: nat ::
      FirstAt(AlertFlags(rows), a) && FirstAt(GroundTruthFlags(rows), g) && r.value == a - g
  {
    var gt := FirstIndex(GroundTruthFlags(rows));
    var al := FirstIndex(AlertFlags(rows));
    if gt.None? || al.None? then
      assert gt.None? ==> forall i :: 0 <= i < |rows| ==> GroundTruthFlags(rows)[i] == false;
      None
    else
      assert GroundTruthFlags(rows)[gt.value];
      assert AlertFlags(rows)[al.value];
      Some(al.value - gt.value)
  }

  /** An alert that precedes every true event gives a negative latency. */
  lemma EarlyAlertNegativeLatency(rows: seq<ScoredRow>, j: nat)
    requires j < |rows| && Alert(rows[j]) == 1
    requires exists i :: j < i < |rows| && GroundTruth(rows[i]) == 1
    requires forall i :: 0 <= i <= j ==> GroundTruth(rows[i]) == 0
    ensures Latency(rows).Some? && Latency(rows).value < 0
  {
    var i :| j < i < |rows| && GroundTruth(rows[i]) == 1;
    assert Latency(rows).Some?;
    var a: nat, g: nat :| FirstAt(AlertFlags(rows), a) && FirstAt(GroundTruthFlags(rows), g) && Latency(rows).value == a - g;
    assert AlertFlags(rows)[j];
    assert GroundTruthFlags(rows)[g];
  }

  /**
   * A true event scored by the offline fusion while the patient moves
   * (motion above 1.0) is never alerted: the doubled confidence discount
   * caps its score below 70, so the row is a false negative.
   */
  lemma MotionHidesTrueEvent(floor: real, s: Sample)
    requires 0.0 <= floor <= 0.5
    requires Above(s.motion, MOTION_LIMIT)
    requires Above(s.heartRate, GT_HR_LIMIT) && Below(s.spo2, GT_SPO2_LIMIT)
    ensures var row := ScoredRow(s.heartRate, s.spo2, RiskEngine.FuseRow(floor, s).level);
      GroundTruth(row) == 1 && Alert(row) == 0 && FN([row]) == 1
  {
    var row := ScoredRow(s.heartRate, s.spo2, RiskEngine.FuseRow(floor, s).level);
    assert row.level != HIGH;
    assert Alert(row) == 0 && GroundTruth(row) == 1;
    assert [row][1..] == [];
    assert Cell([row][1..], 0, 1) == 0;
  }

  /**
   * A row with heart rate in (110, 115] can be alerted by the offline
   * fusion without being a true event, so false positives are possible.
   */
  lemma AlertWithoutTrueEvent()
    ensures var s := Sample(Some(112.0), Some(85.0), Some(150.0), Some(80.0), Some(0.1));
      var row := ScoredRow(s.heartRate, s.spo2, RiskEngine.FuseRow(0.0, s).level);
      Alert(row) == 1 && GroundTruth(row) == 0 && FP([row]) == 1
  {
    var s := Sample(Some(112.0), Some(85.0), Some(150.0), Some(80.0), Some(0.1));
    assert RiskEngine.VitalRisk(s) == 0.9;
    assert RiskEngine.Confidence(s) == 1.0;
    var row := ScoredRow(s.heartRate, s.spo2, RiskEngine.FuseRow(0.0, s).level);
    assert [row][1..] == [];
  }
}
