/**
 * The offline batch scorer (src/risk_scoring/risk_engine.py): per-row
 * threshold risk and confidence, normalisation of the outlier scores, the
 * in-place propagation of a windowed anomaly floor, fusion by maximum, the
 * (doubled) confidence discount, the clip and the 70/40 classification.
 */
module RiskEngine {
  import opened Vitals
  import AnomalyDetector

  /** Span of the anomaly floor; `.loc[start:start + 30]` includes both ends. */
  const WINDOW_SIZE: nat := 30

  /** Threshold risk of one row; `min(risk, 1.0)` never binds. */
  function VitalRisk(s: Sample): (r: real)
    ensures 0.0 <= r <= 0.9
    ensures r == ThresholdRisk(s.heartRate, s.spo2, s.bpSys)
  {
    Min(ThresholdRisk(s.heartRate, s.spo2, s.bpSys), 1.0)
  }

  /** Confidence of one row: penalised for motion above 1.0 and for missing saturation. */
  function Confidence(s: Sample): (c: real)
    ensures c == 1.0 || c == 0.6 || c == 0.2
    ensures c == 0.2 <==> Above(s.motion, MOTION_LIMIT) && s.spo2.None?
    ensures c == 1.0 <==> !Above(s.motion, MOTION_LIMIT) && s.spo2.Some?
  {
    Discount(Above(s.motion, MOTION_LIMIT), s.spo2.None?)
  }

  /** The offline level: HIGH from 70, MEDIUM from 40, else LOW. */
  function RiskLevel(score: real): (l: Level)
    ensures l == HIGH <==> score >= 70.0
    ensures l == MEDIUM <==> 40.0 <= score < 70.0
    ensures l == LOW <==> score < 40.0
  {
    Classify(score, OFFLINE_TABLE)
  }

  lemma RiskLevelMonotone(a: real, b: real)
    requires a <= b
    ensures Rank(RiskLevel(a)) <= Rank(RiskLevel(b))
  {
    ClassifyMonotone(a, b, OFFLINE_TABLE);
  }

  // ---------------------------------------------------------------------
  // Normalisation of the outlier scores into anom_risk
  // ---------------------------------------------------------------------

  /** Smallest score of a non-empty column. */
  function SeqMin(s: seq<real>): (m: real)
    requires |s| > 0
    ensures m in s
    ensures forall k :: 0 <= k < |s| ==> m <= s[k]
  {
    if |s| == 1 then s[0] else Min(s[0], SeqMin(s[1..]))
  }

  /** Largest score of a non-empty column. */
  function SeqMax(s: seq<real>): (m: real)
    requires |s| > 0
    ensures m in s
    ensures forall k :: 0 <= k < |s| ==> s[k] <= m
  {
    if |s| == 1 then s[0] else Max(s[0], SeqMax(s[1..]))
  }

  /** `(max - score) / (max - min)` for a batch whose scores are not all equal. */
  function Normalise(lo: real, hi: real, x: real): real
    requires lo < hi
  {
    (hi - x) / (hi - lo)
  }

  /** Within [lo, hi] the normalised value lies in [0, 1] and reverses the order. */
  lemma NormaliseFacts(lo: real, hi: real, x: real, y: real)
    requires lo < hi && lo <= x <= y <= hi
    ensures 0.0 <= Normalise(lo, hi, y) <= Normalise(lo, hi, x) <= 1.0
  {
    var d := hi - lo;
    assert (hi - x) / d * d == hi - x;
    assert (hi - y) / d * d == hi - y;
  }

  lemma NormaliseAtEnds(lo: real, hi: real)
    requires lo < hi
    ensures Normalise(lo, hi, hi) == 0.0
    ensures Normalise(lo, hi, lo) == 1.0
  {
    assert (hi - lo) / (hi - lo) == 1.0;
  }

  /**
   * The column as written, with no guard: when every score is equal the
   * quotient is 0 / 0, which is NaN (`None`).
   */
  function AnomRiskAsWritten(scores: seq<real>): (r: seq<Reading>)
    ensures |r| == |scores|
  {
    if |scores| == 0 then []
    else
      var lo := SeqMin(scores);
      var hi := SeqMax(scores);
      seq(|scores|, k requires 0 <= k < |scores| =>
        if hi - lo == 0.0 then None else Some(Normalise(lo, hi, scores[k])))
  }

  /**
   * The normalisation used by the rest of the model: the column as written
   * whenever max > min, and 0 for every window when all scores are equal.
   */
  function AnomRisk(scores: seq<real>): (r: seq<real>)
    ensures |r| == |scores|
  {
    if |scores| == 0 || SeqMin(scores) == SeqMax(scores) then seq(|scores|, k => 0.0)
    else
      var lo := SeqMin(scores);
      var hi := SeqMax(scores);
      seq(|scores|, k requires 0 <= k < |scores| => Normalise(lo, hi, scores[k]))
  }

  /** Whenever the guard is not needed, the corrected normalisation agrees with the code. */
  lemma AnomRiskAgreesWithCode(scores: seq<real>, k: int)
    requires 0 <= k < |scores|
    requires SeqMin(scores) < SeqMax(scores)
    ensures AnomRiskAsWritten(scores)[k] == Some(AnomRisk(scores)[k])
  {
  }

  /** When all scores are equal, every value of the column as written is NaN. */
  lemma AnomRiskAsWrittenDegenerate(scores: seq<real>, k: int)
    requires 0 <= k < |scores|
    requires SeqMin(scores) == SeqMax(scores)
    ensures AnomRiskAsWritten(scores)[k] == None
    ensures AnomRisk(scores)[k] == 0.0
  {
  }

  /** Every anomaly risk lies in [0, 1]. */
  lemma AnomRiskInUnit(scores: seq<real>, k: int)
    requires 0 <= k < |scores|
    ensures 0.0 <= AnomRisk(scores)[k] <= 1.0
  {
    var lo, hi := SeqMin(scores), SeqMax(scores);
    if lo != hi {
      NormaliseFacts(lo, hi, scores[k], scores[k]);
    }
  }

  /**
   * The normalisation reverses the order of the scores: a lower decision
   * value, i.e. a more anomalous window, never gets a lower risk.
   */
  lemma AnomRiskOrderReversing(scores: seq<real>, i: int, j: int)
    requires 0 <= i < |scores| && 0 <= j < |scores|
    requires scores[i] <= scores[j]
    ensures AnomRisk(scores)[j] <= AnomRisk(scores)[i]
  {
    var lo, hi := SeqMin(scores), SeqMax(scores);
    if lo != hi {
      NormaliseFacts(lo, hi, scores[i], scores[j]);
    }
  }

  /** The maximum score gets risk 0 and, when max > min, the minimum score gets risk 1. */
  lemma AnomRiskExtremes(scores: seq<real>, k: int)
    requires 0 <= k < |scores|
    ensures scores[k] == SeqMax(scores) ==> AnomRisk(scores)[k] == 0.0
    ensures SeqMin(scores) < SeqMax(scores) && scores[k] == SeqMin(scores) ==> AnomRisk(scores)[k] == 1.0
  {
    var lo, hi := SeqMin(scores), SeqMax(scores);
    if lo != hi {
      assert AnomRisk(scores)[k] == Normalise(lo, hi, scores[k]);
      NormaliseAtEnds(lo, hi);
    }
  }

  // ---------------------------------------------------------------------
  // The windowed anomaly floor
  // ---------------------------------------------------------------------

  /** One row of the anomaly table as the floor loop reads it. */
  datatype Window = Window(start: nat, anomRisk: real)

  /** Row i lies in `.loc[start:start + 30]`, both ends included. */
  predicate Covers(w: Window, i: nat)
  {
    w.start <= i <= w.start + WINDOW_SIZE
  }

  /** Pairs each anomaly row's window start with its normalised risk. */
  function Windows(rows: seq<AnomalyDetector.AnomalyRow>): (ws: seq<Window>)
    ensures |ws| == |rows|
    ensures forall k :: 0 <= k < |rows| ==>
      && ws[k].start == rows[k].timeSec
      && ws[k].anomRisk == AnomRisk(AnomalyScores(rows))[k]
  {
    var risks := AnomRisk(AnomalyScores(rows));
    seq(|rows|, k requires 0 <= k < |rows| => Window(rows[k].timeSec, risks[k]))
  }

  /** The `anomaly_score` column of the anomaly table. */
  function AnomalyScores(rows: seq<AnomalyDetector.AnomalyRow>): (scores: seq<real>)
    ensures |scores| == |rows| && forall k :: 0 <= k < |rows| ==> scores[k] == rows[k].anomalyScore
  {
    seq(|rows|, k requires 0 <= k < |rows| => rows[k].anomalyScore)
  }

  /** Value of row i after the windows `ws` were applied in order to a column holding `base` there. */
  function FloorAfter(base: real, ws: seq<Window>, i: nat): (r: real)
    ensures base <= r
    ensures (forall w :: w in ws ==> 0.5 * w.anomRisk <= base) ==> r == base
    decreases |ws|
  {
    if ws == [] then base
    else
      var w := ws[|ws| - 1];
      var before := FloorAfter(base, ws[..|ws| - 1], i);
      if Covers(w, i) then Max(before, 0.5 * w.anomRisk) else before
  }

  /**
   * The floor is the maximum of the initial value and of half the anomaly
   * risk of every window that covers the row.
   */
  lemma {:induction false} FloorIsMaximum(base: real, ws: seq<Window>, i: nat)
    ensures base <= FloorAfter(base, ws, i)
    ensures forall w :: w in ws && Covers(w, i) ==> 0.5 * w.anomRisk <= FloorAfter(base, ws, i)
    ensures FloorAfter(base, ws, i) == base
         || exists w :: w in ws && Covers(w, i) && FloorAfter(base, ws, i) == 0.5 * w.anomRisk
    decreases |ws|
  {
    if ws != [] {
      var prefix := ws[..|ws| - 1];
      var last := ws[|ws| - 1];
      FloorIsMaximum(base, prefix, i);
      assert ws == prefix + [last];
      forall w | w in ws
        ensures w in prefix || w == last
      {
      }
    }
  }

  /** The order of the windows, and any repetition of them, does not matter. */
  lemma FloorOrderIrrelevant(base: real, ws: seq<Window>, ws': seq<Window>, i: nat)
    requires forall w :: w in ws <==> w in ws'
    ensures FloorAfter(base, ws, i) == FloorAfter(base, ws', i)
  {
    FloorIsMaximum(base, ws, i);
    FloorIsMaximum(base, ws', i);
  }

  /** A row that no window covers keeps its initial value. */
  lemma FloorUncovered(base: real, ws: seq<Window>, i: nat)
    requires forall w :: w in ws ==> !Covers(w, i)
    ensures FloorAfter(base, ws, i) == base
  {
    FloorIsMaximum(base, ws, i);
  }

  /** With risks in [0, 1] and a start value in [0, 0.5], every floor stays in [0, 0.5]. */
  lemma FloorBounds(base: real, ws: seq<Window>, i: nat)
    requires 0.0 <= base <= 0.5
    requires forall w :: w in ws ==> 0.0 <= w.anomRisk <= 1.0
    ensures 0.0 <= FloorAfter(base, ws, i) <= 0.5
  {
    FloorIsMaximum(base, ws, i);
  }

  /** Every window built from an anomaly table carries a risk in [0, 1]. */
  lemma WindowsInUnit(rows: seq<AnomalyDetector.AnomalyRow>)
    ensures forall w :: w in Windows(rows) ==> 0.0 <= w.anomRisk <= 1.0
  {
    var scores := seq(|rows|, k requires 0 <= k < |rows| => rows[k].anomalyScore);
    forall w | w in Windows(rows)
      ensures 0.0 <= w.anomRisk <= 1.0
    {
      var k :| 0 <= k < |rows| && Windows(rows)[k] == w;
      AnomRiskInUnit(scores, k);
    }
  }

  /** One pass of the loop body: a running maximum over the rows `start..start + 30` that exist. */
  method RaiseFloor(risk: array<real>, w: Window)
    modifies risk
    ensures forall i :: 0 <= i < risk.Length ==>
      risk[i] == if Covers(w, i) then Max(old(risk[i]), 0.5 * w.anomRisk) else old(risk[i])
    ensures forall i :: 0 <= i < risk.Length ==> old(risk[i]) <= risk[i]
  {
    var j := w.start;
    while j <= w.start + WINDOW_SIZE && j < risk.Length
      invariant w.start <= j <= w.start + WINDOW_SIZE + 1
      invariant forall i :: 0 <= i < risk.Length ==>
        risk[i] == if w.start <= i < j then Max(old(risk[i]), 0.5 * w.anomRisk) else old(risk[i])
    {
      risk[j] := Max(risk[j], 0.5 * w.anomRisk);
      j := j + 1;
    }
  }

  /** The loop over the anomaly table, updating the risk column in place. */
  method ApplyWindowFloors(risk: array<real>, ws: seq<Window>)
    modifies risk
    ensures forall i :: 0 <= i < risk.Length ==> risk[i] == FloorAfter(old(risk[i]), ws, i)
  {
    for k := 0 to |ws|
      invariant forall i :: 0 <= i < risk.Length ==> risk[i] == FloorAfter(old(risk[i]), ws[..k], i)
    {
      RaiseFloor(risk, ws[k]);
      assert ws[..k + 1][..k] == ws[..k];
    }
    assert ws[..|ws|] == ws;
  }

  // ---------------------------------------------------------------------
  // Fusion, discount, clip and classification
  // ---------------------------------------------------------------------

  /** The emitted columns of one row. */
  datatype RiskRecord = RiskRecord(vitalRisk: real, confidence: real, score: real, level: Level)

  /** `clip(lo, hi)`: the value itself inside the bounds, the nearer bound outside. */
  function Clip(x: real, lo: real, hi: real): (r: real)
    requires lo <= hi
    ensures lo <= r <= hi
    ensures lo <= x <= hi ==> r == x
    ensures x < lo ==> r == lo
    ensures x > hi ==> r == hi
  {
    if x < lo then lo else if x > hi then hi else x
  }

  /**
   * One row of the fusion step: fuse floor and threshold risk by maximum, multiply
   * by the confidence, then multiply by the confidence again and by 100, clip
   * to [0, 100] and classify. The clip never binds for a floor in [0, 1];
   * with the floor below 0.7 a HIGH level needs a fast heart rate and low
   * saturation measured without heavy motion: the anomaly floor alone never
   * raises an alert.
   */
  function FuseRow(floor: real, s: Sample): (r: RiskRecord)
    ensures r.vitalRisk == VitalRisk(s) && r.confidence == Confidence(s)
    ensures 0.0 <= r.score <= 100.0
    ensures 0.0 <= floor <= 1.0 ==> r.score == 100.0 * Max(floor, VitalRisk(s)) * Confidence(s) * Confidence(s)
    ensures floor <= 0.9 ==> r.score <= 90.0
    ensures r.level == RiskLevel(r.score)
    ensures floor < 0.7 && r.level == HIGH ==>
      Above(s.heartRate, HR_LIMIT) && Below(s.spo2, SPO2_LIMIT) && !Above(s.motion, MOTION_LIMIT)
  {
    var vital := VitalRisk(s);
    var fused := Max(floor, vital);
    var conf := Confidence(s);
    var discounted := fused * conf;
    var score := Clip(discounted * conf * 100.0, 0.0, 100.0);
    RiskRecord(vital, conf, score, RiskLevel(score))
  }

  /**
   * The whole script on one recording: a zero-initialised risk column, the
   * window floors applied in place, then the per-row fusion.
   */
  method ScoreRecording(samples: seq<Sample>, anomalies: seq<AnomalyDetector.AnomalyRow>)
    returns (records: seq<RiskRecord>)
    ensures |records| == |samples|
    ensures forall i :: 0 <= i < |samples| ==>
      records[i] == FuseRow(FloorAfter(0.0, Windows(anomalies), i), samples[i])
  {
    var risk := new real[|samples|](_ => 0.0);
    var ws := Windows(anomalies);
    ApplyWindowFloors(risk, ws);
    records := [];
    for i := 0 to |samples|
      invariant |records| == i
      invariant forall j :: 0 <= j < i ==> records[j] == FuseRow(FloorAfter(0.0, ws, j), samples[j])
    {
      records := records + [FuseRow(risk[i], samples[i])];
    }
  }

  /**
   * Every row of a scored recording has a floor in [0, 0.5], a score in
   * [0, 90], and a HIGH level only for a fast heart rate with low
   * saturation measured without heavy motion.
   */
  lemma RecordingRowFacts(samples: seq<Sample>, anomalies: seq<AnomalyDetector.AnomalyRow>, i: nat)
    requires i < |samples|
    ensures 0.0 <= FloorAfter(0.0, Windows(anomalies), i) <= 0.5
    ensures var r := FuseRow(FloorAfter(0.0, Windows(anomalies), i), samples[i]);
      && 0.0 <= r.score <= 90.0
      && (r.level == HIGH ==> Above(samples[i].heartRate, HR_LIMIT) && Below(samples[i].spo2, SPO2_LIMIT)
                              && !Above(samples[i].motion, MOTION_LIMIT))
  {
    WindowsInUnit(anomalies);
    FloorBounds(0.0, Windows(anomalies), i);
  }

  /** With an empty anomaly table the fused risk is the threshold risk alone. */
  lemma NoWindowsMeansVitalRisk(s: Sample, i: nat)
    ensures FuseRow(FloorAfter(0.0, Windows([]), i), s).score
         == 100.0 * VitalRisk(s) * Confidence(s) * Confidence(s)
  {
    assert Windows([]) == [];
  }

  // ---------------------------------------------------------------------
  // The degenerate normalisation as written
  // ---------------------------------------------------------------------

  /** `0.5 * anom_risk` on a value that may be NaN: half of NaN is NaN. */
  function HalfAsWritten(risk: Reading): (h: Reading)
    ensures h.None? <==> risk.None?
    ensures h.Some? ==> h.value + h.value == risk.value
  {
    match risk
    case None => None
    case Some(x) => Some(0.5 * x)
  }

  /** `np.maximum` with a NaN floor yields NaN. */
  function MaxNaN(a: Reading, b: real): (r: Reading)
    ensures r.None? <==> a.None?
    ensures r.Some? ==> b <= r.value && a.value <= r.value && (r.value == a.value || r.value == b)
  {
    if a.None? then None else Some(Max(a.value, b))
  }

  /**
   * Level of a row whose floor may be NaN: NaN survives the maximum, the
   * products and the clip, and `NaN >= 70`, `NaN >= 40` are both false.
   */
  function RowLevelAsWritten(floor: Reading, s: Sample): (l: Level)
    ensures floor.None? ==> l == LOW
    ensures floor.Some? ==> l == FuseRow(floor.value, s).level
  {
    match MaxNaN(floor, VitalRisk(s))
    case None => LOW
    case Some(f) => FuseRow(f, s).level
  }

  /** A patient at the worst of all three thresholds, at rest, with saturation present. */
  const CRITICAL: Sample := Sample(Some(130.0), Some(85.0), Some(150.0), Some(80.0), Some(0.1))

  /**
   * A recording of 31 to 35 samples yields exactly one window, so its
   * anomaly table is the single row `row`, starting at time 0. Then
   * max == min and anom_risk is 0 / 0 = NaN; the floor step
   * `np.maximum(0, 0.5 * NaN)` keeps the NaN, and every row the window
   * covers is classified LOW even at the worst vitals, where the corrected
   * normalisation keeps the level HIGH.
   */
  lemma OneWindowRecordingHidesAlert(n: nat, score: real, row: AnomalyDetector.AnomalyRow)
    requires WINDOW_SIZE < n <= WINDOW_SIZE + AnomalyDetector.STEP_SIZE
    requires row.anomalyScore == score && row.timeSec == 0
    ensures AnomalyDetector.WindowCount(n) == 1
    ensures AnomRiskAsWritten([score]) == [None]
    ensures var floor := MaxNaN(HalfAsWritten(AnomRiskAsWritten([score])[0]), 0.0);
      floor.None? && RowLevelAsWritten(floor, CRITICAL) == LOW
    ensures FuseRow(FloorAfter(0.0, Windows([row]), 0), CRITICAL).level == HIGH
  {
    assert AnomRisk([score]) == [0.0];
    assert Windows([row]) == [Window(0, 0.0)];
  }
}
