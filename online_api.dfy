/**
 * The online scoring call (api/main.py): buffer extrema with Python's
 * builtin `max` / `min`, the slope-based anomaly flag, the buffer
 * confidence, the single-discount risk and the 60/40 level of `predict`.
 *
 * The least-squares slope (`np.polyfit`) is an opaque partial function
 * `slope` of one buffer: `None` stands for a fit that raises (an empty
 * buffer, or readings the fit cannot use).
 */
module OnlineApi {
  import opened Vitals

  /**
   * Python's builtin `max` over a float array: it keeps the first element
   * and replaces it by a later one only when that one compares greater.
   * A comparison with NaN is false, so a NaN first element is the result,
   * and a later NaN is skipped.
   */
  function PyMax(s: seq<Reading>): (m: Reading)
    requires |s| > 0
    ensures m in s
    ensures s[0].None? ==> m.None?
    ensures s[0].Some? ==> m.Some? && forall k :: 0 <= k < |s| && s[k].Some? ==> s[k].value <= m.value
    decreases |s|
  {
    if |s| == 1 then s[0]
    else
      var m := PyMax(s[..|s| - 1]);
      var x := s[|s| - 1];
      if x.Some? && m.Some? && x.value > m.value then x else m
  }

  /** Python's builtin `min`, with the same NaN behaviour as `PyMax`. */
  function PyMin(s: seq<Reading>): (m: Reading)
    requires |s| > 0
    ensures m in s
    ensures s[0].None? ==> m.None?
    ensures s[0].Some? ==> m.Some? && forall k :: 0 <= k < |s| && s[k].Some? ==> m.value <= s[k].value
    decreases |s|
  {
    if |s| == 1 then s[0]
    else
      var m := PyMin(s[..|s| - 1]);
      var x := s[|s| - 1];
      if x.Some? && m.Some? && x.value < m.value then x else m
  }

  /** With a present first element, `max(s) > t` holds exactly when some element exceeds t. */
  lemma PyMaxAboveIff(s: seq<Reading>, t: real)
    requires |s| > 0 && s[0].Some?
    ensures Above(PyMax(s), t) <==> exists k :: 0 <= k < |s| && Above(s[k], t)
  {
    if Above(PyMax(s), t) {
      var k :| 0 <= k < |s| && s[k] == PyMax(s);
      assert Above(s[k], t);
    }
  }

  /** With a present first element, `min(s) < t` holds exactly when some element is below t. */
  lemma PyMinBelowIff(s: seq<Reading>, t: real)
    requires |s| > 0 && s[0].Some?
    ensures Below(PyMin(s), t) <==> exists k :: 0 <= k < |s| && Below(s[k], t)
  {
    if Below(PyMin(s), t) {
      var k :| 0 <= k < |s| && s[k] == PyMin(s);
      assert Below(s[k], t);
    }
  }

  /** `any(np.isnan(spo2))`: scans the buffer and stops at the first NaN. */
  function HasMissing(s: seq<Reading>): (b: bool)
    ensures b <==> exists k :: 0 <= k < |s| && s[k].None?
  {
    if s == [] then false
    else if s[0].None? then true
    else
      var rest := HasMissing(s[1..]);
      assert rest ==> exists k :: 0 <= k < |s| && s[k].None? by {
        if rest {
          var k :| 0 <= k < |s[1..]| && s[1..][k].None?;
          assert s[k + 1].None?;
        }
      }
      assert (exists k :: 0 <= k < |s| && s[k].None?) ==> rest by {
        if exists k :: 0 <= k < |s| && s[k].None? {
          var k :| 0 <= k < |s| && s[k].None?;
          assert k > 0 && s[1..][k - 1].None?;
        }
      }
      rest
  }

  /**
   * The anomaly score `|hr_slope| + |spo2_slope|` of two fitted slopes,
   * flagged when above 0.5.
   */
  function ComputeAnomaly(hrSlope: real, spo2Slope: real): (r: (bool, real))
    ensures r.1 >= 0.0
    ensures r.0 <==> r.1 > 0.5
    ensures r.1 >= Abs(hrSlope) && r.1 >= Abs(spo2Slope)
  {
    var score := Abs(hrSlope) + Abs(spo2Slope);
    (score > 0.5, score)
  }

  /** Buffer confidence: penalised when `max(motion) > 1.0` and when any saturation is NaN. */
  function ComputeConfidence(motion: seq<Reading>, spo2: seq<Reading>): (c: real)
    requires |motion| > 0
    ensures c == 1.0 || c == 0.6 || c == 0.2
    ensures c == 0.2 <==> Above(PyMax(motion), MOTION_LIMIT) && HasMissing(spo2)
    ensures c == 1.0 <==> !Above(PyMax(motion), MOTION_LIMIT) && !HasMissing(spo2)
  {
    Discount(Above(PyMax(motion), MOTION_LIMIT), HasMissing(spo2))
  }

  /** A risk fraction discounted once by the confidence, on the 0-100 scale. */
  function Percent(risk: real, conf: real): real
  {
    risk * conf * 100.0
  }

  /**
   * `min(risk * conf * 100, 100)` over the buffer extrema. For a confidence
   * in [0, 1] the cap never binds and the score lies in [0, 90].
   */
  function ComputeRisk(hr: seq<Reading>, spo2: seq<Reading>, bpSys: seq<Reading>, conf: real): (r: real)
    requires |hr| > 0 && |spo2| > 0 && |bpSys| > 0
    ensures r <= 100.0
    ensures 0.0 <= conf <= 1.0 ==> 0.0 <= r <= 90.0
    ensures 0.0 <= conf <= 1.0 ==> r == Percent(ThresholdRisk(PyMax(hr), PyMin(spo2), PyMax(bpSys)), conf)
  {
    var risk := ThresholdRisk(PyMax(hr), PyMin(spo2), PyMax(bpSys));
    Min(risk * conf * 100.0, 100.0)
  }

  /**
   * At a fixed confidence, raising the maximum heart rate or systolic
   * pressure, or lowering the minimum saturation, never lowers the risk.
   */
  lemma ComputeRiskMonotone(hr: seq<Reading>, spo2: seq<Reading>, bp: seq<Reading>,
                            hr': seq<Reading>, spo2': seq<Reading>, bp': seq<Reading>, conf: real)
    requires |hr| > 0 && |spo2| > 0 && |bp| > 0 && |hr'| > 0 && |spo2'| > 0 && |bp'| > 0
    requires 0.0 <= conf <= 1.0
    requires Raised(PyMax(hr), PyMax(hr')) && Raised(PyMax(bp), PyMax(bp'))
    requires PyMin(spo2).None? || (PyMin(spo2').Some? && PyMin(spo2').value <= PyMin(spo2).value)
    ensures ComputeRisk(hr, spo2, bp, conf) <= ComputeRisk(hr', spo2', bp', conf)
  {
    var a := ThresholdRisk(PyMax(hr), PyMin(spo2), PyMax(bp));
    var b := ThresholdRisk(PyMax(hr'), PyMin(spo2'), PyMax(bp'));
    ThresholdRiskMonotone(PyMax(hr), PyMin(spo2), PyMax(bp), PyMax(hr'), PyMin(spo2'), PyMax(bp'));
    ScaleMonotone(a, b, conf);
  }

  lemma ScaleMonotone(a: real, b: real, c: real)
    requires a <= b && 0.0 <= c
    ensures Percent(a, c) <= Percent(b, c)
  {
    assert (b - a) * c >= 0.0;
  }

  /** The request body: five lists; only their emptiness is ever checked, never their lengths. */
  datatype VitalsInput = VitalsInput(heartRate: seq<Reading>, spo2: seq<Reading>, bpSys: seq<Reading>,
                                     bpDia: seq<Reading>, motion: seq<Reading>)

  /** The response body. */
  datatype Prediction = Prediction(anomaly: bool, riskScore: real, riskLevel: Level, confidence: real)

  /**
   * `max` and `min` raise on an empty list and `polyfit` raises on a buffer
   * it cannot fit; the name is the list whose call raised first.
   */
  datatype Result = Ok(prediction: Prediction) | EmptyList(field: string) | FitFailed(field: string)

  /**
   * `predict`: anomaly flag, confidence, risk, then the 60/40 level. The
   * calls run in that order: the heart-rate fit, the saturation fit, then
   * `max(motion)`, then the extrema of the risk. The first empty list or
   * failed fit raises; bp_dia is never read.
   */
  function Predict(v: VitalsInput, slope: seq<Reading> -> Option<real>): (r: Result)
    ensures r.Ok? <==>
      && |v.heartRate| > 0 && |v.spo2| > 0 && |v.motion| > 0 && |v.bpSys| > 0
      && slope(v.heartRate).Some? && slope(v.spo2).Some?
    ensures r.EmptyList? ==> |v.heartRate| == 0 || |v.spo2| == 0 || |v.motion| == 0 || |v.bpSys| == 0
    ensures r.FitFailed? ==> slope(v.heartRate).None? || slope(v.spo2).None?
    ensures r.Ok? ==>
      && 0.0 <= r.prediction.riskScore <= 90.0
      && r.prediction.confidence == ComputeConfidence(v.motion, v.spo2)
      && r.prediction.riskScore == Percent(ThresholdRisk(PyMax(v.heartRate), PyMin(v.spo2), PyMax(v.bpSys)), r.prediction.confidence)
      && r.prediction.riskLevel == Classify(r.prediction.riskScore, ONLINE_TABLE)
      && (r.prediction.anomaly <==> Abs(slope(v.heartRate).value) + Abs(slope(v.spo2).value) > 0.5)
  {
    if |v.heartRate| == 0 then EmptyList("heart_rate")
    else if slope(v.heartRate).None? then FitFailed("heart_rate")
    else if |v.spo2| == 0 then EmptyList("spo2")
    else if slope(v.spo2).None? then FitFailed("spo2")
    else if |v.motion| == 0 then EmptyList("motion")
    else if |v.bpSys| == 0 then EmptyList("bp_sys")
    else
      var (anomalyFlag, _) := ComputeAnomaly(slope(v.heartRate).value, slope(v.spo2).value);
      var confidence := ComputeConfidence(v.motion, v.spo2);
      var riskScore := ComputeRisk(v.heartRate, v.spo2, v.bpSys, confidence);
      var riskLevel := if riskScore >= 60.0 then HIGH else if riskScore >= 40.0 then MEDIUM else LOW;
      Ok(Prediction(anomalyFlag, riskScore, riskLevel, confidence))
  }

  /**
   * An online HIGH needs full confidence (no heavy motion, no missing
   * saturation) and low saturation: 0.9 * 0.6 * 100 = 54 stays below 60.
   */
  lemma OnlineHighNeedsLowSpo2AtRest(v: VitalsInput, slope: seq<Reading> -> Option<real>)
    requires Predict(v, slope).Ok? && Predict(v, slope).prediction.riskLevel == HIGH
    ensures !Above(PyMax(v.motion), MOTION_LIMIT) && !HasMissing(v.spo2)
    ensures Below(PyMin(v.spo2), SPO2_LIMIT)
  {
    var p := Predict(v, slope).prediction;
    var t := ThresholdRisk(PyMax(v.heartRate), PyMin(v.spo2), PyMax(v.bpSys));
    assert p.riskScore == t * p.confidence * 100.0 && p.riskScore >= 60.0;
  }

  /** The diastolic pressure never influences the response. */
  lemma BpDiaIgnored(v: VitalsInput, bpDia: seq<Reading>, slope: seq<Reading> -> Option<real>)
    ensures Predict(v.(bpDia := bpDia), slope) == Predict(v, slope)
  {
  }

  /** The online level is monotone in the score. */
  lemma OnlineLevelMonotone(a: real, b: real)
    requires a <= b
    ensures Rank(Classify(a, ONLINE_TABLE)) <= Rank(Classify(b, ONLINE_TABLE))
  {
    ClassifyMonotone(a, b, ONLINE_TABLE);
  }

  function Constant(x: real, n: nat): seq<Reading>
  {
    seq(n, _ => Some(x))
  }

  /** hr 120, spo2 85, bp_sys 150, motion 1.5: confidence 0.6, score 54, MEDIUM. */
  lemma ExampleMotionDiscount(slope: seq<Reading> -> Option<real>)
    requires slope(Constant(120.0, 3)).Some? && slope(Constant(85.0, 3)).Some?
    ensures var r := Predict(VitalsInput(Constant(120.0, 3), Constant(85.0, 3), Constant(150.0, 3),
                                         Constant(80.0, 3), Constant(1.5, 3)), slope);
      r.Ok? && r.prediction.confidence == 0.6 && r.prediction.riskScore == 54.0 && r.prediction.riskLevel == MEDIUM
  {
    var v := VitalsInput(Constant(120.0, 3), Constant(85.0, 3), Constant(150.0, 3), Constant(80.0, 3), Constant(1.5, 3));
    assert !HasMissing(v.spo2);
    assert PyMax(v.motion) == Some(1.5);
    assert PyMax(v.heartRate) == Some(120.0) && PyMin(v.spo2) == Some(85.0) && PyMax(v.bpSys) == Some(150.0);
    assert ComputeConfidence(v.motion, v.spo2) == 0.6;
    assert ThresholdRisk(Some(120.0), Some(85.0), Some(150.0)) == 0.9;
    assert Percent(0.9, 0.6) == 54.0;
  }

  /** hr 120, spo2 95, bp_sys 130, motion 0.1: confidence 1.0, score 30, LOW. */
  lemma ExampleFastHeartOnly(slope: seq<Reading> -> Option<real>)
    requires slope(Constant(120.0, 3)).Some? && slope(Constant(95.0, 3)).Some?
    ensures var r := Predict(VitalsInput(Constant(120.0, 3), Constant(95.0, 3), Constant(130.0, 3),
                                         Constant(80.0, 3), Constant(0.1, 3)), slope);
      r.Ok? && r.prediction.confidence == 1.0 && r.prediction.riskScore == 30.0 && r.prediction.riskLevel == LOW
  {
    var v := VitalsInput(Constant(120.0, 3), Constant(95.0, 3), Constant(130.0, 3), Constant(80.0, 3), Constant(0.1, 3));
    assert !HasMissing(v.spo2);
    assert PyMax(v.motion) == Some(0.1);
    assert PyMax(v.heartRate) == Some(120.0) && PyMin(v.spo2) == Some(95.0) && PyMax(v.bpSys) == Some(130.0);
  }

  /**
   * `compute_confidence` on its own: a saturation buffer that is entirely
   * missing loses 0.4 confidence whatever the other vitals. Inside
   * `predict` such a buffer only reaches it if the saturation fit before
   * it did not raise.
   */
  lemma AllSpo2MissingPenalised(motion: seq<Reading>, n: nat)
    requires |motion| > 0 && n > 0
    ensures ComputeConfidence(motion, seq(n, _ => None))
         == ComputeConfidence(motion, seq(n, _ => Some(95.0))) - 0.4
  {
    var miss: seq<Reading> := seq(n, _ => None);
    var pres: seq<Reading> := seq(n, _ => Some(95.0));
    assert miss[0].None?;
    assert forall k :: 0 <= k < |pres| ==> pres[k].Some?;
  }

  /** A response computed from a saturation buffer with a NaN carries at most 0.6 confidence. */
  lemma MissingSpo2ResponseDiscounted(v: VitalsInput, slope: seq<Reading> -> Option<real>, k: nat)
    requires k < |v.spo2| && v.spo2[k].None?
    requires Predict(v, slope).Ok?
    ensures Predict(v, slope).prediction.confidence <= 0.6
  {
    assert HasMissing(v.spo2);
  }
}
