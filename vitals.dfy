/**
 * Shared vocabulary of the risk-scoring scripts: readings that may be
 * missing, comparisons as pandas and numpy evaluate them, the vital-sign
 * threshold rule, the confidence rule and the discrete risk levels.
 */
module Vitals {

  /** A value that may be absent. For a reading, `None` stands for NaN / NA. */
  datatype Option<+T> = None | Some(value: T)

  /** One vital-sign reading; `None` is a missing value (NaN in the data frame). */
  type Reading = Option<real>

  /** `x > t` as pandas evaluates it: any comparison with NaN is false. */
  predicate Above(x: Reading, t: real)
  {
    x.Some? && x.value > t
  }

  /** `x < t` as pandas evaluates it: any comparison with NaN is false. */
  predicate Below(x: Reading, t: real)
  {
    x.Some? && x.value < t
  }

  /** One row of the vital-sign table (one second of instrumentation). */
  datatype Sample = Sample(heartRate: Reading, spo2: Reading, bpSys: Reading, bpDia: Reading, motion: Reading)

  const HR_LIMIT: real := 110.0
  const SPO2_LIMIT: real := 92.0
  const BP_SYS_LIMIT: real := 140.0
  const MOTION_LIMIT: real := 1.0

  function Abs(x: real): real { if x < 0.0 then -x else x }
  function Min(a: real, b: real): real { if a <= b then a else b }
  function Max(a: real, b: real): real { if a >= b then a else b }

  /** The weight of one threshold rule when it fires, else nothing. */
  function Term(fired: bool, weight: real): real { if fired then weight else 0.0 }

  /**
   * The additive threshold rule shared by the offline and the online scorer:
   * 0.3 for a fast heart rate, 0.4 for low saturation, 0.2 for high systolic
   * pressure. A missing reading never fires its rule.
   */
  function ThresholdRisk(hr: Reading, spo2: Reading, bpSys: Reading): (r: real)
    ensures 0.0 <= r <= 0.9
    ensures r == 0.9 <==> Above(hr, HR_LIMIT) && Below(spo2, SPO2_LIMIT) && Above(bpSys, BP_SYS_LIMIT)
    ensures r == 0.0 <==> !Above(hr, HR_LIMIT) && !Below(spo2, SPO2_LIMIT) && !Above(bpSys, BP_SYS_LIMIT)
  {
    Term(Above(hr, HR_LIMIT), 0.3) + Term(Below(spo2, SPO2_LIMIT), 0.4) + Term(Above(bpSys, BP_SYS_LIMIT), 0.2)
  }

  /**
   * The three rules are independent: the sum tells exactly which of them
   * fired, because every subset of {0.3, 0.4, 0.2} has a different sum.
   */
  lemma ThresholdRiskDeterminesRules(hr: Reading, spo2: Reading, bp: Reading, hr': Reading, spo2': Reading, bp': Reading)
    requires ThresholdRisk(hr, spo2, bp) == ThresholdRisk(hr', spo2', bp')
    ensures Above(hr, HR_LIMIT) == Above(hr', HR_LIMIT)
    ensures Below(spo2, SPO2_LIMIT) == Below(spo2', SPO2_LIMIT)
    ensures Above(bp, BP_SYS_LIMIT) == Above(bp', BP_SYS_LIMIT)
  {
  }

  /** A missing saturation reading adds no risk: it counts like a normal one. */
  lemma MissingSpo2AddsNoRisk(hr: Reading, bp: Reading)
    ensures ThresholdRisk(hr, None, bp) == ThresholdRisk(hr, Some(SPO2_LIMIT), bp)
    ensures ThresholdRisk(hr, None, bp) <= 0.5
  {
  }

  /** `a` is raised to `b`: every `Above` test that `a` passes, `b` passes too. */
  predicate Raised(a: Reading, b: Reading)
  {
    a.None? || (b.Some? && a.value <= b.value)
  }

  /**
   * Raising heart rate or systolic pressure, or lowering saturation, never
   * lowers the threshold risk.
   */
  lemma ThresholdRiskMonotone(hr: Reading, spo2: Reading, bp: Reading, hr': Reading, spo2': Reading, bp': Reading)
    requires Raised(hr, hr') && Raised(bp, bp')
    requires spo2.None? || (spo2'.Some? && spo2'.value <= spo2.value)
    ensures ThresholdRisk(hr, spo2, bp) <= ThresholdRisk(hr', spo2', bp')
  {
  }

  /**
   * The confidence rule: start at 1.0, subtract 0.4 for heavy motion and 0.4
   * for missing saturation, floor at 0.2. In exact arithmetic the floor never
   * binds: the result is 1.0 minus 0.4 per penalty.
   */
  function Discount(motionHigh: bool, spo2Missing: bool): (c: real)
    ensures c == 1.0 - Term(motionHigh, 0.4) - Term(spo2Missing, 0.4)
    ensures c == 1.0 || c == 0.6 || c == 0.2
    ensures c == 0.2 <==> motionHigh && spo2Missing
    ensures c == 1.0 <==> !motionHigh && !spo2Missing
  {
    var c := 1.0 - (if motionHigh then 0.4 else 0.0);
    var c' := c - (if spo2Missing then 0.4 else 0.0);
    Max(c', 0.2)
  }

  /** Discrete risk level, ordered LOW < MEDIUM < HIGH by `Rank`. */
  datatype Level = LOW | MEDIUM | HIGH

  function Rank(l: Level): nat
  {
    match l
    case LOW => 0
    case MEDIUM => 1
    case HIGH => 2
  }

  /** A classification table: the lower bounds of HIGH and of MEDIUM. */
  datatype LevelTable = LevelTable(high: real, medium: real)

  /** Table of the offline batch scorer. */
  const OFFLINE_TABLE: LevelTable := LevelTable(70.0, 40.0)
  /** Table of the online scoring call. */
  const ONLINE_TABLE: LevelTable := LevelTable(60.0, 40.0)

  /**
   * The if-chain `>= high -> HIGH, >= medium -> MEDIUM, else LOW`: the high
   * bound is tested first, so it wins even when a table puts it below the
   * medium bound.
   */
  function Classify(score: real, table: LevelTable): (l: Level)
    ensures l == HIGH <==> score >= table.high
    ensures l == MEDIUM <==> table.medium <= score < table.high
    ensures l == LOW <==> score < table.medium && score < table.high
  {
    if score >= table.high then HIGH
    else if score >= table.medium then MEDIUM
    else LOW
  }

  /** With medium <= high, a higher score never gives a lower level. */
  lemma ClassifyMonotone(a: real, b: real, table: LevelTable)
    requires table.medium <= table.high
    requires a <= b
    ensures Rank(Classify(a, table)) <= Rank(Classify(b, table))
  {
  }
}
