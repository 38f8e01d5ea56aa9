/**
 * Artifact detection and cleaning (src/preprocessing/artifact_handler.py):
 * first-difference flags for motion-correlated saturation drops and heart
 * rate spikes, the in-place masking of flagged saturation readings, and the
 * centred width-5 rolling median (heart rate) and mean (systolic pressure).
 */
module ArtifactHandler {
  import opened Vitals

  const MOTION_THRESHOLD: real := 0.9
  const SPO2_DROP_THRESHOLD: real := 3.0
  const HR_SPIKE_THRESHOLD: real := 15.0

  function HeartRates(rows: seq<Sample>): (col: seq<Reading>)
    ensures |col| == |rows| && forall i :: 0 <= i < |rows| ==> col[i] == rows[i].heartRate
  {
    seq(|rows|, i requires 0 <= i < |rows| => rows[i].heartRate)
  }

  function Spo2s(rows: seq<Sample>): (col: seq<Reading>)
    ensures |col| == |rows| && forall i :: 0 <= i < |rows| ==> col[i] == rows[i].spo2
  {
    seq(|rows|, i requires 0 <= i < |rows| => rows[i].spo2)
  }

  function BpSys(rows: seq<Sample>): (col: seq<Reading>)
    ensures |col| == |rows| && forall i :: 0 <= i < |rows| ==> col[i] == rows[i].bpSys
  {
    seq(|rows|, i requires 0 <= i < |rows| => rows[i].bpSys)
  }

  /** `col.diff()` at row i: NaN at row 0 and wherever either neighbour is NaN. */
  function Diff(col: seq<Reading>, i: nat): (d: Reading)
    requires i < |col|
    ensures d.None? <==> i == 0 || col[i].None? || col[i - 1].None?
    ensures d.Some? ==> col[i - 1].value + d.value == col[i].value
  {
    if i == 0 || col[i].None? || col[i - 1].None? then None
    else Some(col[i].value - col[i - 1].value)
  }

  // ---------------------------------------------------------------------
  // Artifact flags
  // ---------------------------------------------------------------------

  /**
   * `(motion > 0.9) & (spo2_diff < -3)`: a drop of more than 3 points
   * between two present readings under heavy motion. Row 0 is never flagged.
   */
  function Spo2MotionArtifact(rows: seq<Sample>): (flags: seq<bool>)
    ensures |flags| == |rows|
    ensures forall i :: 0 <= i < |rows| ==>
      (flags[i] <==> 0 < i && Above(rows[i].motion, MOTION_THRESHOLD)
                     && rows[i].spo2.Some? && rows[i - 1].spo2.Some?
                     && rows[i].spo2.value - rows[i - 1].spo2.value < -SPO2_DROP_THRESHOLD)
  {
    var spo2 := Spo2s(rows);
    seq(|rows|, i requires 0 <= i < |rows| =>
      Above(rows[i].motion, MOTION_THRESHOLD) && Below(Diff(spo2, i), -SPO2_DROP_THRESHOLD))
  }

  /** `hr_diff.abs() > 15`: a jump of more than 15 between two present readings. */
  function HrArtifact(rows: seq<Sample>): (flags: seq<bool>)
    ensures |flags| == |rows|
    ensures forall i :: 0 <= i < |rows| ==>
      (flags[i] <==> 0 < i && rows[i].heartRate.Some? && rows[i - 1].heartRate.Some?
                     && Abs(rows[i].heartRate.value - rows[i - 1].heartRate.value) > HR_SPIKE_THRESHOLD)
  {
    var hr := HeartRates(rows);
    seq(|rows|, i requires 0 <= i < |rows| =>
      var d := Diff(hr, i);
      d.Some? && Abs(d.value) > HR_SPIKE_THRESHOLD)
  }

  /** `spo2.isna()` on the raw column. */
  function Spo2Missing(rows: seq<Sample>): (flags: seq<bool>)
    ensures |flags| == |rows|
    ensures forall i :: 0 <= i < |rows| ==> (flags[i] <==> rows[i].spo2.None?)
  {
    seq(|rows|, i requires 0 <= i < |rows| => rows[i].spo2.None?)
  }

  // ---------------------------------------------------------------------
  // Masking in place
  // ---------------------------------------------------------------------

  /** `df.loc[flags, "spo2"] = NaN`: only flagged saturation readings change. */
  method MaskSpo2(rows: array<Sample>, flags: seq<bool>)
    requires |flags| == rows.Length
    modifies rows
    ensures forall i :: 0 <= i < rows.Length ==>
      rows[i] == if flags[i] then old(rows[i]).(spo2 := None) else old(rows[i])
  {
    forall i | 0 <= i < rows.Length && flags[i] {
      rows[i] := rows[i].(spo2 := None);
    }
  }

  // ---------------------------------------------------------------------
  // Centred rolling windows of width 5
  // ---------------------------------------------------------------------

  /** Row i has a full centred window: rows i-2 .. i+2 exist and are present. */
  predicate FullWindow(col: seq<Reading>, i: nat)
  {
    2 <= i && i + 2 < |col| && forall j :: i - 2 <= j <= i + 2 ==> col[j].Some?
  }

  /** The five values of a full centred window. */
  function WindowValues(col: seq<Reading>, i: nat): (w: seq<real>)
    requires FullWindow(col, i)
    ensures |w| == 5 && forall k :: 0 <= k < 5 ==> Some(w[k]) == col[i - 2 + k]
  {
    seq(5, k requires 0 <= k < 5 => col[i - 2 + k].value)
  }

  /** `rolling(window=5, center=True).mean()`: NaN unless the full window is present. */
  function RollingMean(col: seq<Reading>, i: nat): (r: Reading)
    ensures r.Some? <==> FullWindow(col, i)
    ensures r.Some? ==> r.value * 5.0 == col[i - 2].value + col[i - 1].value + col[i].value + col[i + 1].value + col[i + 2].value
  {
    if FullWindow(col, i) then
      var w := WindowValues(col, i);
      Some((w[0] + w[1] + w[2] + w[3] + w[4]) / 5.0)
    else None
  }

  /**
   * `rolling(window=5, center=True).median()`: NaN unless the full window is
   * present; otherwise one of the five values with at least three of them
   * at or below it and at least three at or above it.
   */
  function RollingMedian(col: seq<Reading>, i: nat): (r: Reading)
    ensures r.Some? <==> FullWindow(col, i)
    ensures r.Some? ==>
      && r.value in WindowValues(col, i)
      && Count(WindowValues(col, i), r.value, AtMost) >= 3
      && Count(WindowValues(col, i), r.value, AtLeast) >= 3
  {
    if FullWindow(col, i) then
      var w := WindowValues(col, i);
      MedianFacts(w);
      Some(Median(w))
    else None
  }

  /** Rows 0, 1, n-2 and n-1 never get a rolling value. */
  lemma RollingEdgesUndefined(col: seq<Reading>, i: nat)
    requires i < 2 || |col| <= i + 2
    ensures RollingMean(col, i).None? && RollingMedian(col, i).None?
  {
  }

  // ---------------------------------------------------------------------
  // The median of five, by insertion sort
  // ---------------------------------------------------------------------

  datatype Side = AtMost | AtLeast

  predicate OnSide(x: real, m: real, side: Side)
  {
    match side
    case AtMost => x <= m
    case AtLeast => x >= m
  }

  /** Number of elements of s at or below (at or above) m. */
  function Count(s: seq<real>, m: real, side: Side): nat
  {
    if s == [] then 0 else (if OnSide(s[0], m, side) then 1 else 0) + Count(s[1..], m, side)
  }

  predicate Sorted(s: seq<real>)
  {
    forall i, j :: 0 <= i < j < |s| ==> s[i] <= s[j]
  }

  function Insert(x: real, s: seq<real>): (r: seq<real>)
    ensures |r| == |s| + 1
    ensures multiset(r) == multiset(s) + multiset{x}
  {
    if s == [] then [x]
    else if x <= s[0] then [x] + s
    else
      assert s == [s[0]] + s[1..];
      [s[0]] + Insert(x, s[1..])
  }

  function Sort(s: seq<real>): (r: seq<real>)
    ensures |r| == |s|
    ensures multiset(r) == multiset(s)
  {
    if s == [] then []
    else
      assert s == [s[0]] + s[1..];
      Insert(s[0], Sort(s[1..]))
  }

  /** The middle element of the sorted five. */
  function Median(w: seq<real>): real
    requires |w| == 5
  {
    Sort(w)[2]
  }

  lemma {:induction false} InsertSorted(x: real, s: seq<real>)
    requires Sorted(s)
    ensures Sorted(Insert(x, s))
  {
    if s != [] && x > s[0] {
      InsertSorted(x, s[1..]);
      var r := Insert(x, s[1..]);
      forall k | 0 <= k < |r|
        ensures s[0] <= r[k]
      {
        assert r[k] in multiset(r);
        assert r[k] == x || r[k] in multiset(s[1..]);
      }
      assert Insert(x, s) == [s[0]] + r;
    }
  }

  lemma {:induction false} SortSorted(s: seq<real>)
    ensures Sorted(Sort(s))
  {
    if s != [] {
      SortSorted(s[1..]);
      InsertSorted(s[0], Sort(s[1..]));
    }
  }

  lemma {:induction false} InsertCount(x: real, s: seq<real>, m: real, side: Side)
    ensures Count(Insert(x, s), m, side) == (if OnSide(x, m, side) then 1 else 0) + Count(s, m, side)
  {
    if s != [] && x > s[0] {
      InsertCount(x, s[1..], m, side);
      assert Insert(x, s)[1..] == Insert(x, s[1..]);
    } else if s != [] {
      assert Insert(x, s)[1..] == s;
    }
  }

  lemma {:induction false} SortCount(s: seq<real>, m: real, side: Side)
    ensures Count(Sort(s), m, side) == Count(s, m, side)
  {
    if s != [] {
      SortCount(s[1..], m, side);
      InsertCount(s[0], Sort(s[1..]), m, side);
    }
  }

  lemma {:induction false} CountAppend(a: seq<real>, b: seq<real>, m: real, side: Side)
    ensures Count(a + b, m, side) == Count(a, m, side) + Count(b, m, side)
  {
    if a == [] {
      assert a + b == b;
    } else {
      CountAppend(a[1..], b, m, side);
      assert (a + b)[0] == a[0];
      assert (a + b)[1..] == a[1..] + b;
    }
  }

  lemma {:induction false} CountAll(s: seq<real>, m: real, side: Side)
    requires forall k :: 0 <= k < |s| ==> OnSide(s[k], m, side)
    ensures Count(s, m, side) == |s|
  {
    if s != [] {
      CountAll(s[1..], m, side);
    }
  }

  /** The median of five is one of them, with at least three at or below it and three at or above it. */
  lemma MedianFacts(w: seq<real>)
    requires |w| == 5
    ensures Median(w) in w
    ensures Count(w, Median(w), AtMost) >= 3 && Count(w, Median(w), AtLeast) >= 3
  {
    var t := Sort(w);
    assert t[2] in multiset(t);
    SortSorted(w);
    SortCount(w, t[2], AtMost);
    SortCount(w, t[2], AtLeast);
    SortedMiddleCounts(t);
  }

  /** In a sorted sequence of five, the middle element has three at or below and three at or above. */
  lemma SortedMiddleCounts(t: seq<real>)
    requires |t| == 5 && Sorted(t)
    ensures Count(t, t[2], AtMost) >= 3 && Count(t, t[2], AtLeast) >= 3
  {
    var m := t[2];
    assert t == t[..3] + t[3..];
    CountAppend(t[..3], t[3..], m, AtMost);
    CountAll(t[..3], m, AtMost);
    assert t == t[..2] + t[2..];
    CountAppend(t[..2], t[2..], m, AtLeast);
    CountAll(t[2..], m, AtLeast);
  }

  // ---------------------------------------------------------------------
  // The cleaning script
  // ---------------------------------------------------------------------

  /**
   * The smoothing step: heart rate becomes its centred rolling median and systolic
   * pressure its centred rolling mean, both taken over the column as it was
   * before this step; every other column keeps its value.
   */
  method SmoothVitals(rows: array<Sample>)
    modifies rows
    ensures forall i :: 0 <= i < rows.Length ==>
      rows[i] == old(rows[i]).(heartRate := RollingMedian(HeartRates(old(rows[..])), i),
                               bpSys := RollingMean(BpSys(old(rows[..])), i))
  {
    var hr := HeartRates(rows[..]);
    var bp := BpSys(rows[..]);
    forall i | 0 <= i < rows.Length {
      rows[i] := rows[i].(heartRate := RollingMedian(hr, i), bpSys := RollingMean(bp, i));
    }
  }

  /** Masking saturation leaves the heart-rate and systolic columns as they were. */
  lemma MaskKeepsSmoothedColumns(raw: seq<Sample>, masked: seq<Sample>, flags: seq<bool>)
    requires |raw| == |masked| == |flags|
    requires forall i :: 0 <= i < |raw| ==> masked[i] == if flags[i] then raw[i].(spo2 := None) else raw[i]
    ensures HeartRates(masked) == HeartRates(raw) && BpSys(masked) == BpSys(raw)
  {
  }

  /**
   * The cleaning script up to its smoothing: copy the table, compute the three flag columns on the raw
   * values, mask flagged saturation in place, then replace heart rate by
   * its rolling median and systolic pressure by its rolling mean. The
   * returned table is the one before saturation gaps are interpolated.
   */
  method CleanVitals(raw: seq<Sample>)
    returns (cleaned: seq<Sample>, spo2MotionArtifact: seq<bool>, hrArtifact: seq<bool>, spo2Missing: seq<bool>)
    ensures spo2MotionArtifact == Spo2MotionArtifact(raw)
    ensures hrArtifact == HrArtifact(raw)
    ensures spo2Missing == Spo2Missing(raw)
    ensures |cleaned| == |raw|
    ensures forall i :: 0 <= i < |raw| ==>
      && (cleaned[i].spo2.None? <==> raw[i].spo2.None? || spo2MotionArtifact[i])
      && (cleaned[i].spo2.Some? ==> cleaned[i].spo2 == raw[i].spo2)
      && cleaned[i].heartRate == RollingMedian(HeartRates(raw), i)
      && cleaned[i].bpSys == RollingMean(BpSys(raw), i)
      && cleaned[i].bpDia == raw[i].bpDia
      && cleaned[i].motion == raw[i].motion
  {
    spo2MotionArtifact := Spo2MotionArtifact(raw);
    hrArtifact := HrArtifact(raw);
    spo2Missing := Spo2Missing(raw);
    var frame := new Sample[|raw|](i requires 0 <= i < |raw| => raw[i]);
    MaskSpo2(frame, spo2MotionArtifact);
    ghost var masked := frame[..];
    MaskKeepsSmoothedColumns(raw, masked, spo2MotionArtifact);
    SmoothVitals(frame);
    cleaned := frame[..];
  }
}
