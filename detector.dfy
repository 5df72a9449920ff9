/** The split-step detector of processData (interface.cpp) as a value:
    the module globals `begin`, `beginTime`, `maxZGyro`, `beginZAcc` and
    `endZAcc`, and one hysteresis step per batch of IMU samples. A batch
    enters as its summary (the averages the source computes, and the
    batch timestamp); the averaging itself is not part of this model. */
module Detector {
  import opened Platform

  const BEGIN_THRESHOLD: real := 6.0
  const END_THRESHOLD: real := 10.0
  const SPLIT_STEP_THRESHOLD: real := 80.0
  const GOOD_STEP_LENGTH: nat := 200

  /** averageAccMagnitude, averageZAcc, averageZGyro and data.timestamp. */
  datatype Batch = Batch(accMagnitude: real, zAcc: real, zGyro: real, timestamp: u32)

  datatype State = State(begin: bool, beginTime: u32, maxZGyro: real, beginZAcc: real, endZAcc: real)

  /** The globals before the first batch (static storage starts at zero). */
  const INITIAL: State := State(false, 0, 0.0, 0.0, 0.0)

  /** The two messages the detector can send. */
  datatype Verdict = Excellent | TooHigh

  datatype Update = Update(state: State, verdict: Option<Verdict>)

  /** fmax, for values that are not NaN. */
  function Max(a: real, b: real): (m: real)
    ensures m >= a && m >= b && (m == a || m == b)
  {
    if a >= b then a else b
  }

  /** The uint32 difference `endTime - beginTime`. */
  function Elapsed(from: u32, to: u32): (d: u32)
    ensures from <= to ==> d == to - from
    ensures to < from ==> d == to - from + U32_MODULUS
  {
    (to - from) % U32_MODULUS
  }

  function Classify(beginTime: u32, endTime: u32): Verdict {
    if Elapsed(beginTime, endTime) <= GOOD_STEP_LENGTH then Excellent else TooHigh
  }

  /** One batch, as lines 118-171 treat it. */
  function Step(s: State, b: Batch): Update {
    if b.accMagnitude < BEGIN_THRESHOLD then
      var entered :=
        if !s.begin then s.(begin := true, maxZGyro := 0.0, beginZAcc := b.zAcc, beginTime := b.timestamp)
        else s.(endZAcc := b.zAcc);
      Update(entered.(maxZGyro := Max(entered.maxZGyro, b.zGyro)), None)
    else if s.begin && b.accMagnitude > END_THRESHOLD then
      var left := s.(begin := false);
      if s.maxZGyro < SPLIT_STEP_THRESHOLD then Update(left, Some(Classify(s.beginTime, b.timestamp)))
      else Update(left, None)
    else
      Update(s, None)
  }

  /** A batch below the begin threshold sends nothing; it opens a window
      (recording its start) when none is open and otherwise only records
      the latest z-acceleration; either way the peak gyro takes it in. */
  lemma StepInsideWindow(s: State, b: Batch)
    requires b.accMagnitude < BEGIN_THRESHOLD
    ensures var u := Step(s, b);
      && u.verdict == None
      && u.state.begin
      && u.state.maxZGyro == Max(if s.begin then s.maxZGyro else 0.0, b.zGyro)
      && (!s.begin ==> u.state.beginTime == b.timestamp && u.state.beginZAcc == b.zAcc && u.state.endZAcc == s.endZAcc)
      && (s.begin ==> u.state.beginTime == s.beginTime && u.state.beginZAcc == s.beginZAcc && u.state.endZAcc == b.zAcc)
  {
  }

  /** A batch above the end threshold closes an open window; it is
      reported only when the rotation stayed below the split-step
      threshold, and then as excellent exactly when the window lasted at
      most GOOD_STEP_LENGTH (uint32 time). */
  lemma StepClosesWindow(s: State, b: Batch)
    requires s.begin && b.accMagnitude > END_THRESHOLD
    ensures var u := Step(s, b);
      && u.state == s.(begin := false)
      && (s.maxZGyro >= SPLIT_STEP_THRESHOLD ==> u.verdict == None)
      && (s.maxZGyro < SPLIT_STEP_THRESHOLD ==>
            u.verdict == Some(if (b.timestamp - s.beginTime) % U32_MODULUS <= GOOD_STEP_LENGTH then Excellent else TooHigh))
  {
  }

  /** Between the thresholds, or above the begin threshold with no open
      window, nothing changes and nothing is sent. */
  lemma StepOutsideWindow(s: State, b: Batch)
    requires b.accMagnitude >= BEGIN_THRESHOLD
    requires !s.begin || b.accMagnitude <= END_THRESHOLD
    ensures Step(s, b) == Update(s, None)
  {
  }

  datatype Outcome = Outcome(state: State, verdicts: seq<Verdict>)

  function VerdictList(v: Option<Verdict>): seq<Verdict> {
    if v.Some? then [v.value] else []
  }

  /** The detector fed a stream of batches in order. */
  function Run(s: State, batches: seq<Batch>): Outcome
    decreases |batches|
  {
    if batches == [] then Outcome(s, [])
    else
      var u := Step(s, batches[0]);
      var rest := Run(u.state, batches[1..]);
      Outcome(rest.state, VerdictList(u.verdict) + rest.verdicts)
  }

  /** A stream that never drops below the begin threshold, fed to a
      detector with no open window, sends nothing and changes nothing. */
  lemma {:induction false} NoDipNoVerdict(s: State, batches: seq<Batch>)
    requires !s.begin
    requires forall i | 0 <= i < |batches| :: batches[i].accMagnitude >= BEGIN_THRESHOLD
    ensures Run(s, batches) == Outcome(s, [])
    decreases |batches|
  {
    if batches != [] {
      NoDipNoVerdict(s, batches[1..]);
    }
  }

  /** The peak of the gyro averages over a window, starting from `m`. */
  function Peak(m: real, window: seq<Batch>): real
    decreases |window|
  {
    if window == [] then m else Peak(Max(m, window[0].zGyro), window[1..])
  }

  /** With a window open, more batches below the begin threshold followed
      by one above the end threshold send exactly one verdict when the
      peak gyro stays below the split-step threshold, and none otherwise. */
  lemma {:induction false} OpenWindowThenClose(s: State, window: seq<Batch>, last: Batch)
    requires s.begin
    requires forall i | 0 <= i < |window| :: window[i].accMagnitude < BEGIN_THRESHOLD
    requires last.accMagnitude > END_THRESHOLD
    ensures var r := Run(s, window + [last]);
      && !r.state.begin
      && r.state.beginTime == s.beginTime
      && r.state.beginZAcc == s.beginZAcc
      && r.state.maxZGyro == Peak(s.maxZGyro, window)
      && r.verdicts == (if Peak(s.maxZGyro, window) < SPLIT_STEP_THRESHOLD
                        then [Classify(s.beginTime, last.timestamp)] else [])
    decreases |window|
  {
    if window == [] {
      assert [] + [last] == [last];
    } else {
      assert (window + [last])[0] == window[0];
      assert (window + [last])[1..] == window[1..] + [last];
      OpenWindowThenClose(Step(s, window[0]).state, window[1..], last);
    }
  }

  /** A split step end to end: from no open window, a dip of batches below
      the begin threshold followed by one batch above the end threshold
      yields one verdict (excellent when the uint32 time from the first dip
      batch to the closing batch is at most GOOD_STEP_LENGTH, too high
      otherwise) when the peak gyro of the dip is below the split-step
      threshold, and no verdict otherwise; the window is closed again. */
  lemma SplitStepVerdict(s: State, window: seq<Batch>, last: Batch)
    requires !s.begin && |window| > 0
    requires forall i | 0 <= i < |window| :: window[i].accMagnitude < BEGIN_THRESHOLD
    requires last.accMagnitude > END_THRESHOLD
    ensures var r := Run(s, window + [last]);
      && !r.state.begin
      && r.state.beginTime == window[0].timestamp
      && r.state.beginZAcc == window[0].zAcc
      && r.verdicts == (if Peak(0.0, window) < SPLIT_STEP_THRESHOLD
                        then [if Elapsed(window[0].timestamp, last.timestamp) <= GOOD_STEP_LENGTH then Excellent else TooHigh]
                        else [])
  {
    assert (window + [last])[0] == window[0];
    assert (window + [last])[1..] == window[1..] + [last];
    var dipping := Step(s, window[0]).state;
    OpenWindowThenClose(dipping, window[1..], last);
    assert Peak(0.0, window) == Peak(dipping.maxZGyro, window[1..]);
  }

  /** Peak is the maximum of its start and the window's gyro averages. */
  lemma {:induction false} PeakIsMaximum(m: real, window: seq<Batch>)
    ensures Peak(m, window) >= m
    ensures forall i | 0 <= i < |window| :: Peak(m, window) >= window[i].zGyro
    ensures Peak(m, window) == m || exists i | 0 <= i < |window| :: Peak(m, window) == window[i].zGyro
    decreases |window|
  {
    if window != [] {
      PeakIsMaximum(Max(m, window[0].zGyro), window[1..]);
      forall i | 1 <= i < |window| ensures window[i] == window[1..][i - 1] { }
      if Peak(m, window) != Max(m, window[0].zGyro) {
        var i :| 0 <= i < |window[1..]| && Peak(m, window) == window[1..][i].zGyro;
        assert Peak(m, window) == window[i + 1].zGyro;
      }
    }
  }

  /** So a dip counts as a split step exactly when every batch of it
      rotated less than the split-step threshold. */
  lemma LowRotationWindow(window: seq<Batch>)
    ensures Peak(0.0, window) < SPLIT_STEP_THRESHOLD
        <==> forall i | 0 <= i < |window| :: window[i].zGyro < SPLIT_STEP_THRESHOLD
  {
    PeakIsMaximum(0.0, window);
  }
}
