/** The motion monitor (cctv.py `mon`): after calibration it scores each new
    frame against a reference frame, calls the recorder when the score
    exceeds 1.3 times the calibrated maximum, and then drops the reference so
    that the next frame starts a fresh baseline. */
module Monitoring {
  import opened Wrappers
  import opened Frames
  import opened Scoring
  import opened Calibration

  /** Frames captured during calibration. */
  const CalibrationFrames: nat := 20
  /** A calibrated mean above this draws a warning. */
  const MeanWarningBound: real := 5.0
  /** A calibrated maximum above this draws a warning. */
  const MaxWarningBound: real := 10.0
  /** The calibrated maximum is scaled by this to give the threshold. */
  const SafetyFactor: real := 1.3

  /** The two non-fatal calibration warnings. */
  datatype Warning = MeanAboveBound | MaxAboveBound

  /** The warnings a calibration draws; neither stops the monitor. */
  function Warnings(s: Stats): (w: set<Warning>)
    ensures MeanAboveBound in w <==> s.mean > MeanWarningBound
    ensures MaxAboveBound in w <==> s.max > MaxWarningBound
  {
    (if s.mean > MeanWarningBound then {MeanAboveBound} else {}) +
    (if s.max > MaxWarningBound then {MaxAboveBound} else {})
  }

  /** The operating threshold: the calibrated maximum scaled by 1.3, so
      never below the maximum itself, and 0 only for a still calibration. */
  function Threshold(s: Stats): (t: real)
    ensures s.max >= 0.0 ==> s.max <= t
    ensures t == 0.0 <==> s.max == 0.0
  {
    s.max * SafetyFactor
  }

  /** The maximum warning looks at the unscaled maximum: it fires exactly
      when the threshold in use exceeds 13. */
  lemma MaxWarningIffThresholdAbove13(s: Stats)
    ensures MaxAboveBound in Warnings(s) <==> Threshold(s) > 13.0
  {
  }

  /** The safety factor absorbs the calibration noise: no score seen during
      calibration would count as motion. */
  lemma CalibrationScoresAreQuiet(ds: seq<real>, k: nat)
    requires k < |ds|
    requires forall i :: 0 <= i < |ds| ==> ds[i] >= 0.0
    ensures ds[k] <= Threshold(Summary(ds))
  {
  }

  /** Scores 1, 2, 3, 4 give a threshold of 5.2 and no warning. */
  lemma ThresholdOfOneToFour()
    ensures Threshold(Summary([1.0, 2.0, 3.0, 4.0])) == 5.2
    ensures Warnings(Summary([1.0, 2.0, 3.0, 4.0])) == {}
  {
    SummaryOfOneToFour();
  }

  /** The outcome of one iteration: the new reference and whether the
      recorder was called. */
  datatype Step = Step(reference: Option<Image>, fired: bool)

  /** One iteration of the monitor loop on a captured buffer. With no
      reference the frame is stored and nothing fires. With a reference the
      frame is scored against it: above the threshold the recorder fires once
      and the reference is dropped, otherwise the frame becomes the
      reference. */
  function Next(res: Resolution, threshold: real, reference: Option<Image>, capture: Image): (o: Step)
    requires Positive(res) && IsCapture(capture, res)
    requires reference.Some? ==> HasShape(reference.value, res.height, res.width)
    ensures o.reference.Some? ==> HasShape(o.reference.value, res.height, res.width)
    ensures o.fired <==> reference.Some? && Score(Crop(capture, res), reference.value) > threshold
    ensures o.fired ==> o.reference == None
    ensures !o.fired ==> o.reference == Some(Crop(capture, res))
  {
    var img := Crop(capture, res);
    match reference
    case None => Step(Some(img), false)
    case Some(prev) =>
      if Score(img, prev) > threshold then Step(None, true) else Step(Some(img), false)
  }

  /** The state after a run of iterations from an empty reference, and for
      each iteration whether it fired. */
  datatype Run = Run(reference: Option<Image>, fired: seq<bool>)

  /** The monitor loop over `captures`, one iteration per capture. */
  function Trace(res: Resolution, threshold: real, captures: seq<Image>): (t: Run)
    requires Positive(res) && AllCaptures(captures, res)
    ensures |t.fired| == |captures|
    ensures t.reference.Some? ==> HasShape(t.reference.value, res.height, res.width)
  {
    if captures == [] then Run(None, [])
    else
      var before := Trace(res, threshold, captures[..|captures| - 1]);
      var o := Next(res, threshold, before.reference, captures[|captures| - 1]);
      Run(o.reference, before.fired + [o.fired])
  }

  /** Number of iterations that fired. */
  function CountFired(fired: seq<bool>): nat
  {
    if fired == [] then 0 else (if fired[0] then 1 else 0) + CountFired(fired[1..])
  }

  /** No two adjacent iterations both fire. */
  predicate NoTwoInARow(fired: seq<bool>)
  {
    forall k :: 0 <= k < |fired| - 1 ==> !(fired[k] && fired[k + 1])
  }

  lemma {:induction false} CountFiredAppend(fired: seq<bool>, b: bool)
    ensures CountFired(fired + [b]) == CountFired(fired) + (if b then 1 else 0)
  {
    if fired != [] {
      assert (fired + [b])[1..] == fired[1..] + [b];
      CountFiredAppend(fired[1..], b);
    }
  }

  /** A history that starts quiet and never fires twice in a row fires at
      most in every other iteration. */
  lemma {:induction false} SparseFiring(fired: seq<bool>)
    requires fired != [] ==> !fired[0]
    requires NoTwoInARow(fired)
    ensures 2 * CountFired(fired) <= |fired|
  {
    if |fired| >= 2 {
      if fired[1] {
        var rest := fired[2..];
        assert |fired| > 2 ==> !fired[2];
        SparseFiring(rest);
        assert fired[1..][1..] == rest;
      } else {
        SparseFiring(fired[1..]);
      }
    }
  }

  /** The reference is empty after a run exactly when the run is empty or its
      last iteration fired. */
  lemma {:induction false} TraceReference(res: Resolution, threshold: real, captures: seq<Image>)
    requires Positive(res) && AllCaptures(captures, res)
    ensures var t := Trace(res, threshold, captures);
      t.reference.None? <==> captures == [] || t.fired[|captures| - 1]
  {
  }

  /** The first iteration never fires, and an iteration that fires is never
      followed by one that fires: after an event the next frame is stored
      without being scored. */
  lemma {:induction false} TraceShape(res: Resolution, threshold: real, captures: seq<Image>)
    requires Positive(res) && AllCaptures(captures, res)
    ensures var f := Trace(res, threshold, captures).fired;
      (f != [] ==> !f[0]) && NoTwoInARow(f)
  {
    if captures != [] {
      var n := |captures|;
      var front := captures[..n - 1];
      TraceShape(res, threshold, front);
      TraceReference(res, threshold, front);
      var before := Trace(res, threshold, front);
      var f := Trace(res, threshold, captures).fired;
      assert f == before.fired + [Next(res, threshold, before.reference, captures[n - 1]).fired];
      assert forall k :: 0 <= k < n - 1 ==> f[k] == before.fired[k];
    }
  }

  /** A run of n iterations fires at most n / 2 times. */
  lemma EventBound(res: Resolution, threshold: real, captures: seq<Image>)
    requires Positive(res) && AllCaptures(captures, res)
    ensures CountFired(Trace(res, threshold, captures).fired) <= |captures| / 2
  {
    TraceShape(res, threshold, captures);
    SparseFiring(Trace(res, threshold, captures).fired);
  }

  /** With a zero threshold (a perfectly still calibration) any change at
      all between the reference and the next frame fires. */
  lemma ZeroThresholdFiresOnAnyChange(res: Resolution, prev: Image, capture: Image)
    requires Positive(res) && IsCapture(capture, res) && HasShape(prev, res.height, res.width)
    ensures Next(res, 0.0, Some(prev), capture).fired <==> Crop(capture, res) != prev
  {
    ScoreZeroIffEqual(Crop(capture, res), prev);
  }

  /** The monitor loop's state: its resolution and fixed threshold, the
      optional reference frame and the number of motion events so far. */
  class MotionMonitor {
    const res: Resolution
    const threshold: real
    var reference: Option<Image>
    var events: nat
    /** The buffers captured so far, in order. */
    ghost var seen: seq<Image>

    ghost predicate Valid()
      reads this
    {
      Positive(res) && AllCaptures(seen, res) &&
      reference == Trace(res, threshold, seen).reference &&
      events == CountFired(Trace(res, threshold, seen).fired)
    }

    constructor (res: Resolution, threshold: real)
      requires Positive(res)
      ensures Valid()
      ensures this.res == res && this.threshold == threshold
      ensures reference == None && events == 0 && seen == []
    {
      this.res := res;
      this.threshold := threshold;
      reference := None;
      events := 0;
      seen := [];
    }

    /** One iteration on a captured buffer; `fired` tells whether the
        recorder was called. */
    method Step(capture: Image) returns (fired: bool)
      requires Valid() && IsCapture(capture, res)
      modifies this
      ensures Valid() && seen == old(seen) + [capture]
      ensures var o := Next(res, threshold, old(reference), capture);
        reference == o.reference && fired == o.fired
      ensures events == old(events) + (if fired then 1 else 0)
    {
      var img := Crop(capture, res);
      fired := false;
      match reference {
        case None =>
          reference := Some(img);
        case Some(prev) =>
          var score := Score(img, prev);
          if score > threshold {
            fired := true;
            events := events + 1;
            reference := None;
          } else {
            reference := Some(img);
          }
      }
      ghost var before := seen;
      seen := seen + [capture];
      assert seen[..|seen| - 1] == before;
      CountFiredAppend(Trace(res, threshold, before).fired, fired);
    }

    /** Runs one iteration per captured buffer, in order. */
    method Run(captures: seq<Image>)
      requires Valid() && AllCaptures(captures, res)
      modifies this
      ensures Valid() && seen == old(seen) + captures
      ensures events <= |seen| / 2
    {
      EventBound(res, threshold, seen);
      for i := 0 to |captures|
        invariant Valid() && seen == old(seen) + captures[..i]
        invariant events <= |seen| / 2
      {
        var _ := Step(captures[i]);
        assert captures[..i + 1] == captures[..i] + [captures[i]];
        EventBound(res, threshold, seen);
      }
      assert captures[..|captures|] == captures;
    }
  }

  /** `range(n)` with -1 standing for 2**64 iterations. */
  function IterationCount(n: int): (k: nat)
    ensures n >= 0 ==> k == n
    ensures n < -1 ==> k == 0
    ensures n == -1 ==> k == 0x1_0000_0000_0000_0000
  {
    if n == -1 then 0x1_0000_0000_0000_0000 else if n < 0 then 0 else n
  }

  /** What a monitoring session produced. */
  datatype Report = Report(calibration: Stats, warnings: set<Warning>, threshold: real, events: nat)

  /** A monitoring session at 640x360: calibrate over 20 frames, warn about a
      noisy calibration without stopping, derive the threshold, then run n
      iterations from an empty reference. */
  method Mon(n: int, calibrationCaptures: seq<Image>, captures: seq<Image>) returns (r: Report)
    requires |calibrationCaptures| == CalibrationFrames && AllCaptures(calibrationCaptures, CctvRes)
    requires |captures| == IterationCount(n) && AllCaptures(captures, CctvRes)
    ensures r.calibration == Summary(Samples(calibrationCaptures, CctvRes))
    ensures r.warnings == Warnings(r.calibration)
    ensures r.threshold == r.calibration.max * SafetyFactor
    ensures r.events == CountFired(Trace(CctvRes, r.threshold, captures).fired)
    ensures r.events <= |captures| / 2
  {
    var calibrated := Calibrate(calibrationCaptures, CctvRes);
    var stats := calibrated.value;
    var warnings := Warnings(stats);
    var threshold := Threshold(stats);
    var monitor := new MotionMonitor(CctvRes, threshold);
    monitor.Run(captures);
    assert monitor.seen == captures;
    r := Report(stats, warnings, threshold, monitor.events);
  }
}
