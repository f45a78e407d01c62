/** Calibration of the noise floor (cctv.py `calibrate`): n frames are
    captured in turn, each is scored against the one before it, and the
    n - 1 scores are summarised as (min, mean, max). */
module Calibration {
  import opened Wrappers
  import opened Frames
  import opened Scoring

  /** The summary `(np.min(ds), np.mean(ds), np.max(ds))`. */
  datatype Stats = Stats(min: real, mean: real, max: real)

  /** `np.min` on the empty list of scores raises: fewer than two frames
      give no score to summarise. */
  datatype CalibrationError = NoSamples

  /** The scores a calibration over `captures` collects: sample k compares
      frame k + 1 with frame k, both cropped to `res`. */
  function Samples(captures: seq<Image>, res: Resolution): (ds: seq<real>)
    requires Positive(res) && AllCaptures(captures, res)
    ensures |ds| == if |captures| < 2 then 0 else |captures| - 1
    ensures forall k :: 0 <= k < |ds| ==> ds[k] >= 0.0
  {
    if |captures| < 2 then []
    else
      var n := |captures|;
      Samples(captures[..n - 1], res) + [Score(Crop(captures[n - 1], res), Crop(captures[n - 2], res))]
  }

  /** Each sample compares one frame with its immediate predecessor only. */
  lemma {:induction false} SampleAt(captures: seq<Image>, res: Resolution, k: nat)
    requires Positive(res) && AllCaptures(captures, res)
    requires k + 1 < |captures|
    ensures Samples(captures, res)[k] == Score(Crop(captures[k + 1], res), Crop(captures[k], res))
  {
    var n := |captures|;
    if k + 2 < n {
      var front := captures[..n - 1];
      SampleAt(front, res, k);
      assert front[k + 1] == captures[k + 1] && front[k] == captures[k];
    }
  }

  function Sum(ds: seq<real>): real
  {
    if ds == [] then 0.0 else ds[0] + Sum(ds[1..])
  }

  /** `np.min`: an element of the scores that is no larger than any other. */
  function Min(ds: seq<real>): (m: real)
    requires |ds| > 0
    ensures m in ds
    ensures forall k :: 0 <= k < |ds| ==> m <= ds[k]
  {
    if |ds| == 1 then ds[0]
    else
      var rest := Min(ds[1..]);
      if ds[0] <= rest then ds[0] else rest
  }

  /** `np.max`: an element of the scores that is no smaller than any other. */
  function Max(ds: seq<real>): (m: real)
    requires |ds| > 0
    ensures m in ds
    ensures forall k :: 0 <= k < |ds| ==> ds[k] <= m
  {
    if |ds| == 1 then ds[0]
    else
      var rest := Max(ds[1..]);
      if ds[0] >= rest then ds[0] else rest
  }

  /** `np.mean`, over exact rationals: it lies between the smallest and the
      largest score. */
  function Mean(ds: seq<real>): (m: real)
    requires |ds| > 0
    ensures Min(ds) <= m <= Max(ds)
  {
    AverageAtLeast(ds, Min(ds));
    AverageAtMost(ds, Max(ds));
    Sum(ds) / |ds| as real
  }

  /** A lower bound on every score bounds their average. */
  lemma AverageAtLeast(ds: seq<real>, lo: real)
    requires |ds| > 0
    requires forall k :: 0 <= k < |ds| ==> lo <= ds[k]
    ensures lo <= Sum(ds) / |ds| as real
  {
    SumAtLeast(ds, lo);
    QuotientAtLeast(Sum(ds), |ds| as real, lo);
  }

  /** An upper bound on every score bounds their average. */
  lemma AverageAtMost(ds: seq<real>, hi: real)
    requires |ds| > 0
    requires forall k :: 0 <= k < |ds| ==> ds[k] <= hi
    ensures Sum(ds) / |ds| as real <= hi
  {
    SumAtMost(ds, hi);
    QuotientAtMost(Sum(ds), |ds| as real, hi);
  }


  lemma {:induction false} SumAtLeast(ds: seq<real>, lo: real)
    requires forall k :: 0 <= k < |ds| ==> lo <= ds[k]
    ensures |ds| as real * lo <= Sum(ds)
  {
    if ds != [] {
      SumAtLeast(ds[1..], lo);
    }
  }

  lemma {:induction false} SumAtMost(ds: seq<real>, hi: real)
    requires forall k :: 0 <= k < |ds| ==> ds[k] <= hi
    ensures Sum(ds) <= |ds| as real * hi
  {
    if ds != [] {
      SumAtMost(ds[1..], hi);
    }
  }

  /** The calibration report for a non-empty list of scores; its statistics
      are ordered min <= mean <= max. */
  function Summary(ds: seq<real>): (s: Stats)
    requires |ds| > 0
    ensures s.min <= s.mean <= s.max
    ensures s.min in ds && s.max in ds
    ensures forall k :: 0 <= k < |ds| ==> s.min <= ds[k] <= s.max
  {
    Stats(Min(ds), Mean(ds), Max(ds))
  }

  /** Runs the calibration over the n frames the camera delivers, keeping
      only the previous frame; fails when n < 2. */
  method Calibrate(captures: seq<Image>, res: Resolution) returns (r: Result<Stats, CalibrationError>)
    requires Positive(res) && AllCaptures(captures, res)
    ensures r.Err? <==> |captures| < 2
    ensures r.Ok? ==> r.value == Summary(Samples(captures, res))
  {
    var prev: Option<Image> := None;
    var ds: seq<real> := [];
    for i := 0 to |captures|
      invariant ds == Samples(captures[..i], res)
      invariant prev == if i == 0 then None else Some(Crop(captures[i - 1], res))
    {
      var img := Crop(captures[i], res);
      if prev.Some? {
        ds := ds + [Score(img, prev.value)];
      }
      prev := Some(img);
      assert captures[..i + 1][..i] == captures[..i];
    }
    assert captures[..|captures|] == captures;
    if |ds| == 0 {
      return Err(NoSamples);
    }
    return Ok(Summary(ds));
  }

  /** A still scene: when every frame crops to the same image, every score is
      0 and calibration reports (0, 0, 0). */
  lemma {:induction false} StillSceneCalibratesToZero(captures: seq<Image>, res: Resolution)
    requires Positive(res) && AllCaptures(captures, res) && |captures| >= 2
    requires forall k :: 0 <= k < |captures| ==> Crop(captures[k], res) == Crop(captures[0], res)
    ensures Summary(Samples(captures, res)) == Stats(0.0, 0.0, 0.0)
  {
    var ds := Samples(captures, res);
    forall k | 0 <= k < |ds|
      ensures ds[k] == 0.0
    {
      SampleAt(captures, res, k);
      var f := Crop(captures[0], res);
      assert Crop(captures[k + 1], res) == f && Crop(captures[k], res) == f;
      ScoreZeroIffEqual(f, f);
    }
    var s := Summary(ds);
    assert s.min == 0.0 && s.max == 0.0;
  }

  /** Scores 1, 2, 3, 4 summarise to min 1, mean 2.5, max 4. */
  lemma SummaryOfOneToFour()
    ensures Summary([1.0, 2.0, 3.0, 4.0]) == Stats(1.0, 2.5, 4.0)
  {
    var ds := [1.0, 2.0, 3.0, 4.0];
    assert ds[1..] == [2.0, 3.0, 4.0] && ds[1..][1..] == [3.0, 4.0] && ds[1..][1..][1..] == [4.0];
    assert Sum(ds) == 10.0;
  }
}
