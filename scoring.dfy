/** The difference score between two frames (cctv.py): both frames are
    widened to int16, subtracted, and the score is the mean of the squared
    absolute differences over every pixel and channel. The mean is taken
    over exact rationals. */
module Scoring {
  import opened Frames

  /** Two's-complement wrap-around of an int16 result. */
  function WrapInt16(x: int): (r: int)
    ensures -32768 <= r < 32768
    ensures (r - x) % 65536 == 0
  {
    (x + 32768) % 65536 - 32768
  }

  /** `a.astype('int16') - b.astype('int16')` for one sample: the result
      wraps like any int16 arithmetic, but the difference of two bytes is
      always within range, so no wrap-around occurs. */
  function Int16Sub(a: Byte, b: Byte): (d: int)
    ensures d == a - b
    ensures -255 <= d <= 255
  {
    WrapInt16(a - b)
  }

  function Abs(x: int): nat
  {
    if x < 0 then -x else x
  }

  /** The largest squared difference of two samples, 255 * 255. */
  const MaxSampleSq: nat := 65025

  /** `d * d` with `d = fabs(...)` for one sample: 0 exactly for equal
      samples, and at most 255 * 255. */
  function SampleSq(a: Byte, b: Byte): (sq: nat)
    ensures sq == 0 <==> a == b
    ensures sq <= MaxSampleSq
  {
    var d := Abs(Int16Sub(a, b));
    SquareOfByteDifference(d);
    d * d
  }

  lemma SquareOfByteDifference(d: nat)
    requires d <= 255
    ensures d * d == 0 <==> d == 0
    ensures d * d <= MaxSampleSq
  {
  }

  /** The channels of two pixels have the same count. */
  predicate PixelsMatch(r: seq<seq<Byte>>, s: seq<seq<Byte>>)
  {
    |r| == |s| && forall j :: 0 <= j < |r| ==> |r[j]| == |s[j]|
  }

  /** Two images have the same shape, row by row and pixel by pixel. */
  predicate ShapesMatch(a: Image, b: Image)
  {
    |a| == |b| && forall i :: 0 <= i < |a| ==> PixelsMatch(a[i], b[i])
  }

  /** Sum of squared sample differences over the channels of a pixel: 0
      exactly for equal pixels. */
  function PixelSqDiff(p: seq<Byte>, q: seq<Byte>): (sum: nat)
    requires |p| == |q|
    ensures sum == 0 <==> p == q
  {
    if p == [] then 0
    else
      assert p == [p[0]] + p[1..] && q == [q[0]] + q[1..];
      SampleSq(p[0], q[0]) + PixelSqDiff(p[1..], q[1..])
  }

  /** Sum of squared sample differences over the pixels of a row: 0 exactly
      for equal rows. */
  function RowSqDiff(r: seq<seq<Byte>>, s: seq<seq<Byte>>): (sum: nat)
    requires PixelsMatch(r, s)
    ensures sum == 0 <==> r == s
  {
    if r == [] then 0
    else
      assert r == [r[0]] + r[1..] && s == [s[0]] + s[1..];
      PixelSqDiff(r[0], s[0]) + RowSqDiff(r[1..], s[1..])
  }

  /** Sum of squared sample differences over a whole frame, the numerator of
      `np.mean(d*d)`: 0 exactly for equal frames. */
  function FrameSqDiff(a: Image, b: Image): (sum: nat)
    requires ShapesMatch(a, b)
    ensures sum == 0 <==> a == b
  {
    if a == [] then 0
    else
      assert a == [a[0]] + a[1..] && b == [b[0]] + b[1..];
      RowSqDiff(a[0], b[0]) + FrameSqDiff(a[1..], b[1..])
  }

  /** Two frames of one non-empty shape, so the scorer can compare them. */
  predicate Comparable(a: Image, b: Image)
  {
    |a| > 0 && |a[0]| > 0 && HasShape(a, |a|, |a[0]|) && HasShape(b, |a|, |a[0]|)
  }

  /** Number of samples in a frame of the comparable pair's shape. */
  function SampleCount(a: Image): (n: nat)
    requires |a| > 0
  {
    |a| * |a[0]| * Channels
  }

  lemma SameShapeMatches(a: Image, b: Image, h: nat, w: nat)
    requires HasShape(a, h, w) && HasShape(b, h, w)
    ensures ShapesMatch(a, b)
  {
  }

  /** `np.mean(d*d)`: the mean squared difference of two frames, a
      non-negative rational no larger than 255 squared. */
  function Score(img: Image, prev: Image): (s: real)
    requires Comparable(img, prev)
    ensures 0.0 <= s <= MaxSampleSq as real
  {
    SameShapeMatches(img, prev, |img|, |img[0]|);
    MeanSqDiffAtMost(img, prev);
    FrameSqDiff(img, prev) as real / SampleCount(img) as real
  }

  lemma MeanSqDiffAtMost(img: Image, prev: Image)
    requires Comparable(img, prev)
    ensures ShapesMatch(img, prev)
    ensures FrameSqDiff(img, prev) as real / SampleCount(img) as real <= MaxSampleSq as real
  {
    var h, w := |img|, |img[0]|;
    FrameSqDiffBound(img, prev, w);
    var n := SampleCount(img);
    Reassociate(h, w, MaxSampleSq);
    assert (n * MaxSampleSq) as real == n as real * MaxSampleSq as real;
    QuotientAtMost(FrameSqDiff(img, prev) as real, n as real, MaxSampleSq as real);
  }

  lemma QuotientAtLeast(s: real, n: real, lo: real)
    requires n > 0.0 && n * lo <= s
    ensures lo <= s / n
  {
  }

  lemma QuotientAtMost(s: real, n: real, hi: real)
    requires n > 0.0 && s <= n * hi
    ensures s / n <= hi
  {
  }

  // At most 255 * 255 per sample

  lemma {:induction false} PixelSqDiffBound(p: seq<Byte>, q: seq<Byte>)
    requires |p| == |q|
    ensures PixelSqDiff(p, q) <= |p| * MaxSampleSq
  {
    if p != [] {
      PixelSqDiffBound(p[1..], q[1..]);
      AddOneMore(|p| - 1, MaxSampleSq);
    }
  }

  lemma {:induction false} RowSqDiffBound(r: seq<seq<Byte>>, s: seq<seq<Byte>>)
    requires PixelsMatch(r, s)
    requires forall j :: 0 <= j < |r| ==> |r[j]| == Channels
    ensures RowSqDiff(r, s) <= |r| * (Channels * MaxSampleSq)
  {
    if r != [] {
      PixelSqDiffBound(r[0], s[0]);
      RowSqDiffBound(r[1..], s[1..]);
      AddOneMore(|r| - 1, Channels * MaxSampleSq);
    }
  }

  lemma {:induction false} FrameSqDiffBound(a: Image, b: Image, w: nat)
    requires HasShape(a, |a|, w) && HasShape(b, |a|, w)
    ensures ShapesMatch(a, b)
    ensures FrameSqDiff(a, b) <= |a| * (w * (Channels * MaxSampleSq))
  {
    SameShapeMatches(a, b, |a|, w);
    if a != [] {
      var t := w * (Channels * MaxSampleSq);
      RowSqDiffBound(a[0], b[0]);
      assert RowSqDiff(a[0], b[0]) <= t;
      assert HasShape(a[1..], |a| - 1, w) && HasShape(b[1..], |a| - 1, w);
      FrameSqDiffBound(a[1..], b[1..], w);
      AddOneMore(|a| - 1, t);
    }
  }

  // Symmetry

  lemma {:induction false} PixelSqDiffSymmetric(p: seq<Byte>, q: seq<Byte>)
    requires |p| == |q|
    ensures PixelSqDiff(p, q) == PixelSqDiff(q, p)
  {
    if p != [] {
      PixelSqDiffSymmetric(p[1..], q[1..]);
    }
  }

  lemma {:induction false} RowSqDiffSymmetric(r: seq<seq<Byte>>, s: seq<seq<Byte>>)
    requires PixelsMatch(r, s)
    ensures RowSqDiff(r, s) == RowSqDiff(s, r)
  {
    if r != [] {
      PixelSqDiffSymmetric(r[0], s[0]);
      RowSqDiffSymmetric(r[1..], s[1..]);
    }
  }

  lemma {:induction false} FrameSqDiffSymmetric(a: Image, b: Image)
    requires ShapesMatch(a, b)
    ensures FrameSqDiff(a, b) == FrameSqDiff(b, a)
  {
    if a != [] {
      RowSqDiffSymmetric(a[0], b[0]);
      FrameSqDiffSymmetric(a[1..], b[1..]);
    }
  }

  /** The score does not depend on which frame is the reference. */
  lemma ScoreSymmetric(a: Image, b: Image)
    requires Comparable(a, b)
    ensures Comparable(b, a)
    ensures Score(a, b) == Score(b, a)
  {
    SameShapeMatches(a, b, |a|, |a[0]|);
    FrameSqDiffSymmetric(a, b);
  }

  // Zero exactly for identical frames

  /** A frame scores 0 against its reference exactly when the two are equal. */
  lemma ScoreZeroIffEqual(a: Image, b: Image)
    requires Comparable(a, b)
    ensures Score(a, b) == 0.0 <==> a == b
  {
    SameShapeMatches(a, b, |a|, |a[0]|);
  }

  // A uniform offset c scores exactly c * c

  /** The frames have the same shape and every sample of `a` is the
      matching sample of `b` plus `c`. */
  predicate OffsetBy(a: Image, b: Image, c: int)
  {
    ShapesMatch(a, b) &&
    forall i, j, k :: 0 <= i < |a| && 0 <= j < |a[i]| && 0 <= k < |a[i][j]| ==> a[i][j][k] == b[i][j][k] + c
  }

  lemma SampleSqOffset(a: Byte, b: Byte, c: int)
    requires a == b + c
    ensures SampleSq(a, b) == c * c
  {
    assert Abs(c) * Abs(c) == c * c;
  }

  lemma {:induction false} PixelSqDiffOffset(p: seq<Byte>, q: seq<Byte>, c: int)
    requires |p| == |q|
    requires forall k :: 0 <= k < |p| ==> p[k] == q[k] + c
    ensures PixelSqDiff(p, q) == |p| * (c * c)
  {
    if p != [] {
      PixelSqDiffOffset(p[1..], q[1..], c);
      SampleSqOffset(p[0], q[0], c);
      AddOneMore(|p| - 1, c * c);
    }
  }

  lemma {:induction false} RowSqDiffOffset(r: seq<seq<Byte>>, s: seq<seq<Byte>>, c: int)
    requires PixelsMatch(r, s)
    requires forall j :: 0 <= j < |r| ==> |r[j]| == Channels
    requires forall j, k :: 0 <= j < |r| && 0 <= k < |r[j]| ==> r[j][k] == s[j][k] + c
    ensures RowSqDiff(r, s) == |r| * (Channels * (c * c))
  {
    if r != [] {
      var t := Channels * (c * c);
      PixelSqDiffOffset(r[0], s[0], c);
      assert PixelSqDiff(r[0], s[0]) == t;
      RowSqDiffOffset(r[1..], s[1..], c);
      AddOneMore(|r| - 1, t);
    }
  }

  lemma Reassociate(h: nat, w: nat, x: int)
    ensures h * (w * (Channels * x)) == (h * w * Channels) * x
  {
  }

  lemma AddOneMore(n: nat, t: int)
    ensures n * t + t == (n + 1) * t
  {
  }

  lemma {:induction false} FrameSqDiffOffset(a: Image, b: Image, w: nat, c: int)
    requires HasShape(a, |a|, w) && HasShape(b, |a|, w)
    requires forall i, j, k :: 0 <= i < |a| && 0 <= j < w && 0 <= k < Channels ==> a[i][j][k] == b[i][j][k] + c
    ensures ShapesMatch(a, b)
    ensures FrameSqDiff(a, b) == |a| * (w * (Channels * (c * c)))
  {
    SameShapeMatches(a, b, |a|, w);
    if a != [] {
      var t := w * (Channels * (c * c));
      RowSqDiffOffset(a[0], b[0], c);
      assert RowSqDiff(a[0], b[0]) == t;
      assert HasShape(a[1..], |a| - 1, w) && HasShape(b[1..], |a| - 1, w);
      FrameSqDiffOffset(a[1..], b[1..], w, c);
      AddOneMore(|a| - 1, t);
    }
  }

  /** Because of the int16 widening there is no wrap-around: frames that
      differ by a uniform offset c score exactly c * c, whatever its sign. */
  lemma ScoreUniformOffset(a: Image, b: Image, c: int)
    requires Comparable(a, b) && OffsetBy(a, b, c)
    ensures Score(a, b) == (c * c) as real
  {
    var w := |a[0]|;
    FrameSqDiffOffset(a, b, w, c);
    var n := SampleCount(a);
    Reassociate(|a|, w, c * c);
    MeanOfRepeated(n, c * c);
    assert Score(a, b) == FrameSqDiff(a, b) as real / n as real;
  }

  lemma MeanOfRepeated(n: nat, m: int)
    requires n > 0
    ensures (n * m) as real / n as real == m as real
  {
  }

  /** A frame with every sample equal to `v`. */
  function Uniform(h: nat, w: nat, v: Byte): (img: Image)
    ensures HasShape(img, h, w)
    ensures forall i, j, k :: 0 <= i < h && 0 <= j < w && 0 <= k < Channels ==> img[i][j][k] == v
  {
    seq(h, i => seq(w, j => seq(Channels, k => v)))
  }

  /** An all-zero reference and an all-20 frame at 640x360 score 400. */
  lemma UniformFramesScore()
    ensures Comparable(Uniform(360, 640, 20), Uniform(360, 640, 0))
    ensures Score(Uniform(360, 640, 20), Uniform(360, 640, 0)) == 400.0
  {
    var a, b := Uniform(360, 640, 20), Uniform(360, 640, 0);
    SameShapeMatches(a, b, 360, 640);
    ScoreUniformOffset(a, b, 20);
  }
}
