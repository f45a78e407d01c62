/** Motion analysis of the H.264 encoder's motion vectors (vid.py
    `CctvMotionAnalysis`): each frame's per-block vector magnitudes are
    clipped to bytes, and a frame in which more than 10 blocks move by more
    than 40 increments the `motion_detected` counter. */
module MotionAnalysis {
  import opened Frames

  /** A block moves when its magnitude byte exceeds this. */
  const MagnitudeLimit: int := 40
  /** A frame shows motion when more than this many blocks move. */
  const MovingBlockLimit: nat := 10

  /** The number of magnitudes above `limit`: `(a > limit).sum()`. */
  function CountAbove(mags: seq<Byte>, limit: int): (k: nat)
    ensures k <= |mags|
    ensures k == 0 <==> forall i :: 0 <= i < |mags| ==> mags[i] <= limit
    ensures k == |mags| <==> forall i :: 0 <= i < |mags| ==> mags[i] > limit
  {
    if mags == [] then 0
    else (if mags[0] > limit then 1 else 0) + CountAbove(mags[1..], limit)
  }

  /** The count of a concatenation is the sum of the counts. */
  lemma {:induction false} CountAboveAppend(a: seq<Byte>, b: seq<Byte>, limit: int)
    ensures CountAbove(a + b, limit) == CountAbove(a, limit) + CountAbove(b, limit)
  {
    if a != [] {
      assert (a + b)[1..] == a[1..] + b;
      CountAboveAppend(a[1..], b, limit);
    } else {
      assert a + b == b;
    }
  }

  lemma MultisetRemoveAt(b: seq<Byte>, i: nat)
    requires i < |b|
    ensures multiset(b[..i] + b[i + 1..]) == multiset(b) - multiset{b[i]}
  {
    assert b == b[..i] + [b[i]] + b[i + 1..];
  }

  lemma CountAboveRemoveAt(b: seq<Byte>, i: nat, limit: int)
    requires i < |b|
    ensures CountAbove(b, limit) == (if b[i] > limit then 1 else 0) + CountAbove(b[..i] + b[i + 1..], limit)
  {
    assert b == b[..i] + ([b[i]] + b[i + 1..]);
    CountAboveAppend(b[..i], [b[i]] + b[i + 1..], limit);
    CountAboveAppend(b[..i], b[i + 1..], limit);
    assert ([b[i]] + b[i + 1..])[1..] == b[i + 1..];
  }

  /** The counted blocks depend only on the multiset of magnitude bytes,
      not on the order of the blocks. */
  lemma {:induction false} CountAbovePermutation(a: seq<Byte>, b: seq<Byte>, limit: int)
    requires multiset(a) == multiset(b)
    ensures CountAbove(a, limit) == CountAbove(b, limit)
    decreases |a|
  {
    if a == [] {
      assert |b| == |multiset(b)| == 0;
    } else {
      assert a[0] in multiset(b);
      var i :| 0 <= i < |b| && b[i] == a[0];
      var rest := b[..i] + b[i + 1..];
      MultisetRemoveAt(b, i);
      assert a == [a[0]] + a[1..];
      assert multiset(a[1..]) == multiset(a) - multiset{a[0]};
      CountAbovePermutation(a[1..], rest, limit);
      CountAboveRemoveAt(b, i, limit);
    }
  }

  /** A frame counts as motion: more than 10 blocks above 40. That needs at
      least 11 blocks, and 11 blocks all above 40 suffice. */
  predicate ShowsMotion(mags: seq<Byte>): (moving: bool)
    ensures moving ==> |mags| > MovingBlockLimit
    ensures |mags| > MovingBlockLimit && (forall i :: 0 <= i < |mags| ==> mags[i] > MagnitudeLimit) ==> moving
  {
    CountAbove(mags, MagnitudeLimit) > MovingBlockLimit
  }

  /** A motion vector of one macroblock; its components are signed bytes. */
  datatype MotionVector = MotionVector(x: int, y: int)

  predicate IsInt8(v: int)
  {
    -128 <= v < 128
  }

  /** The integer square root, floor(sqrt(n)). */
  function ISqrt(n: nat): (r: nat)
    ensures r * r <= n < (r + 1) * (r + 1)
  {
    if n == 0 then 0
    else
      var r := ISqrt(n - 1);
      if (r + 1) * (r + 1) <= n then r + 1 else r
  }

  lemma SquareMonotone(a: nat, b: nat)
    requires a <= b
    ensures a * a <= b * b
  {
  }

  /** floor(sqrt(n)) reaches m exactly when n reaches m * m. */
  lemma ISqrtAtLeast(n: nat, m: nat)
    ensures ISqrt(n) >= m <==> n >= m * m
  {
    var r := ISqrt(n);
    if r >= m {
      SquareMonotone(m, r);
    } else {
      SquareMonotone(r + 1, m);
    }
  }

  /** `sqrt(x*x + y*y).clip(0, 255).astype(uint8)` over integers: the
      truncating cast of the square root is its floor. A block moves (byte
      above 40) exactly when x*x + y*y >= 41*41. */
  function Magnitude(v: MotionVector): (m: Byte)
    requires IsInt8(v.x) && IsInt8(v.y)
    ensures m > MagnitudeLimit <==> v.x * v.x + v.y * v.y >= 41 * 41
  {
    var n := v.x * v.x + v.y * v.y;
    var r := ISqrt(n);
    ISqrtAtLeast(n, 41);
    if r > 255 then 255 else r
  }

  /** The magnitude bytes of a frame's motion vectors, block by block. */
  function Magnitudes(vs: seq<MotionVector>): (mags: seq<Byte>)
    requires forall i :: 0 <= i < |vs| ==> IsInt8(vs[i].x) && IsInt8(vs[i].y)
    ensures |mags| == |vs|
    ensures forall i :: 0 <= i < |vs| ==> mags[i] == Magnitude(vs[i])
  {
    seq(|vs|, i requires 0 <= i < |vs| => Magnitude(vs[i]))
  }

  /** The number of vectors whose squared length is at least 41 * 41. */
  function CountLong(vs: seq<MotionVector>): nat
  {
    if vs == [] then 0
    else (if vs[0].x * vs[0].x + vs[0].y * vs[0].y >= 41 * 41 then 1 else 0) + CountLong(vs[1..])
  }

  /** Counting bytes above 40 counts exactly the vectors at least 41 long. */
  lemma {:induction false} CountAboveMagnitudes(vs: seq<MotionVector>)
    requires forall i :: 0 <= i < |vs| ==> IsInt8(vs[i].x) && IsInt8(vs[i].y)
    ensures CountAbove(Magnitudes(vs), MagnitudeLimit) == CountLong(vs)
  {
    if vs != [] {
      assert Magnitudes(vs)[1..] == Magnitudes(vs[1..]);
      CountAboveMagnitudes(vs[1..]);
    }
  }

  /** `CctvMotionAnalysis`: counts the analysed frames that showed motion. */
  class CctvMotionAnalysis {
    var motionDetected: nat
    /** The number of frames analysed so far. */
    ghost var analysed: nat

    ghost predicate Valid()
      reads this
    {
      motionDetected <= analysed
    }

    constructor ()
      ensures Valid() && motionDetected == 0 && analysed == 0
    {
      motionDetected := 0;
      analysed := 0;
    }

    /** Analyses one frame's magnitudes: the counter goes up by exactly one
        when the frame shows motion and is unchanged otherwise. */
    method Analyse(mags: seq<Byte>)
      requires Valid()
      modifies this
      ensures Valid() && analysed == old(analysed) + 1
      ensures ShowsMotion(mags) ==> motionDetected == old(motionDetected) + 1
      ensures !ShowsMotion(mags) ==> motionDetected == old(motionDetected)
    {
      if ShowsMotion(mags) {
        motionDetected := motionDetected + 1;
      }
      analysed := analysed + 1;
    }
  }
}
