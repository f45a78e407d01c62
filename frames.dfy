/** Frame buffers of the still-image monitor (cctv.py): the resolution a
    frame is captured at, the shape of the numpy buffer the camera writes
    into, and the logical frame cropped out of that buffer. */
module Frames {

  /** One sample of a `uint8` buffer. */
  type Byte = x: int | 0 <= x < 256

  /** An image in numpy's layout: rows, each a sequence of pixels, each pixel
      a sequence of channel samples. */
  type Image = seq<seq<seq<Byte>>>

  /** Samples per pixel: frames are captured in 'rgb' format. */
  const Channels: nat := 3

  /** A camera resolution, (width, height) in pixels. */
  datatype Resolution = Resolution(width: nat, height: nat)

  /** A numpy array shape for a frame: (height, width, channels). */
  datatype Shape = Shape(height: nat, width: nat, channels: nat)

  /** The resolution the monitor scores frames at. */
  const CctvRes := Resolution(640, 360)

  /** A resolution with at least one pixel, so that a frame has samples. */
  predicate Positive(res: Resolution)
  {
    res.width > 0 && res.height > 0
  }

  /** The buffer shape the camera needs for `res`: the width rounded up to a
      multiple of 32 and the height to a multiple of 16, the smallest such
      values, with aligned dimensions left as they are. */
  function NpShape(res: Resolution): (s: Shape)
    ensures s.channels == Channels
    ensures s.width % 32 == 0 && res.width <= s.width < res.width + 32
    ensures s.height % 16 == 0 && res.height <= s.height < res.height + 16
    ensures res.width % 32 == 0 ==> s.width == res.width
    ensures res.height % 16 == 0 ==> s.height == res.height
  {
    var width := if res.width % 32 > 0 then res.width + (32 - res.width % 32) else res.width;
    var height := if res.height % 16 > 0 then res.height + (16 - res.height % 16) else res.height;
    Shape(height, width, Channels)
  }

  /** No smaller aligned buffer holds the frame: every multiple of 32 (of 16)
      that is at least the width (the height) is at least NpShape's. */
  lemma NpShapeIsLeast(res: Resolution, width: nat, height: nat)
    requires width % 32 == 0 && res.width <= width
    requires height % 16 == 0 && res.height <= height
    ensures NpShape(res).width <= width && NpShape(res).height <= height
  {
  }

  /** Aligning an aligned shape again changes nothing. */
  lemma NpShapeIdempotent(res: Resolution)
    ensures var s := NpShape(res); NpShape(Resolution(s.width, s.height)) == s
  {
  }

  /** The monitor's 640x360 frames live in a 368x640x3 buffer. */
  lemma CctvResBuffer()
    ensures NpShape(CctvRes) == Shape(368, 640, 3)
  {
  }

  /** `img` is an h x w frame with `Channels` samples per pixel. */
  predicate HasShape(img: Image, h: nat, w: nat)
  {
    |img| == h &&
    (forall i :: 0 <= i < h ==> |img[i]| == w) &&
    (forall i, j :: 0 <= i < h && 0 <= j < w ==> |img[i][j]| == Channels)
  }

  /** `buf` is a buffer allocated with `np.empty(np_shape(res))`. */
  predicate IsCapture(buf: Image, res: Resolution)
  {
    var s := NpShape(res);
    HasShape(buf, s.height, s.width)
  }

  /** Every buffer of a sequence of captures has the aligned shape. */
  predicate AllCaptures(bufs: seq<Image>, res: Resolution)
  {
    forall k :: 0 <= k < |bufs| ==> IsCapture(bufs[k], res)
  }

  /** The slice `img[:h, :w, :]` of a capture buffer. It is always in bounds,
      since the buffer is never smaller than the resolution, and yields
      exactly an h x w frame holding the buffer's top-left pixels. */
  function Crop(buf: Image, res: Resolution): (img: Image)
    requires IsCapture(buf, res)
    ensures HasShape(img, res.height, res.width)
    ensures forall i, j :: 0 <= i < res.height && 0 <= j < res.width ==> img[i][j] == buf[i][j]
  {
    seq(res.height, i requires 0 <= i < res.height => buf[i][..res.width])
  }

  /** The padding rows and columns of the buffer (left uninitialised by
      `np.empty`) never reach the frame: buffers that agree on the top-left
      h x w pixels crop to the same frame. */
  lemma CropIgnoresPadding(a: Image, b: Image, res: Resolution)
    requires IsCapture(a, res) && IsCapture(b, res)
    requires forall i, j :: 0 <= i < res.height && 0 <= j < res.width ==> a[i][j] == b[i][j]
    ensures Crop(a, res) == Crop(b, res)
  {
    var ca, cb := Crop(a, res), Crop(b, res);
    forall i | 0 <= i < res.height
      ensures ca[i] == cb[i]
    {
      assert |ca[i]| == |cb[i]| == res.width;
      forall j | 0 <= j < res.width
        ensures ca[i][j] == cb[i][j]
      {
      }
    }
  }
}
