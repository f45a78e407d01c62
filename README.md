# cctv-picamera motion detector, modelled in Dafny

This project models the core of a Raspberry Pi camera monitor. The core
is a frame-difference motion detector. It captures frames at 640x360 into
buffers padded to the camera's alignment (width a multiple of 32, height a
multiple of 16), then crops each buffer back to the logical frame. It scores
each frame against a reference frame by the mean squared per-sample
difference, computed in int16.

- A calibration phase summarises the scores of 20 consecutive frames as
  (min, mean, max).
- The monitor then fires the recorder whenever a frame's score exceeds 1.3
  times the calibrated maximum.
- After an event the reference frame is dropped, so the next frame starts a
  fresh baseline.

Two small pieces of the video script are modelled too: the `WxH`
resolution argument parser, and the motion-vector counter of
`CctvMotionAnalysis`.

Modules, one per component:

- `Frames` (frames.dfy): resolutions, `np_shape`, the crop of a capture
  buffer to the logical frame.
- `Scoring` (scoring.dfy): the int16 difference and the mean squared
  difference score, over exact rationals (`real`).
- `Calibration` (calibration.dfy): the calibration loop (`Calibrate`) and the
  specification of its scores (`Samples`) and summary (`Min`, `Mean`, `Max`).
- `Monitoring` (monitoring.dfy): warnings, threshold, the per-frame
  transition (`Next`) and its iteration over a run (`Trace`). It also holds
  the `MotionMonitor` class, whose `Step`/`Run` methods update the reference
  frame and an event counter in place, and `Mon`, the whole session.
- `ResolutionArg` (resolution_arg.dfy): `arg_resolution`.
- `MotionAnalysis` (motion_analysis.dfy): the `CctvMotionAnalysis` class and
  the integer form of its magnitude computation.
- `Wrappers` (wrappers.dfy): `Option` and `Result`.

Inputs that come from the outside world become parameters:

- The camera's captures are sequences of images, one per loop iteration.
  Each image is already shaped like the buffer `np.empty(np_shape(res))`
  into which `cam.capture` writes.
- The recorder call is the `fired` result of a step, counted by the
  monitor's `events` field.

Behaviour of cctv.py worth noting:

- The monitor loop has no cancellation signal: `mon` runs `range(n)`, and
  n = -1 means 2**64 iterations (`IterationCount`). Its default is n = 30
  (cctv.py:92), which is what `cctv.py mon` runs.
- The scorer raises no shape-mismatch error. Every frame is cropped to the
  same resolution, so it always compares frames of one shape (`Comparable`
  holds by construction).
- Calibrating over fewer than two frames fails only because `np.min` of an
  empty list raises. `Calibrate` models this as the `NoSamples` error.
- The difference `d` is `np.fabs` of an int16 array, which numpy computes in
  float32. So `d*d` cannot overflow int16, and the model squares exact
  integers. The int16 subtraction itself cannot wrap for byte samples
  (`Int16Sub`).

## Model

| member | source | states |
|---|---|---|
| `Frames.NpShape` | cctv.py:14-21 | width rounded up to a multiple of 32 and height to a multiple of 16, by less than one step each; aligned dimensions unchanged; 3 channels |
| `Frames.NpShapeIsLeast` | cctv.py:17-20 | no smaller aligned width or height holds the resolution |
| `Frames.NpShapeIdempotent` | cctv.py:17-20 | aligning an aligned shape again changes nothing |
| `Frames.CctvResBuffer` | cctv.py:12-21 | 640x360 frames are captured into a 368x640x3 buffer |
| `Frames.Crop` | cctv.py:80-82 | slicing `[:h, :w, :]` from the aligned buffer is in bounds and yields exactly an h x w x 3 frame holding the buffer's top-left pixels |
| `Frames.CropIgnoresPadding` | cctv.py:111-113 | the uninitialised padding of the buffer never influences the cropped frame |
| `Scoring.WrapInt16` | cctv.py:84 | int16 arithmetic stays in range and agrees with exact arithmetic modulo 2^16 |
| `Scoring.Int16Sub` | cctv.py:84 | widening both bytes to int16 before subtracting gives the exact difference, within -255..255 |
| `Scoring.SampleSq` | cctv.py:84-85 | the squared absolute difference of two samples is 0 exactly when they are equal and at most 255*255 |
| `Scoring.FrameSqDiff` | cctv.py:84-85 | the sum of squared differences behind `np.mean(d*d)` is 0 exactly when the frames are equal |
| `Scoring.FrameSqDiffSymmetric` | cctv.py:84-85 | the sum of squared differences is the same with the frames swapped |
| `Scoring.FrameSqDiffBound` | cctv.py:84-85 | an h x w frame pair sums to at most h*w*3*255*255 |
| `Scoring.Score` | cctv.py:84-85 | the mean squared difference is a rational between 0 and 255*255 |
| `Scoring.ScoreSymmetric` | cctv.py:115-116 | the score is the same with the two frames swapped |
| `Scoring.ScoreZeroIffEqual` | cctv.py:84-85 | the score is 0 exactly when the two frames are equal |
| `Scoring.ScoreUniformOffset` | cctv.py:115-116 | frames differing by a uniform offset c (of either sign) score exactly c*c: no wrap-around |
| `Scoring.UniformFramesScore` | cctv.py:115-116 | an all-20 frame against an all-zero reference at 640x360 scores 400 |
| `Calibration.Samples` | cctv.py:79-86 | n >= 2 frames give exactly n-1 non-negative scores, none for fewer |
| `Calibration.SampleAt` | cctv.py:83-86 | score k compares frame k+1 with frame k only |
| `Calibration.Min` | cctv.py:89 | the minimum is one of the scores and no score is smaller |
| `Calibration.Max` | cctv.py:89 | the maximum is one of the scores and no score is larger |
| `Calibration.AverageAtLeast` | cctv.py:89 | a lower bound on all scores bounds their average |
| `Calibration.AverageAtMost` | cctv.py:89 | an upper bound on all scores bounds their average |
| `Calibration.Mean` | cctv.py:89 | the mean lies between the minimum and the maximum score |
| `Calibration.Summary` | cctv.py:88-89 | the reported (min, mean, max) is ordered and brackets every score |
| `Calibration.Calibrate` | cctv.py:75-89 | keeping only the previous frame, the loop collects exactly the scores of `Samples` and reports their summary; it fails exactly when fewer than two frames are captured |
| `Calibration.StillSceneCalibratesToZero` | cctv.py:75-89 | frames that crop to the same image calibrate to (0, 0, 0) |
| `Calibration.SummaryOfOneToFour` | cctv.py:88-89 | scores 1, 2, 3, 4 summarise to (1, 2.5, 4) |
| `Monitoring.Warnings` | cctv.py:104-107 | a warning for the mean exactly when it exceeds 5, for the maximum exactly when it exceeds 10 |
| `Monitoring.Threshold` | cctv.py:108 | the threshold is never below the calibrated maximum and is 0 only for a zero maximum |
| `Monitoring.MaxWarningIffThresholdAbove13` | cctv.py:106-108 | the maximum warning is judged on the unscaled maximum: it fires exactly when the threshold exceeds 13 |
| `Monitoring.CalibrationScoresAreQuiet` | cctv.py:103-108 | no score seen during calibration exceeds the threshold derived from it |
| `Monitoring.ThresholdOfOneToFour` | cctv.py:103-108 | scores 1, 2, 3, 4 give threshold 5.2 and no warning |
| `Monitoring.Next` | cctv.py:111-128 | with no reference the frame is stored and nothing fires; with one, the step fires exactly when the score exceeds the threshold; firing drops the reference, and otherwise the new frame becomes the reference |
| `Monitoring.Trace` | cctv.py:110-128 | one iteration per capture, starting from no reference; the reference always has the frame shape |
| `Monitoring.SparseFiring` | cctv.py:110-128 | a history that starts quiet and never fires twice in a row fires at most in every other iteration |
| `Monitoring.TraceReference` | cctv.py:114-128 | after a run the reference is empty exactly when the run is empty or its last iteration fired |
| `Monitoring.TraceShape` | cctv.py:110-128 | the first iteration never fires and no two consecutive iterations fire |
| `Monitoring.EventBound` | cctv.py:110-128 | n iterations fire at most n/2 times |
| `Monitoring.ZeroThresholdFiresOnAnyChange` | cctv.py:115-117 | with a zero threshold a step fires exactly when the frame differs from the reference |
| `Monitoring.MotionMonitor.constructor` | cctv.py:101-102 | the monitor starts with no reference and no events |
| `Monitoring.MotionMonitor.Step` | cctv.py:111-128 | one iteration updates the reference as `Next` says and counts one event exactly when the recorder fires |
| `Monitoring.MotionMonitor.Run` | cctv.py:110-129 | the loop runs one step per capture, and keeps the state equal to `Trace` of everything seen and events <= iterations / 2 |
| `Monitoring.IterationCount` | cctv.py:110 | n iterations for n >= 0, none for n < -1, 2**64 for n = -1 |
| `Monitoring.Mon` | cctv.py:92-129 | the session calibrates over 20 frames, warns without stopping, uses 1.3 x max as threshold, and fires as `Trace` says, at most n/2 times |
| `ResolutionArg.DigitRun` | vid.py:55 | the greedy `\d+` at the start: all digits before it, a non-digit or the end after it |
| `ResolutionArg.DecimalValue` | vid.py:58 | `int` of a digit string is 0 exactly when every digit is 0 |
| `ResolutionArg.DecimalValueLeadingZero` | vid.py:58 | a leading zero does not change the value |
| `ResolutionArg.ArgResolution` | vid.py:53-58 | an `ArgumentTypeError` always carries the message `Not a valid resolution: <s>` |
| `ResolutionArg.ArgResolutionOkIffMatches` | vid.py:55-58 | `ArgumentTypeError` is raised exactly when the text does not start with digits, `x`, digits; parsing succeeds exactly when the reported groups have at most 4300 digits each |
| `ResolutionArg.ArgResolutionOfMatch` | vid.py:55-58 | the reported match yields the decimal values of its two digit groups, or `int`'s `ValueError` when a group has more than 4300 digits; text after the match is ignored |
| `ResolutionArg.DecimalRoundTrip` | vid.py:58 | `int` of the decimal spelling of n is n |
| `ResolutionArg.DecimalLength` | vid.py:58 | a number below 10^k has at most k digits, so any width or height below 10^4300 converts |
| `ResolutionArg.ArgResolutionRoundTrip` | vid.py:55-58 | `<width>x<height>` followed by any non-digit text parses back to that resolution when both numbers have at most 4300 digits, and raises `ValueError` otherwise |
| `ResolutionArg.ArgResolutionDefault` | vid.py:63 | the default argument `640x480` parses to (640, 480) |
| `ResolutionArg.ArgResolutionIgnoresSuffix` | vid.py:55 | `640x480p` parses to (640, 480) |
| `ResolutionArg.ArgResolutionLeadingZeros` | vid.py:58 | `007x08` parses to (7, 8) |
| `ResolutionArg.ArgResolutionRejects` | vid.py:56-57 | the empty text, `x480`, ` 640x480`, `640xx480` and `640x` are rejected |
| `ResolutionArg.ArgResolutionLongGroup` | vid.py:58 | a first group of 4301 digits raises `ValueError`, not `ArgumentTypeError` |
| `MotionAnalysis.CountAbove` | vid.py:26 | the count is at most the number of blocks, 0 exactly when no block is above the limit, and all of them exactly when every block is |
| `MotionAnalysis.CountAboveAppend` | vid.py:26 | counting a concatenation adds the counts of its parts |
| `MotionAnalysis.CountAbovePermutation` | vid.py:26 | the count depends only on the multiset of magnitude bytes, not on the order of the blocks |
| `MotionAnalysis.ShowsMotion` | vid.py:26 | motion needs at least 11 blocks, and 11 or more blocks all above 40 suffice |
| `MotionAnalysis.ISqrt` | vid.py:21-24 | the integer square root is the floor of the real one |
| `MotionAnalysis.ISqrtAtLeast` | vid.py:21-24 | floor(sqrt(n)) >= m exactly when n >= m*m |
| `MotionAnalysis.Magnitude` | vid.py:21-24 | for int8 components, the clipped, truncated magnitude exceeds 40 exactly when x*x + y*y >= 41*41 |
| `MotionAnalysis.Magnitudes` | vid.py:21-24 | one magnitude byte per motion vector, in block order |
| `MotionAnalysis.CountAboveMagnitudes` | vid.py:21-26 | the bytes above 40 are exactly the vectors of squared length at least 41*41 |
| `MotionAnalysis.CctvMotionAnalysis.constructor` | vid.py:16-18 | the counter starts at 0 |
| `MotionAnalysis.CctvMotionAnalysis.Analyse` | vid.py:20-27 | the counter goes up by exactly one for a frame with more than 10 blocks above 40 and is unchanged otherwise, so it never decreases and never exceeds the frames analysed |

## Left out

- Camera control is not modelled: `snap`, `info`, `fix_camera_settings`, `detect`, `cctv`, and the `PiCamera` start/wait/stop recording calls. They are calls into the camera hardware.
- `cam.capture` is not modelled. Its frames are inputs, already shaped like the aligned buffer.
- `record_seq` is not modelled. Its timestamped JPEG capture and the exceptions it swallows are file and camera I/O. The model keeps only the fact that the recorder is called once per event; the file list it returns only chooses which message is printed.
- The `sleep` pacing is left out, because timing is I/O.
- Printing is left out: the calibration warnings' text, "Files saved", and the histogram in `analyse`. Which warnings are raised is modelled; how they are printed is not.
- Floating point is replaced by exact rationals (`real`). This covers float32 rounding in `np.fabs`/`np.mean`, the `1.3` multiply (modelled as exactly 13/10), and `sqrt`/`astype(np.float)` (modelled as the exact integer square root; for int8 components x*x + y*y is at most 32768, and the truncated double `sqrt` of such integers equals their integer square root).
- `Calibrate`: the calibration count n is the length of the capture sequence. So a negative n is indistinguishable from 0; both give no samples and the same error.
- `Score`: frames with no pixels are excluded. `np.mean` of an empty array is NaN, and the camera is never run at a zero resolution.
- `ResolutionArg.ArgResolution`: only ASCII digits are modelled. Python's `\d` and `int` also accept other Unicode decimal digits.
- `ResolutionArg.ArgResolution`: the 4300-digit limit on `int` is CPython's default on interpreters that have one; an older interpreter, or one whose limit is changed with `sys.set_int_max_str_digits` or `PYTHONINTMAXSTRDIGITS`, converts longer groups. argparse's report of the `ValueError` ("invalid arg_resolution value") is not modelled.
- `MotionAnalysis.CctvMotionAnalysis.Analyse`: the input is the per-block magnitude bytes. Decoding the motion vectors from the encoder's record array is the camera library's work; `Magnitudes` relates the two.
- The command-line dispatch is not modelled (`main` through `globals()`, the argparse setup).
