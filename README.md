# Real-time object size estimation: verified model of the measurement core

The repository is two scripts. `sizeobj.py` measures segmented objects in a
live camera stream: every third frame, for each object with a non-empty contour
of non-zero area, it places a width axis and a height axis through the contour's
centroid, clips each axis to the object by intersecting two raster masks, draws
the clipped lines, and labels them with the rectangle's width and height
converted to centimetres with a fixed scale (25.21 pixels per centimetre).
`test11.py` is a webcam ruler: two clicks measure a pixel distance. At start-up
it loads a saved calibration if one exists. Unless one was loaded, the first
pair answered with a truthy length calibrates the pixels-per-centimetre scale
(the user types the real length) and saves it to a file; a cancelled or 0
answer leaves it uncalibrated, so the next pair asks again. Once calibrated,
pairs are reported in centimetres.

The Dafny project models:

- `canvas.dfy` (module `Canvas`): the 500 x 1020 working canvas, pixels, and
  row-major scan order, which is the order of positions in the mask buffer.
- `axis_clip.dfy` (module `AxisClip`): `clip_line_to_contour` as a method over
  the two rasterised masks (flat row-major `array<bool>` buffers, set = 255). It
  ANDs them into a fresh buffer, lists the set pixels in scan order as
  `cv2.findNonZero` does, and keeps the first and the last. It is proved equal to
  the specification function `Clip`. Lemmas about `Clip` give the absent case
  (as an if-and-only-if), containment, strict order, scan-order extremality and
  canvas bounds.
- `measure.dfy` (module `Measure`): the capture loop's every-third-frame gate and
  its quit key. It also models the per-object measurement: the
  non-empty/`m00` guard, axes symmetric about the centroid, and centimetre sizes
  taken from the unclipped rectangle. A line and its label are drawn only when
  the clipper returned a pair.
- `calibration.dfy` (module `Calibration`): the click state machine as a pure
  step function `Click` over a `Session` (the script's globals plus the
  calibration file). The class `Ruler` holds those globals as fields, and its
  methods `OnClick`, `LoadCalibration` and `SaveCalibration` are proved against
  `Session` and `Click`. The model also covers the `update_frame` label.
- `wrappers.dfy` (module `Wrappers`): `Option`.

What the proofs show about the source, beyond the contracts themselves:

- The clipper returns the scan-order extremes of the intersection
  (`AxisClip.ClipEndpoints`). These need not be the geometric ends of the
  clipped axis. A shallow line running down and to the left, say from (100,10)
  to (0,12) inside the filled contour, covers a run of pixels in row 10
  (roughly x = 75..100), and the scan meets that run's left end first, so the
  first endpoint is near (75,10) rather than (100,10). This follows from the
  scan order alone; the model does not tie the line mask to the axis, so no
  lemma states it about the axis itself.
- `on_click` keeps at most one pending point only while the scale is not 0.0.
  Two clicks on the same pixel, answered truthily, calibrate to 0.0 and save
  0.0 (`Calibration.SamePixelCalibratesToZero`). After that, the next pair's
  second click divides by zero. The exception skips the statement that clears
  the list, so the list keeps its two points; it never returns to length 2, so
  no later pair is processed and every later click only appends
  (`Calibration.ZeroScaleJams`, `Calibration.PendingPairIsStuck`). A 0.0 file
  loaded at start-up has the same effect. `update_frame` tests the scale for
  truthiness, so it shows the jammed pair in pixels only
  (`Calibration.ZeroScaleLabelsPixelsOnly`).

In these places the code behaves differently from what one might expect, and the model follows the code:

- The code accepts any truthy answer, including a negative one, and so yields
  a negative scale. It rejects only a cancelled prompt or 0.
- An object with an empty contour or zero area is skipped. No zero-length
  measurement is produced for it.
- The clipped axis runs from the first to the last intersection pixel in
  row-major order. It is not the longest sub-segment inside the polygon.
- A quit key is only read on processed frames (every third one).

## Model

| member | source | states |
|---|---|---|
| `Canvas.BeforeIsOffsetOrder` | sizeobj.py:22-27 | on the 500 x 1020 canvas, row-major order of pixels (earlier row, or same row and earlier column) is exactly the order of their positions in the mask buffer |
| `Canvas.PixelAtOffset` | sizeobj.py:22-27 | every canvas pixel has a buffer position inside the 500 x 1020 buffer, and that position maps back to the same pixel |
| `AxisClip.ScanToSpec` | sizeobj.py:27 | the scan lists only set pixels, each inside the canvas, in strictly increasing buffer order, and lists every set pixel |
| `AxisClip.HitsAreScanned` | sizeobj.py:23-27 | a pixel is set in both the filled-contour mask and the line mask exactly when the scan of the intersection lists it |
| `AxisClip.ClipAbsent` | sizeobj.py:27-32 | the result is `(None, None)` exactly when no two distinct pixels are set in both masks |
| `AxisClip.ClipEndpoints` | sizeobj.py:23-30 | both returned endpoints are set in both masks, the first strictly precedes the second in row-major order, and every intersection pixel lies between them in that order |
| `AxisClip.ClipInCanvas` | sizeobj.py:22-30 | returned endpoints satisfy 0 <= x < 1020 and 0 <= y < 500 |
| `AxisClip.ClipLineToContour` | sizeobj.py:21-32 | ANDing the masks into a fresh buffer and scanning it returns exactly `Clip`: the first and last intersection pixels, or nothing when fewer than two |
| `Measure.Axis` | sizeobj.py:77-80 | the axis from c - d to c + d is symmetric about the centroid (x1 + x2 == 2cx, y1 + y2 == 2cy) and spans 2d |
| `Measure.MeasureObject` | sizeobj.py:59-95 | an object is measured exactly when its contour is non-empty and m00 != 0; width and height in cm are w and h over 25.21 whatever the clipping gives; both axes are symmetric about the centroid; a line and label appear exactly when the clipper returned a pair, and then the line is the clipped pair and the label is anchored 30 pixels above its first endpoint |
| `Measure.CaptureLoop` | sizeobj.py:34-107 | the measured frames are exactly counter values 3, 6, 9, ... within the stream, up to and including the first measured frame on which quit was pressed, or to the end of the stream |
| `Calibration.FrameLabel` | test11.py:45-54 | given `math.hypot` of the pair as the distance, a label appears only for a pending pair; it carries a cm figure exactly when the scale is truthy, and that figure times the scale is the pixel distance |
| `Calibration.FirstClickOnlyAppends` | test11.py:71-73 | a click on an empty list appends the point and changes neither the distance, the scale nor the file |
| `Calibration.SecondClickMeasures` | test11.py:73-75 | the second click sets the pixel distance to `math.hypot` of the pair (which `Ruler.OnClick` requires to be the Euclidean distance of the two points), and empties the list unless the division raises, in which case the pair stays |
| `Calibration.CalibrationOutcome` | test11.py:78-86 | uncalibrated: a truthy answer (negative included) sets the scale to distance over answer and saves that same value; None or 0 leaves scale and file unchanged |
| `Calibration.CalibratedOnlyReports` | test11.py:87-89 | calibrated: scale and file unchanged; a non-zero scale reports distance over scale, a zero scale raises |
| `Calibration.ClickKeepsSteady` | test11.py:71-91 | with a non-zero scale and the two points of a pair distinct, a click takes the list from 0 points to 1 and from 1 to 0 and never makes the scale 0.0 |
| `Calibration.SamePixelCalibratesToZero` | test11.py:74-84 | two clicks on one pixel, answered truthily, calibrate to 0.0 and save 0.0 |
| `Calibration.PendingPairIsStuck` | test11.py:71-73 | once two or more points are pending, the session after any further clicks is the old one with exactly those clicks' points appended: pending points kept, distance, scale and file unchanged |
| `Calibration.ZeroScaleJams` | test11.py:87-91 | with scale 0.0 the second click raises; after k more clicks the list is the pending pair followed by those k points, and scale and file are unchanged |
| `Calibration.ZeroScaleLabelsPixelsOnly` | test11.py:50-54 | with scale 0.0, `on_click` takes the calibrated branch while the frame label shows pixels only |
| `Calibration.SaveThenLoad` | test11.py:15-28 | loading after saving v sets the scale to v; without a file, loading changes nothing |
| `Calibration.Ruler.constructor` | test11.py:9-11 | the session starts with no points, no distance and no scale |
| `Calibration.Ruler.LoadCalibration` | test11.py:15-22 | the scale becomes the file's value when the file exists, and is unchanged otherwise |
| `Calibration.Ruler.SaveCalibration` | test11.py:25-28 | the file holds the value afterwards; nothing else changes |
| `Calibration.Ruler.OnClick` | test11.py:66-91 | the new globals, file and outcome are exactly those of `Click` on the old ones |
| `Calibration.CalibrateThenRestart` | test11.py:15-91 | clicks at (0,0) and (100,0) answered with 10 calibrate to 10 px/cm, and a fresh ruler that loads the same file starts with 10 |

## Left out

- Video capture, resizing, the YOLO tracker and the unpacking of its results
  (sizeobj.py:15-18, 35-37, 43-57) are I/O and an external learned model. The
  capture loop takes the number of frames and the key presses as a stream.
- Mouse-move printing (sizeobj.py:8-13), the Tk GUI and the `ImageTk`
  conversion (test11.py:31-43, 59-64, 93-116) are GUI plumbing.
- Contour filling and line rasterisation (`cv2.drawContours`, `cv2.line` in
  sizeobj.py:23-25) are foreign algorithms. Their masks are inputs, and the
  model does not tie the line mask to the axis endpoints.
- `cv2.moments` and `cv2.minAreaRect` are foreign. The centroid, the rectangle
  size and the area are inputs.
- The trigonometry and the `int()` truncation of the axis offsets
  (sizeobj.py:72, 77-78, 87-88) are floating-point numerics. The integer offsets
  are inputs.
- All drawing, the text formatting and `round()`, and the alpha blend
  (sizeobj.py:61-62, 68, 83-85, 93-103; test11.py:42-43, 47, 52, 56-57, 89) are
  rendering. Only the measurement label anchors and drawn lines of sizeobj.py
  and the choice of label in `update_frame` are modelled.
- Measure.MeasureObject: does not model the class-name label. It is always
  drawn at the centroid and carries no geometry.
- Floating point: sizes, scales and distances are exact reals, so rounding of
  `/` is not modelled.
- `math.hypot` is not computed. Its result is passed in as a non-negative real
  whose square is the sum of the squared coordinate differences.
- File I/O in `load_calibration` and `save_calibration` is replaced by an
  optional stored value. A saved float reads back unchanged.
- The `simpledialog` prompt is replaced by its answer, passed in as a
  parameter.
- Calibration.SamePixelCalibratesToZero: takes the 0.0 that `math.hypot` returns
  for identical points as a hypothesis, because the solver does not derive it
  from the square alone.
- The `update_frame` crash when a frame read fails (test11.py:34-37, resize
  before the `ret` test) is capture I/O and is not modelled.
