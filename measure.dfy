/** The measurement loop of the live size-estimation script: which frames are
    processed, which detected objects are measured, where the two axes are placed
    and what sizes are reported. Moments, the minimum-area rectangle, the
    trigonometry and the rasterisers are outside this model: their results
    (centroid, rectangle size, integer axis offsets, masks) are inputs. */
module Measure {

  import opened Wrappers
  import opened Canvas
  import AxisClip

  /** The script's hard-coded calibration, in pixels per centimetre. */
  const PixelsPerCm: real := 25.21

  /** What the tracker and the geometry routines report for one object. */
  datatype Detection = Detection(
    polygon: seq<Point>,  // the segmentation contour
    m00: real,            // zeroth moment (area) of the contour
    centroid: Point,      // (cx, cy), the truncated first moments over m00
    w: real,              // minimum-area rectangle width, in pixels
    h: real,              // minimum-area rectangle height, in pixels
    widthOffset: Point,   // (dx, dy): half the width along the rectangle's direction
    heightOffset: Point)  // (dx_h, dy_h): half the height along its perpendicular

  /** A drawn axis with its size label, anchored 30 pixels above its first endpoint. */
  datatype Mark = Mark(line: Segment, labelAt: Point, cm: real)

  datatype Measurement = Measurement(
    centroid: Point,
    widthAxis: Segment,
    heightAxis: Segment,
    widthCm: real,
    heightCm: real,
    widthMark: Option<Mark>,
    heightMark: Option<Mark>)

  /** An object is measured only when its contour is non-empty and has non-zero area. */
  predicate Measurable(d: Detection)
  {
    |d.polygon| > 0 && d.m00 != 0.0
  }

  /** The candidate axis from `c - d` to `c + d`. */
  function Axis(c: Point, d: Point): (s: Segment)
    ensures s.a.x + s.b.x == 2 * c.x && s.a.y + s.b.y == 2 * c.y
    ensures s.b.x - s.a.x == 2 * d.x && s.b.y - s.a.y == 2 * d.y
  {
    Segment(Point(c.x - d.x, c.y - d.y), Point(c.x + d.x, c.y + d.y))
  }

  /** A line and its label are drawn only when the clipper returned a pair. */
  function MarkFor(clipped: Option<Segment>, cm: real): Option<Mark>
  {
    match clipped
    case None => None
    case Some(s) => Some(Mark(s, Point(s.a.x, s.a.y - 30), cm))
  }

  /** Measures one detection. `fill` is the contour's filled mask and
      `widthLine`/`heightLine` the one-pixel rasters of the two candidate axes. */
  method MeasureObject(d: Detection, fill: array<bool>, widthLine: array<bool>, heightLine: array<bool>)
    returns (m: Option<Measurement>)
    requires fill.Length == Size && widthLine.Length == Size && heightLine.Length == Size
    ensures m.Some? <==> Measurable(d)
    ensures m.Some? ==>
      && m.value.centroid == d.centroid
      && m.value.widthCm * PixelsPerCm == d.w
      && m.value.heightCm * PixelsPerCm == d.h
      && m.value.widthAxis.a.x + m.value.widthAxis.b.x == 2 * d.centroid.x
      && m.value.widthAxis.a.y + m.value.widthAxis.b.y == 2 * d.centroid.y
      && m.value.heightAxis.a.x + m.value.heightAxis.b.x == 2 * d.centroid.x
      && m.value.heightAxis.a.y + m.value.heightAxis.b.y == 2 * d.centroid.y
      && m.value.widthAxis == Axis(d.centroid, d.widthOffset)
      && m.value.heightAxis == Axis(d.centroid, d.heightOffset)
    ensures m.Some? ==>
      && (m.value.widthMark.Some? <==> AxisClip.Clip(fill[..], widthLine[..]).Some?)
      && (m.value.widthMark.Some? ==>
            var clip := AxisClip.Clip(fill[..], widthLine[..]).value;
            m.value.widthMark.value.line == clip
            && m.value.widthMark.value.labelAt == Point(clip.a.x, clip.a.y - 30)
            && m.value.widthMark.value.cm == m.value.widthCm)
      && (m.value.heightMark.Some? <==> AxisClip.Clip(fill[..], heightLine[..]).Some?)
      && (m.value.heightMark.Some? ==>
            var clip := AxisClip.Clip(fill[..], heightLine[..]).value;
            m.value.heightMark.value.line == clip
            && m.value.heightMark.value.labelAt == Point(clip.a.x, clip.a.y - 30)
            && m.value.heightMark.value.cm == m.value.heightCm)
  {
    if |d.polygon| == 0 || d.m00 == 0.0 {
      return None;
    }
    var widthCm := d.w / PixelsPerCm;
    var heightCm := d.h / PixelsPerCm;
    var widthAxis := Axis(d.centroid, d.widthOffset);
    var clippedW := AxisClip.ClipLineToContour(fill, widthLine);
    var heightAxis := Axis(d.centroid, d.heightOffset);
    var clippedH := AxisClip.ClipLineToContour(fill, heightLine);
    m := Some(Measurement(d.centroid, widthAxis, heightAxis, widthCm, heightCm,
                          MarkFor(clippedW, widthCm), MarkFor(clippedH, heightCm)));
  }

  /** The capture loop. `keys[i]` is the key that `waitKey` would report after
      the (i+1)-th frame read; the stream ends after `|keys|` frames. Returns the
      counter values of the frames that were measured. */
  method CaptureLoop(keys: seq<bool>) returns (measured: seq<nat>)
    ensures forall i :: 0 <= i < |measured| ==> measured[i] == 3 * (i + 1)
    ensures 3 * |measured| <= |keys|
    ensures forall i :: 0 <= i < |measured| - 1 ==> !keys[measured[i] - 1]
    ensures (|measured| > 0 && keys[measured[|measured| - 1] - 1]) || |keys| < 3 * (|measured| + 1)
  {
    var count := 0;
    measured := [];
    while true
      invariant count <= |keys|
      invariant |measured| == count / 3
      invariant forall i :: 0 <= i < |measured| ==> measured[i] == 3 * (i + 1)
      invariant forall i :: 0 <= i < |measured| ==> !keys[measured[i] - 1]
      decreases |keys| - count
    {
      if count == |keys| {
        break;  // the frame source is exhausted
      }
      count := count + 1;
      if count % 3 != 0 {
        continue;
      }
      measured := measured + [count];
      if keys[count - 1] {
        break;  // 'q' was pressed
      }
    }
  }
}
