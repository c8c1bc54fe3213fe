/** The two-click webcam ruler: a click records a point; the second click of a
    pair measures the pixel distance between the two points and either
    calibrates (asking the user for the real length) or reports the length in
    centimetres, then starts a fresh pair. The calibration persists in a file,
    modelled as an optional stored value. The distance is `math.hypot` of the
    two points, supplied by the caller as a non-negative real whose square is
    the sum of the squared coordinate differences; the dialog answer is a
    parameter (`None` for a cancelled prompt). */
module Calibration {

  import opened Wrappers
  import opened Canvas

  /** `d` is the Euclidean distance between `a` and `b`. */
  predicate IsHypot(a: Point, b: Point, d: real)
  {
    d >= 0.0 && d * d == ((b.x - a.x) * (b.x - a.x) + (b.y - a.y) * (b.y - a.y)) as real
  }

  /** Python truthiness of an optional number: present and non-zero. */
  predicate Truthy(v: Option<real>)
  {
    v.Some? && v.value != 0.0
  }

  /** The script's globals together with the contents of the calibration file. */
  datatype Session = Session(
    points: seq<Point>,          // clicked_points
    pixelDistance: Option<real>, // PIXEL_DISTANCE
    pixelsPerCm: Option<real>,   // PIXELS_PER_CM
    saved: Option<real>)         // the calibration file, None when it does not exist

  /** What a click leads to (the script prints it). */
  datatype Report =
    | Recorded              // the point was only appended
    | Calibrated(scale: real)
    | Cancelled             // the prompt was cancelled or answered with zero
    | Measured(cm: real)    // already calibrated: the pair converted to centimetres
    | ZeroDivision          // already calibrated with 0.0: the division raises

  /** One click's inputs: the point, the distance `math.hypot` gives for the
      pair it may complete, and the answer to the prompt should one appear. */
  datatype ClickInput = ClickInput(at: Point, dist: real, answer: Option<real>)

  /** The state at start-up, before the calibration is loaded. */
  function Start(saved: Option<real>): Session
  {
    Session([], None, None, saved)
  }

  function Save(s: Session, value: real): Session
  {
    s.(saved := Some(value))
  }

  function Load(s: Session): Session
  {
    if s.saved.Some? then s.(pixelsPerCm := s.saved) else s
  }

  /** `on_click`. When the scale is 0.0 the division of the calibrated branch
      raises, so the statement that clears the points is never reached. */
  function Click(s: Session, c: ClickInput): (Session, Report)
  {
    var pts := s.points + [c.at];
    if |pts| != 2 then
      (s.(points := pts), Recorded)
    else
      var measuring := s.(points := pts, pixelDistance := Some(c.dist));
      if s.pixelsPerCm.None? then
        if Truthy(c.answer) then
          var scale := c.dist / c.answer.value;
          (Save(measuring.(pixelsPerCm := Some(scale)), scale).(points := []), Calibrated(scale))
        else
          (measuring.(points := []), Cancelled)
      else if s.pixelsPerCm.value == 0.0 then
        (measuring, ZeroDivision)
      else
        (measuring.(points := []), Measured(c.dist / s.pixelsPerCm.value))
  }

  /** A sequence of clicks, in order. */
  function Run(s: Session, clicks: seq<ClickInput>): Session
    decreases |clicks|
  {
    if clicks == [] then s else Run(Click(s, clicks[0]).0, clicks[1..])
  }

  /** The label `update_frame` draws for a pending pair: the centimetre figure
      appears only when the scale is truthy, so a 0.0 scale shows pixels only. */
  datatype Label = PixelsOnly(px: real) | PixelsAndCm(px: real, cm: real)

  function FrameLabel(points: seq<Point>, dist: real, scale: Option<real>): (r: Option<Label>)
    requires |points| == 2 ==> IsHypot(points[0], points[1], dist)
    ensures r.Some? <==> |points| == 2
    ensures r.Some? ==> r.value.px == dist && (r.value.PixelsAndCm? <==> Truthy(scale))
    ensures r.Some? && r.value.PixelsAndCm? ==> r.value.cm * scale.value == dist
  {
    if |points| != 2 then None
    else if Truthy(scale) then Some(PixelsAndCm(dist, dist / scale.value))
    else Some(PixelsOnly(dist))
  }

  /** A click on an empty list only appends: distance, scale and file are unchanged. */
  lemma FirstClickOnlyAppends(s: Session, c: ClickInput)
    requires s.points == []
    ensures Click(s, c).0 == s.(points := [c.at]) && Click(s, c).1 == Recorded
  {
  }

  /** The second click sets the pixel distance to the distance `math.hypot`
      gives for the pair and, unless the division raises, empties the list. */
  lemma SecondClickMeasures(s: Session, c: ClickInput)
    requires |s.points| == 1
    ensures var (t, report) := Click(s, c);
      t.pixelDistance == Some(c.dist)
      && (t.points == [] <==> !report.ZeroDivision?)
      && (report.ZeroDivision? ==> t.points == s.points + [c.at])
  {
  }

  /** Uncalibrated: a truthy answer (negative ones included) sets the scale to
      distance over answer and saves that same value; otherwise nothing changes
      but the distance. */
  lemma CalibrationOutcome(s: Session, c: ClickInput)
    requires |s.points| == 1 && s.pixelsPerCm.None?
    ensures var (t, report) := Click(s, c);
      && (Truthy(c.answer) ==>
            t.pixelsPerCm.Some? && t.pixelsPerCm == t.saved
            && t.pixelsPerCm.value * c.answer.value == c.dist
            && report == Calibrated(t.pixelsPerCm.value))
      && (!Truthy(c.answer) ==>
            t.pixelsPerCm.None? && t.saved == s.saved && report == Cancelled)
  {
  }

  /** Calibrated: the scale and the file are unchanged; a non-zero scale converts
      the distance to centimetres, a zero scale raises. */
  lemma CalibratedOnlyReports(s: Session, c: ClickInput)
    requires |s.points| == 1 && s.pixelsPerCm.Some?
    ensures var (t, report) := Click(s, c);
      && t.pixelsPerCm == s.pixelsPerCm && t.saved == s.saved
      && (s.pixelsPerCm.value != 0.0 ==>
            report.Measured? && report.cm * s.pixelsPerCm.value == c.dist)
      && (s.pixelsPerCm.value == 0.0 <==> report.ZeroDivision?)
  {
  }

  /** The session is steady when at most one point is pending and the scale is
      not 0.0. */
  predicate Steady(s: Session)
  {
    |s.points| <= 1 && s.pixelsPerCm != Some(0.0)
  }

  /** A click keeps a steady session steady as long as a pair is never two clicks
      on the same pixel: the first click leaves one point, the second leaves none. */
  lemma ClickKeepsSteady(s: Session, c: ClickInput)
    requires Steady(s)
    requires |s.points| == 1 ==> IsHypot(s.points[0], c.at, c.dist) && c.at != s.points[0]
    ensures Steady(Click(s, c).0)
    ensures |Click(s, c).0.points| == 1 - |s.points|
  {
  }

  /** Two clicks on the same pixel (for which `math.hypot` gives 0.0) while
      uncalibrated, answered truthily, calibrate to 0.0 and save 0.0. */
  lemma SamePixelCalibratesToZero(s: Session, c: ClickInput)
    requires |s.points| == 1 && s.pixelsPerCm.None?
    requires c.at == s.points[0] && c.dist == 0.0 && Truthy(c.answer)
    ensures IsHypot(s.points[0], c.at, c.dist)
    ensures Click(s, c).0.pixelsPerCm == Some(0.0) && Click(s, c).0.saved == Some(0.0)
    ensures !Steady(Click(s, c).0)
  {
  }

  /** The clicked points of a sequence of clicks, in order. */
  function Ats(clicks: seq<ClickInput>): seq<Point>
  {
    seq(|clicks|, i requires 0 <= i < |clicks| => clicks[i].at)
  }

  /** Once a pair is left pending, every later click only appends its point:
      the pending points are kept, the list grows without bound, and neither
      the distance, the scale nor the file changes again. */
  lemma {:induction false} PendingPairIsStuck(s: Session, clicks: seq<ClickInput>)
    requires |s.points| >= 2
    ensures Run(s, clicks) == s.(points := s.points + Ats(clicks))
    decreases |clicks|
  {
    if clicks != [] {
      PendingPairIsStuck(Click(s, clicks[0]).0, clicks[1..]);
      assert Ats(clicks) == [clicks[0].at] + Ats(clicks[1..]);
    }
  }

  /** With a 0.0 scale, the second click of a pair raises and leaves the pair in
      the list, and from then on no click is processed. */
  lemma ZeroScaleJams(s: Session, c: ClickInput, later: seq<ClickInput>)
    requires |s.points| == 1 && s.pixelsPerCm == Some(0.0)
    ensures Click(s, c).1 == ZeroDivision
    ensures Run(s, [c] + later).points == s.points + [c.at] + Ats(later)
    ensures |Run(s, [c] + later).points| == 2 + |later|
    ensures Run(s, [c] + later).pixelsPerCm == Some(0.0) && Run(s, [c] + later).saved == s.saved
  {
    assert ([c] + later)[1..] == later;
    PendingPairIsStuck(Click(s, c).0, later);
  }

  /** The same 0.0 scale is "calibrated" for `on_click` (`is None` fails) but
      falsy for `update_frame`, which then shows the pending pair in pixels only. */
  lemma ZeroScaleLabelsPixelsOnly(s: Session, c: ClickInput)
    requires |s.points| == 1 && s.pixelsPerCm == Some(0.0)
    requires IsHypot(s.points[0], c.at, c.dist)
    ensures Click(s, c).1 == ZeroDivision
    ensures FrameLabel(Click(s, c).0.points, c.dist, Click(s, c).0.pixelsPerCm) == Some(PixelsOnly(c.dist))
  {
  }

  /** Loading leaves the scale alone when no file exists, and saving then
      loading yields the saved value. */
  lemma SaveThenLoad(s: Session, v: real)
    ensures Load(Save(s, v)).pixelsPerCm == Some(v)
    ensures s.saved.None? ==> Load(s) == s
  {
  }

  /** The calibration file: `None` when it does not exist. */
  class CalibrationFile {
    var contents: Option<real>

    constructor (initial: Option<real>)
      ensures contents == initial
    {
      contents := initial;
    }
  }

  /** The ruler's globals and the file they are loaded from and saved to. */
  class Ruler {
    var clickedPoints: seq<Point>
    var pixelDistance: Option<real>
    var pixelsPerCm: Option<real>
    const file: CalibrationFile

    function State(): Session
      reads this, file
    {
      Session(clickedPoints, pixelDistance, pixelsPerCm, file.contents)
    }

    constructor (file: CalibrationFile)
      ensures this.file == file && State() == Start(file.contents)
    {
      clickedPoints := [];
      pixelDistance := None;
      pixelsPerCm := None;
      this.file := file;
    }

    /** `load_calibration`. */
    method LoadCalibration()
      modifies this
      ensures State() == Load(old(State()))
    {
      if file.contents.Some? {
        pixelsPerCm := file.contents;
      }
    }

    /** `save_calibration`. */
    method SaveCalibration(value: real)
      modifies file
      ensures State() == Save(old(State()), value)
    {
      file.contents := Some(value);
    }

    /** `on_click`; `dist` is what `math.hypot` returns for the pair the click
        completes, and `answer` what the prompt returns should it appear. */
    method OnClick(at: Point, dist: real, answer: Option<real>) returns (report: Report)
      requires |clickedPoints| == 1 ==> IsHypot(clickedPoints[0], at, dist)
      modifies this, file
      ensures (State(), report) == Click(old(State()), ClickInput(at, dist, answer))
    {
      clickedPoints := clickedPoints + [at];
      if |clickedPoints| == 2 {
        pixelDistance := Some(dist);
        if pixelsPerCm.None? {
          if Truthy(answer) {
            pixelsPerCm := Some(dist / answer.value);
            SaveCalibration(dist / answer.value);
            report := Calibrated(dist / answer.value);
          } else {
            report := Cancelled;
          }
        } else if pixelsPerCm.value == 0.0 {
          return ZeroDivision;
        } else {
          report := Measured(dist / pixelsPerCm.value);
        }
        clickedPoints := [];
      } else {
        report := Recorded;
      }
    }
  }

  /** A calibration saved by one run is what the next run loads. */
  method CalibrateThenRestart() returns (scale: Option<real>)
    ensures scale == Some(10.0)
  {
    var file := new CalibrationFile(None);
    var ruler := new Ruler(file);
    ruler.LoadCalibration();
    var r1 := ruler.OnClick(Point(0, 0), 0.0, None);
    var r2 := ruler.OnClick(Point(100, 0), 100.0, Some(10.0));
    assert r2 == Calibrated(10.0);
    var next := new Ruler(file);
    next.LoadCalibration();
    scale := next.pixelsPerCm;
  }
}
