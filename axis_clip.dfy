/** `clip_line_to_contour`: the candidate measurement axis is clipped to the
    object by intersecting two raster masks and keeping the first and the last
    set pixel of the intersection in scan order. The two masks (the filled
    contour and the one-pixel line) come from rasterisers outside this model and
    are taken as inputs. */
module AxisClip {

  import opened Wrappers
  import opened Canvas

  /** Pixel `p` is set in both the filled-contour mask and the line mask. */
  predicate Hit(fill: seq<bool>, line: seq<bool>, p: Point)
    requires |fill| == |line| == Size
  {
    InCanvas(p) && fill[Offset(p)] && line[Offset(p)]
  }

  /** The pixel-wise AND of two masks. */
  function Intersect(fill: seq<bool>, line: seq<bool>): seq<bool>
    requires |fill| == |line|
  {
    seq(|fill|, k requires 0 <= k < |fill| => fill[k] && line[k])
  }

  /** The set pixels among the first `n` buffer positions, in scan order. */
  function ScanTo(m: seq<bool>, n: nat): seq<Point>
    requires n <= |m| == Size
  {
    if n == 0 then []
    else ScanTo(m, n - 1) + (if m[n - 1] then [PixelAt(n - 1)] else [])
  }

  /** All set pixels of a mask in row-major order, as `cv2.findNonZero` lists them. */
  function FindNonZero(m: seq<bool>): seq<Point>
    requires |m| == Size
  {
    ScanTo(m, Size)
  }

  /** The clipped axis: the first and last intersection pixels, or nothing
      when fewer than two pixels are set. */
  function Clip(fill: seq<bool>, line: seq<bool>): Option<Segment>
    requires |fill| == |line| == Size
  {
    var coords := FindNonZero(Intersect(fill, line));
    if |coords| >= 2 then Some(Segment(coords[0], coords[|coords| - 1])) else None
  }

  /** The scan lists exactly the set pixels below position `n`, each once, in
      strictly increasing buffer order. */
  lemma {:induction false} ScanToSpec(m: seq<bool>, n: nat)
    requires n <= |m| == Size
    ensures forall i :: 0 <= i < |ScanTo(m, n)| ==>
      InCanvas(ScanTo(m, n)[i]) && Offset(ScanTo(m, n)[i]) < n && m[Offset(ScanTo(m, n)[i])]
    ensures forall i, j :: 0 <= i < j < |ScanTo(m, n)| ==>
      Offset(ScanTo(m, n)[i]) < Offset(ScanTo(m, n)[j])
    ensures forall k :: 0 <= k < n && m[k] ==> PixelAt(k) in ScanTo(m, n)
  {
    if n > 0 {
      ScanToSpec(m, n - 1);
    }
  }

  /** Every listed pixel is a hit, and every hit is listed, at a unique position. */
  lemma HitsAreScanned(fill: seq<bool>, line: seq<bool>, p: Point)
    requires |fill| == |line| == Size
    ensures Hit(fill, line, p) <==> p in FindNonZero(Intersect(fill, line))
  {
    var m := Intersect(fill, line);
    ScanToSpec(m, Size);
    if Hit(fill, line, p) {
      PixelAtOffset(p);
    }
  }

  /** Fewer than two set pixels in the intersection is exactly the absent case. */
  lemma ClipAbsent(fill: seq<bool>, line: seq<bool>)
    requires |fill| == |line| == Size
    ensures Clip(fill, line).None? <==>
      !exists p, q :: Hit(fill, line, p) && Hit(fill, line, q) && p != q
  {
    var coords := FindNonZero(Intersect(fill, line));
    if |coords| >= 2 {
      ScanToSpec(Intersect(fill, line), Size);
      var p, q := coords[0], coords[1];
      HitsAreScanned(fill, line, p);
      HitsAreScanned(fill, line, q);
    } else {
      forall p, q | Hit(fill, line, p) && Hit(fill, line, q)
        ensures p == q
      {
        HitsAreScanned(fill, line, p);
        HitsAreScanned(fill, line, q);
      }
    }
  }

  /** A returned segment joins two distinct hits of the canvas, the first strictly
      before the second in row-major order, and every hit lies between them in that
      order: the endpoints are the scan-order extremes of the intersection. */
  lemma ClipEndpoints(fill: seq<bool>, line: seq<bool>)
    requires |fill| == |line| == Size
    requires Clip(fill, line).Some?
    ensures var s := Clip(fill, line).value;
      Hit(fill, line, s.a) && Hit(fill, line, s.b) && Before(s.a, s.b)
    ensures var s := Clip(fill, line).value;
      forall p :: Hit(fill, line, p) ==> (p == s.a || Before(s.a, p)) && (p == s.b || Before(p, s.b))
  {
    var m := Intersect(fill, line);
    var coords := FindNonZero(m);
    ScanToSpec(m, Size);
    var s := Clip(fill, line).value;
    var last := |coords| - 1;
    BeforeIsOffsetOrder(s.a, s.b);
    forall p | Hit(fill, line, p)
      ensures (p == s.a || Before(s.a, p)) && (p == s.b || Before(p, s.b))
    {
      PixelAtOffset(p);
      assert p in coords;
      var i :| 0 <= i < |coords| && coords[i] == p;
      BeforeIsOffsetOrder(s.a, p);
      BeforeIsOffsetOrder(p, s.b);
    }
  }

  /** Both endpoints of a returned segment lie on the canvas: 0 <= x < 1020, 0 <= y < 500. */
  lemma ClipInCanvas(fill: seq<bool>, line: seq<bool>)
    requires |fill| == |line| == Size
    requires Clip(fill, line).Some?
    ensures 0 <= Clip(fill, line).value.a.x < 1020 && 0 <= Clip(fill, line).value.a.y < 500
    ensures 0 <= Clip(fill, line).value.b.x < 1020 && 0 <= Clip(fill, line).value.b.y < 500
  {
    ClipEndpoints(fill, line);
  }

  /** The clipper over the two rasterised masks: AND them into a fresh buffer,
      list the set pixels in scan order, and keep the first and the last. */
  method ClipLineToContour(fill: array<bool>, line: array<bool>) returns (r: Option<Segment>)
    requires fill.Length == Size && line.Length == Size
    ensures r == Clip(fill[..], line[..])
  {
    var intersection := new bool[Size];
    var k := 0;
    while k < Size
      invariant 0 <= k <= Size
      invariant forall i :: 0 <= i < k ==> intersection[i] == (fill[i] && line[i])
    {
      intersection[k] := fill[k] && line[k];
      k := k + 1;
    }
    assert intersection[..] == Intersect(fill[..], line[..]);

    var coords: seq<Point> := [];
    k := 0;
    while k < Size
      invariant 0 <= k <= Size
      invariant coords == ScanTo(intersection[..], k)
    {
      if intersection[k] {
        coords := coords + [PixelAt(k)];
      }
      k := k + 1;
    }
    if |coords| >= 2 {
      r := Some(Segment(coords[0], coords[|coords| - 1]));
    } else {
      r := None;
    }
  }
}
