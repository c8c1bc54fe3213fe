/** The fixed working canvas of the measurement script: a 500-row by 1020-column
    raster. Masks are stored as flat buffers in row-major order, which is how a
    C-ordered array of shape (500, 1020) lays out its pixels. */
module Canvas {

  const Rows: nat := 500
  const Cols: nat := 1020
  const Size: nat := Rows * Cols

  /** A pixel or offset, `x` being the column and `y` the row. */
  datatype Point = Point(x: int, y: int)

  /** A line segment given by its two endpoints. */
  datatype Segment = Segment(a: Point, b: Point)

  predicate InCanvas(p: Point)
  {
    0 <= p.x < Cols && 0 <= p.y < Rows
  }

  /** Position of a pixel in the row-major buffer. */
  function Offset(p: Point): int
  {
    p.y * Cols + p.x
  }

  /** The pixel stored at position `k` of the row-major buffer. */
  function PixelAt(k: nat): (p: Point)
    requires k < Size
    ensures InCanvas(p) && Offset(p) == k
  {
    Point(k % Cols, k / Cols)
  }

  /** Strict row-major order: an earlier row, or the same row and an earlier column. */
  predicate Before(a: Point, b: Point)
  {
    a.y < b.y || (a.y == b.y && a.x < b.x)
  }

  /** Inside the canvas, row-major order is the order of buffer positions. */
  lemma BeforeIsOffsetOrder(a: Point, b: Point)
    requires InCanvas(a) && InCanvas(b)
    ensures Before(a, b) <==> Offset(a) < Offset(b)
  {
  }

  /** Every canvas pixel has one buffer position, which maps back to it. */
  lemma PixelAtOffset(p: Point)
    requires InCanvas(p)
    ensures 0 <= Offset(p) < Size && PixelAt(Offset(p)) == p
  {
  }
}
