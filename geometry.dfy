/** The value types the segmenters exchange: OpenCV's `Rect` (x, y, width,
    height) and `Point` (double coordinates), Android's `Rect` (left, top,
    right, bottom) and `Point` (int coordinates), an RGB triple, the
    `RegionData` record of BaseSegmenter and the per-contour facts the OpenCV
    calls deliver (boundingRect, contourArea, the point list). */
module Geometry {

  import opened Common

  /** org.opencv.core.Rect */
  datatype Rect = Rect(x: int, y: int, width: int, height: int)

  /** org.opencv.core.Point */
  datatype Point = Point(x: real, y: real)

  /** android.graphics.Point */
  datatype IPoint = IPoint(x: int, y: int)

  /** android.graphics.Rect */
  datatype Bounds = Bounds(left: int, top: int, right: int, bottom: int)

  /** An `int[3]` colour or a 0..255 RGB triple. */
  datatype RGB = RGB(r: int, g: int, b: int)

  predicate ChannelOk(v: int) { 0 <= v <= 255 }

  predicate ValidRGB(c: RGB) { ChannelOk(c.r) && ChannelOk(c.g) && ChannelOk(c.b) }

  /** BaseSegmenter.RegionData: bounds, contour points, area and mean colour. */
  datatype RegionData = RegionData(bounds: Rect, contourPoints: seq<Point>, area: int, color: RGB)

  /** One element of a `findContours` result, with what the segmenters read
      from it: its points, `Imgproc.contourArea` and `Imgproc.boundingRect`. */
  datatype Contour = Contour(points: seq<Point>, area: real, rect: Rect)

  /** The sort key of every `Collections.sort` in the segmenters. */
  function AreaOf(r: RegionData): int { r.area }

  /** `Rect.contains(x, y)` of android.graphics.Rect: a non-empty rectangle
      with the left and top edges inside and the right and bottom outside. */
  predicate BoundsContains(b: Bounds, x: int, y: int)
  {
    b.left < b.right && b.top < b.bottom
    && b.left <= x < b.right && b.top <= y < b.bottom
  }

  /** The click test of the seeded extractors: the point lies in the
      rectangle, half-open on the right and bottom. */
  predicate RectContains(r: Rect, px: int, py: int)
  {
    r.x <= px < r.x + r.width && r.y <= py < r.y + r.height
  }

  /** The bounds guard of the seeded extractors: `x` in [0, cols) and `y`
      in [0, rows). */
  predicate InImage(rows: int, cols: int, x: int, y: int)
  {
    0 <= x < cols && 0 <= y < rows
  }

  /** The first three values of an OpenCV `Scalar`, e.g. from `Core.mean`. */
  datatype Scalar = Scalar(v0: real, v1: real, v2: real)

  /** `new int[]{(int) s.val[0], (int) s.val[1], (int) s.val[2]}` */
  function TruncColor(s: Scalar): RGB
  {
    RGB(Trunc(s.v0), Trunc(s.v1), Trunc(s.v2))
  }

  /** `Rect.centerX()` / `centerY()`: the arithmetic shift `(a + b) >> 1`. */
  function Center(a: int, b: int): (c: int)
    ensures a <= b ==> a <= c <= b
  {
    (a + b) / 2
  }
}
