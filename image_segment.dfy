/** ImageSegment: one segment the engine reports, with final id, bounds,
    optional mask, optional dominant colour and confidence, and a contour
    that `setContourPoints` may replace. Its area is the bounds' area when
    there is no mask, and otherwise the number of mask pixels whose alpha
    exceeds 128. */
module ImageSegments {
  import opened Common
  import opened Geometry
  import opened Handles
  import opened AndroidColor
  import CI = ColorInfo

  /** `Rect.width()` and `Rect.height()` of android.graphics.Rect. */
  function BoundsWidth(b: Bounds): int { b.right - b.left }
  function BoundsHeight(b: Bounds): int { b.bottom - b.top }

  /** The mask threshold of `getArea`. */
  predicate Opaque(pixel: int) { Alpha(pixel) > 128 }

  /** The opaque pixels among `(0, y) .. (w - 1, y)`. */
  function RowCount(px: array2<int>, w: int, y: int): (n: nat)
    requires 0 <= w <= px.Length0 && 0 <= y < px.Length1
    reads px
    ensures n <= w
    decreases w
  {
    if w == 0 then 0 else RowCount(px, w - 1, y) + (if Opaque(px[w - 1, y]) then 1 else 0)
  }

  /** The opaque pixels in the first `h` rows, `w` pixels wide. */
  function OpaqueCount(px: array2<int>, w: int, h: int): (n: nat)
    requires 0 <= w <= px.Length0 && 0 <= h <= px.Length1
    reads px
    ensures n <= w * h
    decreases h
  {
    if h == 0 then 0
    else
      var n := OpaqueCount(px, w, h - 1) + RowCount(px, w, h - 1);
      assert w * h == w * (h - 1) + w;
      n
  }

  /** A row of opaque pixels counts in full, a row of transparent ones not
      at all. */
  lemma {:induction false} RowCountExtremes(px: array2<int>, w: int, y: int)
    requires 0 <= w <= px.Length0 && 0 <= y < px.Length1
    ensures (forall x :: 0 <= x < w ==> Opaque(px[x, y])) ==> RowCount(px, w, y) == w
    ensures (forall x :: 0 <= x < w ==> !Opaque(px[x, y])) ==> RowCount(px, w, y) == 0
    decreases w
  {
    if w > 0 {
      RowCountExtremes(px, w - 1, y);
    }
  }

  /** A fully opaque mask counts every pixel; a fully transparent one
      counts none. */
  lemma {:induction false} OpaqueCountExtremes(px: array2<int>, w: int, h: int)
    requires 0 <= w <= px.Length0 && 0 <= h <= px.Length1
    ensures (forall x, y :: 0 <= x < w && 0 <= y < h ==> Opaque(px[x, y])) ==> OpaqueCount(px, w, h) == w * h
    ensures (forall x, y :: 0 <= x < w && 0 <= y < h ==> !Opaque(px[x, y])) ==> OpaqueCount(px, w, h) == 0
    decreases h
  {
    if h > 0 {
      OpaqueCountExtremes(px, w, h - 1);
      RowCountExtremes(px, w, h - 1);
      assert w * h == w * (h - 1) + w;
    }
  }

  class ImageSegment {
    const id: int
    const bounds: Bounds
    const mask: Bitmap?
    const dominantColor: Option<CI.ColorInfo>
    const confidence: real
    /** `null` until `setContourPoints` is called. */
    var contour: Option<seq<IPoint>>

    constructor (id: int, bounds: Bounds, mask: Bitmap?, dominantColor: Option<CI.ColorInfo>, confidence: real)
      ensures this.id == id && this.bounds == bounds && this.mask == mask
      ensures this.dominantColor == dominantColor && this.confidence == confidence
      ensures contour == None
    {
      this.id := id;
      this.bounds := bounds;
      this.mask := mask;
      this.dominantColor := dominantColor;
      this.confidence := confidence;
      contour := None;
    }

    /** `setContourPoints(points)`: only the contour changes. */
    method SetContourPoints(points: Option<seq<IPoint>>)
      modifies this
      ensures contour == points
    {
      contour := points;
    }

    /** `getContour()`: never null; empty while no contour is set. */
    function GetContour(): (points: seq<IPoint>)
      reads this
      ensures contour.None? ==> points == []
      ensures contour.Some? ==> points == contour.value
    {
      match contour
      case None => []
      case Some(ps) => ps
    }

    /** `containsPoint(x, y)`: `Rect.contains` of the bounds. */
    predicate ContainsPoint(x: int, y: int)
    {
      BoundsContains(bounds, x, y)
    }

    /** `getArea()`: the counting loop over the mask, or the bounds' area
        when there is no mask. */
    method GetArea() returns (area: int)
      requires mask != null ==> mask.Valid()
      ensures mask == null ==> area == BoundsWidth(bounds) * BoundsHeight(bounds)
      ensures mask != null ==> area == OpaqueCount(mask.pixels, mask.width, mask.height)
      ensures mask != null ==> 0 <= area <= mask.width * mask.height
    {
      if mask == null {
        return BoundsWidth(bounds) * BoundsHeight(bounds);
      }
      var px := mask.pixels;
      area := 0;
      for y := 0 to mask.height
        invariant area == OpaqueCount(px, mask.width, y)
      {
        ghost var before := area;
        for x := 0 to mask.width
          invariant area == before + RowCount(px, x, y)
        {
          if Alpha(px[x, y]) > 128 {
            area := area + 1;
          }
        }
      }
    }
  }

  /** A point is in a segment exactly when it lies in the half-open bounds,
      and an empty rectangle contains nothing. */
  lemma ContainsPointSpec(s: ImageSegment, x: int, y: int)
    ensures s.ContainsPoint(x, y) <==>
      s.bounds.left <= x < s.bounds.right && s.bounds.top <= y < s.bounds.bottom
    ensures BoundsWidth(s.bounds) <= 0 || BoundsHeight(s.bounds) <= 0 ==> !s.ContainsPoint(x, y)
  {
  }

  /** A new segment has an empty contour, and after `setContourPoints` the
      contour is the list set. */
  method ContourLifecycle(id: int, b: Bounds, pts: seq<IPoint>) returns (before: seq<IPoint>, after: seq<IPoint>)
    ensures before == [] && after == pts
  {
    var s := new ImageSegment(id, b, null, None, 1.0);
    before := s.GetContour();
    s.SetContourPoints(Some(pts));
    after := s.GetContour();
  }
}
