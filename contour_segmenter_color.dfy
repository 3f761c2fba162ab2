/** The seeded query of contour mode (ContourSegmenterColor.extractByColor):
    the bounds guard, the HSV tolerance window of the clicked pixel, and the
    first contour of the window's mask whose bounding box holds the click,
    reported with its points in order. Every image operation is an input. */
module ContourSegmenterColor {
  import opened Common
  import opened Geometry
  import opened ContourOps
  import opened HsvWindow

  /** The saturation and value half-width at sensitivity 50. */
  const SV_SPREAD: int := 80

  /** `new RegionData(rect, (int) area, contourPoints)` with the truncated
      mean colour. */
  function ContourRegion(c: Contour, mean: Rect -> Scalar): RegionData
  {
    RegionData(c.rect, c.points, Trunc(c.area), TruncColor(mean(c.rect)))
  }

  function ClickWindow(hsvAt: (int, int) -> Scalar, x: int, y: int, sensitivity: int): Window
  {
    var p := hsvAt(x, y);
    MakeWindow(Trunc(p.v0), Trunc(p.v1), Trunc(p.v2), sensitivity, SV_SPREAD)
  }

  /** `extractByColor(img, targetColor, clickX, clickY, sensitivity)` */
  function ExtractByColorSpec(rows: int, cols: int, x: int, y: int, sensitivity: int,
                              hsvAt: (int, int) -> Scalar, maskContours: Window -> seq<Contour>,
                              mean: Rect -> Scalar): Option<RegionData>
  {
    if !InImage(rows, cols, x, y) then None
    else
      var cs := maskContours(ClickWindow(hsvAt, x, y, sensitivity));
      match FirstContainingFrom(cs, x, y, 0)
      case None => None
      case Some(k) => Some(ContourRegion(cs[k], mean))
  }

  method ExtractByColor(rows: int, cols: int, x: int, y: int, sensitivity: int,
                        hsvAt: (int, int) -> Scalar, maskContours: Window -> seq<Contour>,
                        mean: Rect -> Scalar)
    returns (result: Option<RegionData>)
    ensures result == ExtractByColorSpec(rows, cols, x, y, sensitivity, hsvAt, maskContours, mean)
  {
    if x < 0 || y < 0 || x >= cols || y >= rows {
      return None;
    }
    var hsvClick := hsvAt(x, y);
    var w := MakeWindow(Trunc(hsvClick.v0), Trunc(hsvClick.v1), Trunc(hsvClick.v2), sensitivity, SV_SPREAD);
    var contours := maskContours(w);
    result := None;
    var found := FirstContaining(contours, x, y);
    if found.Some? {
      var c := contours[found.value];
      var contourPoints := CopyPoints(c.points);
      result := Some(RegionData(c.rect, contourPoints, Trunc(c.area), TruncColor(mean(c.rect))));
    }
  }

  /** No region for a seed outside the image; inside it, nothing exactly when
      no contour box holds the click, and otherwise the first one that does,
      with its box, its truncated area and its points in their order. */
  lemma ExtractByColorChoice(rows: int, cols: int, x: int, y: int, sensitivity: int,
                             hsvAt: (int, int) -> Scalar, maskContours: Window -> seq<Contour>,
                             mean: Rect -> Scalar)
    ensures var cs := maskContours(ClickWindow(hsvAt, x, y, sensitivity));
      var r := ExtractByColorSpec(rows, cols, x, y, sensitivity, hsvAt, maskContours, mean);
      (r.None? <==> !InImage(rows, cols, x, y) || forall i :: 0 <= i < |cs| ==> !RectContains(cs[i].rect, x, y))
      && (r.Some? ==> exists k :: 0 <= k < |cs| && RectContains(cs[k].rect, x, y)
                        && (forall i :: 0 <= i < k ==> !RectContains(cs[i].rect, x, y))
                        && r.value.bounds == cs[k].rect && r.value.contourPoints == cs[k].points
                        && r.value.area == Trunc(cs[k].area))
  {
    var cs := maskContours(ClickWindow(hsvAt, x, y, sensitivity));
    FirstContainingSpec(cs, x, y, 0);
  }
}
