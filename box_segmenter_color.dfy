/** The seeded query of box mode (BoxSegmenterColor.extractByColor). After
    the bounds guard, the clicked HSV pixel gives a tolerance window; when the
    distance-transform peaks of the window's mask form more than one
    component, the watershed label under the click selects a region and its
    largest contour is reported, otherwise the first mask contour whose
    bounding box holds the click is. Every image operation is an input. */
module BoxSegmenterColor {
  import opened Common
  import opened Geometry
  import opened ContourOps
  import opened HsvWindow

  /** The saturation and value half-width at sensitivity 50. */
  const SV_SPREAD: int := 70

  /** What the watershed branch learns from OpenCV for a mask window: the
      `connectedComponentsWithStats` label count of the peaks, the watershed
      marker under the click, and the contours of that marker's region. */
  datatype Watershed = Watershed(numLabels: int, clickLabel: int, labelContours: seq<Contour>)

  /** `new RegionData(rect, (int) area)` with the truncated mean colour. */
  function BoxRegion(c: Contour, mean: Rect -> Scalar): RegionData
  {
    RegionData(c.rect, [], Trunc(c.area), TruncColor(mean(c.rect)))
  }

  /** The window for the clicked pixel of the HSV image. */
  function ClickWindow(hsvAt: (int, int) -> Scalar, x: int, y: int, sensitivity: int): Window
  {
    var p := hsvAt(x, y);
    MakeWindow(Trunc(p.v0), Trunc(p.v1), Trunc(p.v2), sensitivity, SV_SPREAD)
  }

  /** `extractByColor(img, targetColor, clickX, clickY, sensitivity)` */
  function ExtractByColorSpec(rows: int, cols: int, x: int, y: int, sensitivity: int,
                              hsvAt: (int, int) -> Scalar, watershed: Window -> Watershed,
                              maskContours: Window -> seq<Contour>, mean: Rect -> Scalar): Option<RegionData>
  {
    if !InImage(rows, cols, x, y) then None
    else
      var w := ClickWindow(hsvAt, x, y, sensitivity);
      var ws := watershed(w);
      if ws.numLabels > 1 then
        if ws.clickLabel <= 0 || ws.labelContours == [] then None
        else Some(BoxRegion(ws.labelContours[LargestUpTo(ws.labelContours, |ws.labelContours|)], mean))
      else
        match FirstContainingFrom(maskContours(w), x, y, 0)
        case None => None
        case Some(k) => Some(BoxRegion(maskContours(w)[k], mean))
  }

  method ExtractByColor(rows: int, cols: int, x: int, y: int, sensitivity: int,
                        hsvAt: (int, int) -> Scalar, watershed: Window -> Watershed,
                        maskContours: Window -> seq<Contour>, mean: Rect -> Scalar)
    returns (result: Option<RegionData>)
    ensures result == ExtractByColorSpec(rows, cols, x, y, sensitivity, hsvAt, watershed, maskContours, mean)
  {
    if x < 0 || y < 0 || x >= cols || y >= rows {
      return None;
    }
    var hsvClick := hsvAt(x, y);
    var hueTarget, satTarget, valTarget := Trunc(hsvClick.v0), Trunc(hsvClick.v1), Trunc(hsvClick.v2);
    var w := MakeWindow(hueTarget, satTarget, valTarget, sensitivity, SV_SPREAD);
    var ws := watershed(w);
    result := None;
    if ws.numLabels > 1 {
      if ws.clickLabel > 0 {
        var contours := ws.labelContours;
        if contours != [] {
          var k := LargestContour(contours);
          var largest := contours[k];
          result := Some(RegionData(largest.rect, [], Trunc(largest.area), TruncColor(mean(largest.rect))));
        }
      }
    } else {
      var contours := maskContours(w);
      var found := FirstContaining(contours, x, y);
      if found.Some? {
        var c := contours[found.value];
        result := Some(RegionData(c.rect, [], Trunc(c.area), TruncColor(mean(c.rect))));
      }
    }
  }

  /** The guard: a seed outside the image gives no region. */
  lemma OutsideGivesNone(rows: int, cols: int, x: int, y: int, sensitivity: int,
                         hsvAt: (int, int) -> Scalar, watershed: Window -> Watershed,
                         maskContours: Window -> seq<Contour>, mean: Rect -> Scalar)
    ensures var r := ExtractByColorSpec(rows, cols, x, y, sensitivity, hsvAt, watershed, maskContours, mean);
      r.Some? ==> InImage(rows, cols, x, y)
  {
  }

  /** The watershed path: nothing for a background or boundary marker (label
      at most 0) or a region without contours; otherwise the first contour of
      maximal area, reported with its box, truncated area and no points. */
  lemma WatershedChoice(rows: int, cols: int, x: int, y: int, sensitivity: int,
                        hsvAt: (int, int) -> Scalar, watershed: Window -> Watershed,
                        maskContours: Window -> seq<Contour>, mean: Rect -> Scalar)
    requires InImage(rows, cols, x, y)
    requires watershed(ClickWindow(hsvAt, x, y, sensitivity)).numLabels > 1
    ensures var ws := watershed(ClickWindow(hsvAt, x, y, sensitivity));
      var cs := ws.labelContours;
      var r := ExtractByColorSpec(rows, cols, x, y, sensitivity, hsvAt, watershed, maskContours, mean);
      (r.None? <==> ws.clickLabel <= 0 || cs == [])
      && (r.Some? ==> exists k :: 0 <= k < |cs| && r.value == BoxRegion(cs[k], mean)
                        && (forall i :: 0 <= i < |cs| ==> cs[i].area <= cs[k].area)
                        && (forall i :: 0 <= i < k ==> cs[i].area < cs[k].area))
  {
    var cs := watershed(ClickWindow(hsvAt, x, y, sensitivity)).labelContours;
    if cs != [] {
      LargestIsFirstMaximum(cs, |cs|);
    }
  }

  /** The fallback path: the first mask contour whose box holds the click
      (half-open on the right and bottom), or nothing when none does. */
  lemma FallbackChoice(rows: int, cols: int, x: int, y: int, sensitivity: int,
                       hsvAt: (int, int) -> Scalar, watershed: Window -> Watershed,
                       maskContours: Window -> seq<Contour>, mean: Rect -> Scalar)
    requires InImage(rows, cols, x, y)
    requires watershed(ClickWindow(hsvAt, x, y, sensitivity)).numLabels <= 1
    ensures var cs := maskContours(ClickWindow(hsvAt, x, y, sensitivity));
      var r := ExtractByColorSpec(rows, cols, x, y, sensitivity, hsvAt, watershed, maskContours, mean);
      (r.None? <==> forall i :: 0 <= i < |cs| ==> !RectContains(cs[i].rect, x, y))
      && (r.Some? ==> exists k :: 0 <= k < |cs| && r.value == BoxRegion(cs[k], mean)
                        && RectContains(cs[k].rect, x, y)
                        && (forall i :: 0 <= i < k ==> !RectContains(cs[i].rect, x, y)))
  {
    var cs := maskContours(ClickWindow(hsvAt, x, y, sensitivity));
    FirstContainingSpec(cs, x, y, 0);
  }
}
