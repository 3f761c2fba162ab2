/** The two ways the seeded and mask-based extractors pick one contour out of a
    `findContours` result: the largest one (BoxSegmenter, BoxSegmenterColor)
    and the first one whose bounding box holds the click (BoxSegmenterColor,
    ContourSegmenterColor). */
module ContourOps {
  import opened Common
  import opened Geometry

  /** The choice the "largest contour" loop has made after looking at the
      first `n` contours: a later contour replaces the current one only when
      its area is strictly larger. */
  function LargestUpTo(cs: seq<Contour>, n: nat): (k: nat)
    requires 0 < n <= |cs|
    ensures k < n
  {
    if n == 1 then 0
    else
      var best := LargestUpTo(cs, n - 1);
      if cs[n - 1].area > cs[best].area then n - 1 else best
  }

  /** `largestContour = contours.get(0); for (c : contours) if (area(c) > area(largest)) largest = c;` */
  method LargestContour(cs: seq<Contour>) returns (k: nat)
    requires |cs| > 0
    ensures k == LargestUpTo(cs, |cs|)
  {
    k := 0;
    var i := 0;
    while i < |cs|
      invariant 0 <= i <= |cs|
      invariant k == LargestUpTo(cs, if i == 0 then 1 else i)
    {
      if cs[i].area > cs[k].area {
        k := i;
      }
      i := i + 1;
    }
  }

  /** The loop picks the FIRST contour of maximal area: nothing is larger,
      and everything before it is strictly smaller. */
  lemma {:induction false} LargestIsFirstMaximum(cs: seq<Contour>, n: nat)
    requires 0 < n <= |cs|
    ensures forall i :: 0 <= i < n ==> cs[i].area <= cs[LargestUpTo(cs, n)].area
    ensures forall i :: 0 <= i < LargestUpTo(cs, n) ==> cs[i].area < cs[LargestUpTo(cs, n)].area
  {
    if n > 1 {
      LargestIsFirstMaximum(cs, n - 1);
    }
  }

  /** The index of the first contour from `i` on whose bounding box holds
      the point, if any. */
  function FirstContainingFrom(cs: seq<Contour>, px: int, py: int, i: nat): (f: Option<nat>)
    ensures f.Some? ==> i <= f.value < |cs| && RectContains(cs[f.value].rect, px, py)
    decreases |cs| - i
  {
    if i >= |cs| then None
    else if RectContains(cs[i].rect, px, py) then Some(i)
    else FirstContainingFrom(cs, px, py, i + 1)
  }

  /** The scan finds nothing exactly when no box holds the point, and
      otherwise a box that holds it with no earlier box (from `i`) that does. */
  lemma {:induction false} FirstContainingSpec(cs: seq<Contour>, px: int, py: int, i: nat)
    ensures var f := FirstContainingFrom(cs, px, py, i);
      (f.None? <==> forall k :: i <= k < |cs| ==> !RectContains(cs[k].rect, px, py))
      && (f.Some? ==> i <= f.value < |cs| && RectContains(cs[f.value].rect, px, py)
                      && forall k :: i <= k < f.value ==> !RectContains(cs[k].rect, px, py))
    decreases |cs| - i
  {
    if i < |cs| && !RectContains(cs[i].rect, px, py) {
      FirstContainingSpec(cs, px, py, i + 1);
    }
  }

  /** `for (contour : contours) { rect = boundingRect(contour); if (rect holds the click) { ...; break; } }` */
  method FirstContaining(cs: seq<Contour>, px: int, py: int) returns (found: Option<nat>)
    ensures found == FirstContainingFrom(cs, px, py, 0)
    ensures found.None? <==> forall i :: 0 <= i < |cs| ==> !RectContains(cs[i].rect, px, py)
    ensures found.Some? ==> found.value < |cs| && RectContains(cs[found.value].rect, px, py)
    ensures found.Some? ==> forall i :: 0 <= i < found.value ==> !RectContains(cs[i].rect, px, py)
  {
    found := None;
    for i := 0 to |cs|
      invariant forall k :: 0 <= k < i ==> !RectContains(cs[k].rect, px, py)
      invariant FirstContainingFrom(cs, px, py, 0) == FirstContainingFrom(cs, px, py, i)
    {
      if RectContains(cs[i].rect, px, py) {
        found := Some(i);
        return;
      }
    }
  }

  /** `for (Point p : contour.toArray()) contourPoints.add(p);` */
  method CopyPoints(pts: seq<Point>) returns (out: seq<Point>)
    ensures out == pts
  {
    out := [];
    for i := 0 to |pts|
      invariant out == pts[..i]
    {
      out := out + [pts[i]];
    }
  }
}
