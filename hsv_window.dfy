/** The HSV tolerance window of the seeded extractors (BoxSegmenterColor and
    ContourSegmenterColor): half-widths scaled by `sensitivity / 50`, then the
    bounds clamped to OpenCV's 8-bit HSV ranges (hue 0..180, saturation and
    value 0..255). */
module HsvWindow {
  import opened Common

  const HUE_LIMIT: int := 180
  const SV_LIMIT: int := 255
  /** The hue half-width at sensitivity 50. */
  const HUE_SPREAD: int := 20

  /** The `Scalar(hMin, sMin, vMin)` and `Scalar(hMax, sMax, vMax)` bounds
      given to `Core.inRange`. */
  datatype Window = Window(hMin: int, hMax: int, sMin: int, sMax: int, vMin: int, vMax: int)

  /** `factor = sensitivity / 50.0f; range = (int) (spread * factor)` */
  function HalfWidth(spread: int, sensitivity: int): (r: int)
    ensures spread >= 0 && sensitivity >= 0 ==> r >= 0
  {
    Trunc(spread as real * (sensitivity as real / 50.0))
  }

  /** The window around a target pixel for a saturation/value spread of
      `svSpread` (70 in box mode, 80 in contour mode). */
  function MakeWindow(h: int, s: int, v: int, sensitivity: int, svSpread: int): (w: Window)
    ensures 0 <= w.hMin && w.hMax <= HUE_LIMIT
    ensures 0 <= w.sMin && w.sMax <= SV_LIMIT
    ensures 0 <= w.vMin && w.vMax <= SV_LIMIT
  {
    var hueRange := HalfWidth(HUE_SPREAD, sensitivity);
    var satRange := HalfWidth(svSpread, sensitivity);
    var valRange := HalfWidth(svSpread, sensitivity);
    Window(Max(0, h - hueRange), Min(HUE_LIMIT, h + hueRange),
           Max(0, s - satRange), Min(SV_LIMIT, s + satRange),
           Max(0, v - valRange), Min(SV_LIMIT, v + valRange))
  }

  predicate Holds(w: Window, h: int, s: int, v: int)
  {
    w.hMin <= h <= w.hMax && w.sMin <= s <= w.sMax && w.vMin <= v <= w.vMax
  }

  /** Every pixel `inner` accepts, `outer` accepts too. */
  predicate Within(inner: Window, outer: Window)
  {
    outer.hMin <= inner.hMin && inner.hMax <= outer.hMax
    && outer.sMin <= inner.sMin && inner.sMax <= outer.sMax
    && outer.vMin <= inner.vMin && inner.vMax <= outer.vMax
  }

  lemma WithinHolds(inner: Window, outer: Window, h: int, s: int, v: int)
    requires Within(inner, outer) && Holds(inner, h, s, v)
    ensures Holds(outer, h, s, v)
  {
  }

  /** For a non-negative sensitivity the clicked pixel itself is inside its
      window. */
  lemma TargetInside(h: int, s: int, v: int, sensitivity: int, svSpread: int)
    requires 0 <= h <= HUE_LIMIT && 0 <= s <= SV_LIMIT && 0 <= v <= SV_LIMIT
    requires sensitivity >= 0 && svSpread >= 0
    ensures Holds(MakeWindow(h, s, v, sensitivity, svSpread), h, s, v)
  {
  }

  lemma HalfWidthMonotone(spread: int, s1: int, s2: int)
    requires spread >= 0 && s1 <= s2
    ensures HalfWidth(spread, s1) <= HalfWidth(spread, s2)
  {
    var f1, f2 := s1 as real / 50.0, s2 as real / 50.0;
    assert f1 <= f2;
    var p1, p2 := spread as real * f1, spread as real * f2;
    assert p2 - p1 == spread as real * (f2 - f1);
    TruncMonotone(p1, p2);
  }

  /** Raising the sensitivity never narrows the window. */
  lemma Widening(h: int, s: int, v: int, s1: int, s2: int, svSpread: int)
    requires s1 <= s2 && svSpread >= 0
    ensures Within(MakeWindow(h, s, v, s1, svSpread), MakeWindow(h, s, v, s2, svSpread))
  {
    HalfWidthMonotone(HUE_SPREAD, s1, s2);
    HalfWidthMonotone(svSpread, s1, s2);
  }

  /** At sensitivity 0 the window is the target pixel alone, and at 50 the
      half-widths are the full spreads. */
  lemma WindowAtZeroAndFifty(h: int, s: int, v: int, svSpread: int)
    requires 0 <= h <= HUE_LIMIT && 0 <= s <= SV_LIMIT && 0 <= v <= SV_LIMIT
    ensures MakeWindow(h, s, v, 0, svSpread) == Window(h, h, s, s, v, v)
    ensures HalfWidth(HUE_SPREAD, 50) == HUE_SPREAD && HalfWidth(svSpread, 50) == svSpread
  {
    TruncOfInt(0);
    TruncOfInt(svSpread);
    TruncOfInt(HUE_SPREAD);
    assert svSpread as real * (50 as real / 50.0) == svSpread as real;
  }
}
