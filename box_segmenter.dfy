/** BoxSegmenter: automatic segmentation into colour boxes. An HSV image is
    split into a dark mask, a grey mask and 24 hue masks; each mask yields
    candidate contours (OpenCV, supplied as input here), which are inserted
    under a hierarchy filter, merged when similar, filtered by shape, thinned
    by non-maximum suppression, sorted by area and capped at 35. */
module BoxSegmenter {
  import opened Common
  import opened Geometry
  import opened Numerics
  import opened ContourOps
  import Sorting

  /** BoxSegmenter.getProcessingSize */
  const PROCESSING_SIZE: int := 400
  const MAX_REGIONS: nat := 35
  const HUE_RANGES: int := 24
  const MAX_MERGE_ITERATIONS: nat := 3
  const DIVIDE_BY_ZERO: string := "/ by zero"

  /** The private ColorRegion record: bounds, area and an `int[3]` colour. */
  datatype ColorRegion = ColorRegion(bounds: Rect, area: nat, color: RGB)

  function RegionArea(r: ColorRegion): int { r.area }

  // ---------------------------------------------------------------- geometry

  function Area(r: Rect): int { r.width * r.height }

  function InterW(r1: Rect, r2: Rect): nat
  {
    Max(0, Min(r1.x + r1.width, r2.x + r2.width) - Max(r1.x, r2.x))
  }

  function InterH(r1: Rect, r2: Rect): nat
  {
    Max(0, Min(r1.y + r1.height, r2.y + r2.height) - Max(r1.y, r2.y))
  }

  function InterArea(r1: Rect, r2: Rect): nat { InterW(r1, r2) * InterH(r1, r2) }

  lemma MulLe(a: int, b: int, c: int, d: int)
    requires 0 <= a <= c && 0 <= b <= d
    ensures a * b <= c * d
  {
    assert a * b <= c * b;
    assert c * b <= c * d;
  }

  /** A non-empty overlap is no larger than either rectangle. */
  lemma InterAreaBound(r1: Rect, r2: Rect)
    ensures InterArea(r1, r2) == 0
         || (InterArea(r1, r2) <= Area(r1) && InterArea(r1, r2) <= Area(r2))
  {
    var w, h := InterW(r1, r2), InterH(r1, r2);
    if w > 0 && h > 0 {
      MulLe(w, h, r1.width, r1.height);
      MulLe(w, h, r2.width, r2.height);
    } else {
      assert w * h == 0;
    }
  }

  lemma DivAtMostOne(a: real, b: real)
    requires 0.0 <= a <= b && 0.0 < b
    ensures 0.0 <= a / b <= 1.0
  {
    var q := a / b;
    assert q * b == a;
  }

  /** `rectIoU`: intersection over union of two rectangles, 0 when the union
      is empty. */
  function RectIoU(r1: Rect, r2: Rect): (iou: real)
    ensures 0.0 <= iou <= 1.0
  {
    var inter := InterArea(r1, r2);
    var union := Area(r1) + Area(r2) - inter;
    InterAreaBound(r1, r2);
    if union <= 0 then 0.0
    else
      DivAtMostOne(inter as real, union as real);
      inter as real / union as real
  }

  predicate IsRectAlmostSame(r1: Rect, r2: Rect, iouThresh: real)
  {
    RectIoU(r1, r2) > iouThresh
  }

  /** `isRectInside(inner, outer, tol)`: every edge of `inner` lies at least
      `tol` inside the matching edge of `outer`. */
  predicate IsRectInside(inner: Rect, outer: Rect, tol: real)
  {
    inner.x as real >= outer.x as real + tol
    && inner.y as real >= outer.y as real + tol
    && (inner.x + inner.width) as real <= (outer.x + outer.width) as real - tol
    && (inner.y + inner.height) as real <= (outer.y + outer.height) as real - tol
  }

  /** `unionRect`: the smallest rectangle covering both. */
  function UnionRect(r1: Rect, r2: Rect): (u: Rect)
    ensures u.x <= r1.x && u.x <= r2.x && u.y <= r1.y && u.y <= r2.y
    ensures u.x + u.width >= r1.x + r1.width && u.x + u.width >= r2.x + r2.width
    ensures u.y + u.height >= r1.y + r1.height && u.y + u.height >= r2.y + r2.height
    ensures u.x == r1.x || u.x == r2.x
    ensures u.y == r1.y || u.y == r2.y
    ensures u.x + u.width == r1.x + r1.width || u.x + u.width == r2.x + r2.width
    ensures u.y + u.height == r1.y + r1.height || u.y + u.height == r2.y + r2.height
  {
    var x := Min(r1.x, r2.x);
    var y := Min(r1.y, r2.y);
    var right := Max(r1.x + r1.width, r2.x + r2.width);
    var bottom := Max(r1.y + r1.height, r2.y + r2.height);
    Rect(x, y, right - x, bottom - y)
  }

  lemma UnionRectCommutes(r1: Rect, r2: Rect)
    ensures UnionRect(r1, r2) == UnionRect(r2, r1)
  {
  }

  lemma RectIoUSymmetric(r1: Rect, r2: Rect)
    ensures RectIoU(r1, r2) == RectIoU(r2, r1)
  {
    assert InterArea(r1, r2) == InterArea(r2, r1);
  }

  /** A rectangle with positive sides overlaps itself completely. */
  lemma RectIoUSelf(r: Rect)
    requires r.width > 0 && r.height > 0
    ensures RectIoU(r, r) == 1.0
  {
    assert InterW(r, r) == r.width && InterH(r, r) == r.height;
    assert InterArea(r, r) == Area(r);
    assert Area(r) > 0;
  }

  /** Rectangles that are separated horizontally or vertically have IoU 0. */
  lemma RectIoUDisjoint(r1: Rect, r2: Rect)
    requires r1.x + r1.width <= r2.x || r2.x + r2.width <= r1.x
          || r1.y + r1.height <= r2.y || r2.y + r2.height <= r1.y
    ensures RectIoU(r1, r2) == 0.0
  {
    assert InterW(r1, r2) == 0 || InterH(r1, r2) == 0;
    assert InterArea(r1, r2) == 0;
  }

  /** For a rectangle nested in another, the IoU is the ratio of the areas. */
  lemma RectIoUNested(inner: Rect, outer: Rect)
    requires inner.width > 0 && inner.height > 0
    requires IsRectInside(inner, outer, 0.0)
    ensures RectIoU(inner, outer) == Area(inner) as real / Area(outer) as real
  {
    assert InterW(inner, outer) == inner.width;
    assert InterH(inner, outer) == inner.height;
    assert InterArea(inner, outer) == Area(inner);
    assert outer.width >= inner.width && outer.height >= inner.height;
    MulLe(inner.width, inner.height, outer.width, outer.height);
    assert Area(inner) > 0;
  }

  /** With the tolerance of 1 pixel a rectangle is never inside itself. */
  lemma NotInsideItself(r: Rect)
    ensures !IsRectInside(r, r, 1.0)
  {
  }

  // -------------------------------------------------------- hierarchy filter

  /** An existing region the new one swallows: strictly inside it (1 pixel
      margin) and smaller than 70% of its area. */
  predicate Absorbed(existing: ColorRegion, newRegion: ColorRegion)
  {
    IsRectInside(existing.bounds, newRegion.bounds, 1.0)
    && (existing.area as real) < (newRegion.area as real) * 0.7
  }

  predicate HasNearDuplicate(rs: seq<ColorRegion>, newRegion: ColorRegion)
  {
    exists k :: 0 <= k < |rs| && IsRectAlmostSame(newRegion.bounds, rs[k].bounds, 0.9)
  }

  /** `colorRegions.removeIf(existing -> absorbed by newRegion)` */
  function RemoveAbsorbed(rs: seq<ColorRegion>, newRegion: ColorRegion): seq<ColorRegion>
  {
    if rs == [] then []
    else
      RemoveAbsorbed(rs[..|rs| - 1], newRegion)
      + (if Absorbed(rs[|rs| - 1], newRegion) then [] else [rs[|rs| - 1]])
  }

  /** The list after `addRegionWithHierarchyFilter(colorRegions, newRegion)`. */
  function HierarchyInsert(rs: seq<ColorRegion>, newRegion: ColorRegion): seq<ColorRegion>
  {
    if HasNearDuplicate(rs, newRegion) then rs
    else RemoveAbsorbed(rs, newRegion) + [newRegion]
  }

  method AddRegionWithHierarchyFilter(colorRegions: seq<ColorRegion>, newRegion: ColorRegion)
    returns (result: seq<ColorRegion>)
    ensures result == HierarchyInsert(colorRegions, newRegion)
  {
    for i := 0 to |colorRegions|
      invariant forall k :: 0 <= k < i ==> !IsRectAlmostSame(newRegion.bounds, colorRegions[k].bounds, 0.9)
    {
      if IsRectAlmostSame(newRegion.bounds, colorRegions[i].bounds, 0.9) {
        return colorRegions;
      }
    }
    result := [];
    for i := 0 to |colorRegions|
      invariant result == RemoveAbsorbed(colorRegions[..i], newRegion)
    {
      assert colorRegions[..i + 1][..i] == colorRegions[..i];
      if !Absorbed(colorRegions[i], newRegion) {
        result := result + [colorRegions[i]];
      }
    }
    assert colorRegions[..|colorRegions|] == colorRegions;
    result := result + [newRegion];
  }

  /** The removeIf step keeps exactly the regions that are not absorbed. */
  lemma {:induction false} RemoveAbsorbedMembers(rs: seq<ColorRegion>, n: ColorRegion)
    ensures forall x :: x in RemoveAbsorbed(rs, n) <==> x in rs && !Absorbed(x, n)
    ensures |RemoveAbsorbed(rs, n)| <= |rs|
  {
    if rs != [] {
      RemoveAbsorbedMembers(rs[..|rs| - 1], n);
      assert rs == rs[..|rs| - 1] + [rs[|rs| - 1]];
    }
  }

  /** What the hierarchy filter promises: a near-duplicate (IoU > 0.9) is
      dropped and the list is left alone; otherwise the new region ends the
      list, and of the old regions exactly those it absorbs are gone. */
  lemma HierarchyInsertSpec(rs: seq<ColorRegion>, n: ColorRegion)
    ensures HasNearDuplicate(rs, n) ==> HierarchyInsert(rs, n) == rs
    ensures !HasNearDuplicate(rs, n) ==>
      var r := HierarchyInsert(rs, n);
      |r| >= 1 && r[|r| - 1] == n && |r| <= |rs| + 1
      && forall x :: x in r[..|r| - 1] <==> x in rs && !Absorbed(x, n)
  {
    if !HasNearDuplicate(rs, n) {
      RemoveAbsorbedMembers(rs, n);
      var r := HierarchyInsert(rs, n);
      assert r[..|r| - 1] == RemoveAbsorbed(rs, n);
    }
  }

  // ------------------------------------------------------------------ merge

  function SqColorDistance(c1: RGB, c2: RGB): (d: int)
    ensures 0 <= d
  {
    SquareNonneg(c1.r - c2.r);
    SquareNonneg(c1.g - c2.g);
    SquareNonneg(c1.b - c2.b);
    (c1.r - c2.r) * (c1.r - c2.r) + (c1.g - c2.g) * (c1.g - c2.g) + (c1.b - c2.b) * (c1.b - c2.b)
  }

  /** `colorDistance`: Euclidean distance of two RGB triples. */
  function ColorDistance(m: Maths, c1: RGB, c2: RGB): real
  {
    m.sqrt(SqColorDistance(c1, c2) as real)
  }

  /** The `colorDist < 45` test is exactly a test on the squared distance. */
  lemma ColorDistanceBelow(m: Maths, c1: RGB, c2: RGB)
    requires Lawful(m)
    ensures ColorDistance(m, c1, c2) < 45.0 <==> SqColorDistance(c1, c2) < 2025
  {
    SqrtLess(m, SqColorDistance(c1, c2) as real, 45.0);
    assert Sq(45.0) == 2025.0;
  }

  /** What one (i, j) step of the merge scan does with a pair. */
  datatype PairOutcome = Skip | Merge | DivideByZero

  /** The merge condition `iou > 0.25 && colorDist < 45 &&
      !(r1.area/r2.area > 3f || r1.area/r2.area < 0.33f)`, evaluated left to
      right: the integer division runs, and fails on a zero area, only when
      the first two tests pass. */
  function PairTest(m: Maths, r1: ColorRegion, r2: ColorRegion): PairOutcome
  {
    if RectIoU(r1.bounds, r2.bounds) > 0.25 && ColorDistance(m, r1.color, r2.color) < 45.0 then
      if r2.area == 0 then DivideByZero
      else
        var q := r1.area / r2.area;
        if q as real > 3.0 || (q as real) < 0.33 then Skip else Merge
    else Skip
  }

  /** The area test passes exactly when r2.area <= r1.area < 4 * r2.area. */
  lemma AreaRatioTest(a1: nat, a2: nat)
    requires a2 > 0
    ensures !((a1 / a2) as real > 3.0 || ((a1 / a2) as real) < 0.33) <==> a2 <= a1 < 4 * a2
  {
    var q := a1 / a2;
    assert a1 == q * a2 + a1 % a2;
    if q == 0 {
      assert a1 < a2;
    } else if q >= 4 {
      assert q * a2 >= 4 * a2;
    } else {
      assert q * a2 >= a2;
      assert q * a2 <= 3 * a2;
    }
  }

  /** `(c1 * a1 + c2 * a2) / totalArea` for one colour channel. */
  function WeightedChannel(c1: int, a1: nat, c2: int, a2: nat): int
    requires a1 + a2 > 0
  {
    JavaDiv(c1 * a1 + c2 * a2, a1 + a2)
  }

  /** r1 after absorbing r2: the union box, the summed area and the
      area-weighted colour (computed with the area r1 had before). */
  function MergePair(r1: ColorRegion, r2: ColorRegion): ColorRegion
    requires r1.area + r2.area > 0
  {
    ColorRegion(
      UnionRect(r1.bounds, r2.bounds),
      r1.area + r2.area,
      RGB(WeightedChannel(r1.color.r, r1.area, r2.color.r, r2.area),
          WeightedChannel(r1.color.g, r1.area, r2.color.g, r2.area),
          WeightedChannel(r1.color.b, r1.area, r2.color.b, r2.area)))
  }

  lemma MulSucc(q: int, s: int)
    ensures (q + 1) * s == q * s + s
  {
  }

  lemma DivBetween(v: nat, s: nat, lo: nat, hi: nat)
    requires s > 0 && lo * s <= v <= hi * s
    ensures lo <= v / s <= hi
  {
    var q, r := v / s, v % s;
    assert v == q * s + r;
    assert 0 <= r < s;
    if q < lo {
      MulLe(q + 1, s, lo, s);
      MulSucc(q, s);
    }
    if q > hi {
      MulLe(hi + 1, s, q, s);
      MulSucc(hi, s);
    }
  }

  lemma WeightedChannelBetween(c1: int, a1: nat, c2: int, a2: nat)
    requires ChannelOk(c1) && ChannelOk(c2) && a1 + a2 > 0
    ensures Min(c1, c2) <= WeightedChannel(c1, a1, c2, a2) <= Max(c1, c2)
  {
    var lo, hi := Min(c1, c2), Max(c1, c2);
    MulLe(lo, a1, c1, a1);
    MulLe(lo, a2, c2, a2);
    MulLe(c1, a1, hi, a1);
    MulLe(c2, a2, hi, a2);
    MulLe(0, 0, c1, a1);
    MulLe(0, 0, c2, a2);
    var s, v := a1 + a2, c1 * a1 + c2 * a2;
    assert lo * s == lo * a1 + lo * a2;
    assert hi * s == hi * a1 + hi * a2;
    DivBetween(v, s, lo, hi);
  }

  /** A merged region covers both boxes, adds up the areas and gets a colour
      between the two colours, channel by channel. */
  lemma MergePairSpec(r1: ColorRegion, r2: ColorRegion)
    requires r2.area > 0 && ValidRGB(r1.color) && ValidRGB(r2.color)
    ensures MergePair(r1, r2).area == r1.area + r2.area
    ensures MergePair(r1, r2).bounds == UnionRect(r1.bounds, r2.bounds)
    ensures var c := MergePair(r1, r2).color;
      Min(r1.color.r, r2.color.r) <= c.r <= Max(r1.color.r, r2.color.r)
      && Min(r1.color.g, r2.color.g) <= c.g <= Max(r1.color.g, r2.color.g)
      && Min(r1.color.b, r2.color.b) <= c.b <= Max(r1.color.b, r2.color.b)
    ensures ValidRGB(MergePair(r1, r2).color)
  {
    WeightedChannelBetween(r1.color.r, r1.area, r2.color.r, r2.area);
    WeightedChannelBetween(r1.color.g, r1.area, r2.color.g, r2.area);
    WeightedChannelBetween(r1.color.b, r1.area, r2.color.b, r2.area);
  }

  /** `regions.get(i)` replaced by the merge and `regions.remove(j)`. */
  function ApplyMerge(rs: seq<ColorRegion>, i: nat, j: nat): (r: seq<ColorRegion>)
    requires i < j < |rs| && rs[i].area + rs[j].area > 0
    ensures |r| == |rs| - 1
  {
    var updated := rs[i := MergePair(rs[i], rs[j])];
    updated[..j] + updated[j + 1..]
  }

  /** Where the nested scan `for i ... for j = i + 1 ...` stops. */
  datatype Scan = NoMerge | MergeAt(i: nat, j: nat) | Fault

  /** The pair test the scan applies, as a value. */
  type Tester = (ColorRegion, ColorRegion) -> PairOutcome

  function MergeTest(m: Maths): Tester
  {
    (r1: ColorRegion, r2: ColorRegion) => PairTest(m, r1, r2)
  }

  /** A pair that merges has a second region of positive area. */
  lemma MergeNeedsArea(m: Maths, r1: ColorRegion, r2: ColorRegion)
    requires PairTest(m, r1, r2) == Merge
    ensures r2.area > 0
  {
  }

  /** The scan starting at pair (i, j), in the loops' order. */
  function ScanFrom(test: Tester, rs: seq<ColorRegion>, i: nat, j: nat): (s: Scan)
    requires i < j
    ensures s.MergeAt? ==> i <= s.i < s.j < |rs| && test(rs[s.i], rs[s.j]) == Merge
    decreases |rs| - i, |rs| - j
  {
    if i >= |rs| then NoMerge
    else if j >= |rs| then ScanFrom(test, rs, i + 1, i + 2)
    else match test(rs[i], rs[j])
      case Skip => ScanFrom(test, rs, i, j + 1)
      case Merge => MergeAt(i, j)
      case DivideByZero => Fault
  }

  /** Up to `rounds` rounds, each merging the first mergeable pair; stops
      early when a round finds none. */
  function MergeRounds(m: Maths, rs: seq<ColorRegion>, rounds: nat): Result<seq<ColorRegion>>
    decreases rounds
  {
    if rounds == 0 then Ok(rs)
    else match ScanFrom(MergeTest(m), rs, 0, 1)
      case NoMerge => Ok(rs)
      case Fault => Failure(DIVIDE_BY_ZERO)
      case MergeAt(i, j) =>
        MergeNeedsArea(m, rs[i], rs[j]);
        MergeRounds(m, ApplyMerge(rs, i, j), rounds - 1)
  }

  /** The boxes that survive the aspect and size filter: positive sides, the
      long side at most 7 times the short one, and an area of at least 200. */
  predicate ShapeOk(r: ColorRegion)
  {
    var w, h := r.bounds.width, r.bounds.height;
    w > 0 && h > 0
    && !((Max(w, h) as real) / (Min(w, h) as real) > 7.0 || r.area < 200)
  }

  function ShapeFilter(rs: seq<ColorRegion>): seq<ColorRegion>
  {
    if rs == [] then []
    else
      ShapeFilter(rs[..|rs| - 1]) + (if ShapeOk(rs[|rs| - 1]) then [rs[|rs| - 1]] else [])
  }

  /** What `mergeNearbyRegions` leaves in the list, or the exception. */
  function MergeNearby(m: Maths, rs: seq<ColorRegion>): Result<seq<ColorRegion>>
  {
    match MergeRounds(m, rs, MAX_MERGE_ITERATIONS)
    case Ok(merged) => Ok(Nms(ShapeFilter(merged), 0.5))
    case Failure(e) => Failure(e)
  }

  /** One pass of the two nested `for` loops: stops at the first mergeable
      pair and merges it, or runs to the end without a merge. */
  method MergePass(m: Maths, rs: seq<ColorRegion>) returns (res: Result<seq<ColorRegion>>, merged: bool)
    ensures ScanFrom(MergeTest(m), rs, 0, 1).NoMerge? ==> res == Ok(rs) && !merged
    ensures ScanFrom(MergeTest(m), rs, 0, 1).Fault? ==> res == Failure(DIVIDE_BY_ZERO)
    ensures ScanFrom(MergeTest(m), rs, 0, 1).MergeAt? ==>
      merged && res == Ok(ApplyMerge(rs, ScanFrom(MergeTest(m), rs, 0, 1).i, ScanFrom(MergeTest(m), rs, 0, 1).j))
  {
    var cur := rs;
    merged := false;
    ghost var scan := ScanFrom(MergeTest(m), rs, 0, 1);
    var i := 0;
    while i < |cur| && !merged
      invariant !merged ==> cur == rs && i <= |cur| && scan == ScanFrom(MergeTest(m), rs, i, i + 1)
      invariant merged ==> scan.MergeAt? && cur == ApplyMerge(rs, scan.i, scan.j)
      decreases if merged then 0 else 1, |cur| - i
    {
      var j := i + 1;
      while j < |cur| && !merged
        invariant i + 1 <= j
        invariant !merged ==> cur == rs && i < |cur| && j <= |cur| && scan == ScanFrom(MergeTest(m), rs, i, j)
        invariant merged ==> scan.MergeAt? && cur == ApplyMerge(rs, scan.i, scan.j)
        decreases if merged then 0 else 1, |cur| - j
      {
        var test := PairTest(m, cur[i], cur[j]);
        if test == DivideByZero {
          return Failure(DIVIDE_BY_ZERO), merged;
        }
        if test == Merge {
          cur := ApplyMerge(cur, i, j);
          merged := true;
        }
        j := j + 1;
      }
      i := i + 1;
    }
    res := Ok(cur);
  }

  /** The `while (merged && iterations < maxIterations)` loop. */
  method MergeLoop(m: Maths, regions: seq<ColorRegion>) returns (res: Result<seq<ColorRegion>>)
    ensures res == MergeRounds(m, regions, MAX_MERGE_ITERATIONS)
  {
    var rs := regions;
    var merged := true;
    var iterations := 0;
    while merged && iterations < MAX_MERGE_ITERATIONS
      invariant 0 <= iterations <= MAX_MERGE_ITERATIONS
      invariant merged ==> MergeRounds(m, regions, MAX_MERGE_ITERATIONS)
                           == MergeRounds(m, rs, MAX_MERGE_ITERATIONS - iterations)
      invariant !merged ==> MergeRounds(m, regions, MAX_MERGE_ITERATIONS) == Ok(rs)
      decreases MAX_MERGE_ITERATIONS - iterations
    {
      iterations := iterations + 1;
      var pass;
      pass, merged := MergePass(m, rs);
      if pass.Failure? {
        return pass;
      }
      rs := pass.value;
    }
    res := Ok(rs);
  }

  /** `regions.removeIf(r -> narrow or small)` */
  method RemoveBadShapes(rs: seq<ColorRegion>) returns (kept: seq<ColorRegion>)
    ensures kept == ShapeFilter(rs)
  {
    kept := [];
    for k := 0 to |rs|
      invariant kept == ShapeFilter(rs[..k])
    {
      assert rs[..k + 1][..k] == rs[..k];
      var w, h := rs[k].bounds.width, rs[k].bounds.height;
      var remove := if w <= 0 || h <= 0 then true
                    else (Max(w, h) as real) / (Min(w, h) as real) > 7.0 || rs[k].area < 200;
      if !remove {
        kept := kept + [rs[k]];
      }
    }
    assert rs[..|rs|] == rs;
  }

  method MergeNearbyRegions(m: Maths, regions: seq<ColorRegion>) returns (res: Result<seq<ColorRegion>>)
    ensures res == MergeNearby(m, regions)
  {
    var merged := MergeLoop(m, regions);
    if merged.Failure? {
      return Failure(merged.error);
    }
    var kept := RemoveBadShapes(merged.value);
    var filtered := FinalNMSFilter(kept, 0.5);
    res := Ok(filtered);
  }

  // -------------------------------------------- non-maximum suppression

  /** Region `j` of the sorted list survives when no earlier survivor
      overlaps it by more than `thr`. */
  predicate Kept(s: seq<ColorRegion>, thr: real, j: nat)
    requires j < |s|
    decreases j, 1
  {
    NotSuppressed(s, thr, j, j)
  }

  /** No survivor among the first `n` regions overlaps region `j` by more
      than `thr` (the state of `removed[j]` once the outer loop reached `n`). */
  predicate NotSuppressed(s: seq<ColorRegion>, thr: real, j: nat, n: nat)
    requires n <= j < |s|
    decreases n, 0
  {
    n == 0
    || (NotSuppressed(s, thr, j, n - 1)
        && (Kept(s, thr, n - 1) ==> RectIoU(s[n - 1].bounds, s[j].bounds) <= thr))
  }

  function SurvivorsUpTo(s: seq<ColorRegion>, thr: real, n: nat): seq<ColorRegion>
    requires n <= |s|
  {
    if n == 0 then []
    else SurvivorsUpTo(s, thr, n - 1) + (if Kept(s, thr, n - 1) then [s[n - 1]] else [])
  }

  /** `finalNMSFilter(regions, thr)`: sort by area, largest first, then keep
      the regions no larger kept region overlaps by more than `thr`. */
  function Nms(rs: seq<ColorRegion>, thr: real): seq<ColorRegion>
  {
    var s := Sorting.SortDesc(rs, RegionArea);
    SurvivorsUpTo(s, thr, |s|)
  }

  method FinalNMSFilter(regions: seq<ColorRegion>, thr: real) returns (filtered: seq<ColorRegion>)
    ensures filtered == Nms(regions, thr)
  {
    var s := Sorting.SortDesc(regions, RegionArea);
    var n := |s|;
    var removed := new bool[n](_ => false);
    for i := 0 to n
      invariant forall t :: 0 <= t < n ==> removed[t] == !NotSuppressed(s, thr, t, Min(i, t))
    {
      if removed[i] {
        continue;
      }
      for j := i + 1 to n
        invariant forall t :: 0 <= t < n ==>
          removed[t] == !NotSuppressed(s, thr, t, if i < t < j then i + 1 else Min(i, t))
      {
        if removed[j] {
          continue;
        }
        if RectIoU(s[i].bounds, s[j].bounds) > thr {
          removed[j] := true;
        }
      }
    }
    filtered := [];
    for i := 0 to n
      invariant filtered == SurvivorsUpTo(s, thr, i)
    {
      if !removed[i] {
        filtered := filtered + [s[i]];
      }
    }
  }

  lemma {:induction false} NotSuppressedIff(s: seq<ColorRegion>, thr: real, j: nat, n: nat)
    requires n <= j < |s|
    ensures NotSuppressed(s, thr, j, n)
      <==> forall k :: 0 <= k < n && Kept(s, thr, k) ==> RectIoU(s[k].bounds, s[j].bounds) <= thr
  {
    if n > 0 {
      NotSuppressedIff(s, thr, j, n - 1);
    }
  }

  lemma {:induction false} SurvivorsMembers(s: seq<ColorRegion>, thr: real, n: nat)
    requires n <= |s|
    ensures forall x :: x in SurvivorsUpTo(s, thr, n) <==> exists k :: 0 <= k < n && Kept(s, thr, k) && s[k] == x
  {
    if n > 0 {
      SurvivorsMembers(s, thr, n - 1);
    }
  }

  /** No two boxes of `out` overlap by more than `thr`. */
  ghost predicate PairwiseAtMost(out: seq<ColorRegion>, thr: real)
  {
    forall a, b :: 0 <= a < b < |out| ==> RectIoU(out[a].bounds, out[b].bounds) <= thr
  }

  lemma {:induction false} SurvivorsPairwise(s: seq<ColorRegion>, thr: real, n: nat)
    requires n <= |s|
    ensures PairwiseAtMost(SurvivorsUpTo(s, thr, n), thr)
  {
    if n > 0 {
      SurvivorsPairwise(s, thr, n - 1);
      var prev := SurvivorsUpTo(s, thr, n - 1);
      var out := SurvivorsUpTo(s, thr, n);
      if Kept(s, thr, n - 1) {
        SurvivorsMembers(s, thr, n - 1);
        NotSuppressedIff(s, thr, n - 1, n - 1);
        forall a, b | 0 <= a < b < |out|
          ensures RectIoU(out[a].bounds, out[b].bounds) <= thr
        {
          assert out == prev + [s[n - 1]];
          if b == |out| - 1 {
            assert out[a] == prev[a];
            assert out[a] in prev;
            var k :| 0 <= k < n - 1 && Kept(s, thr, k) && s[k] == out[a];
            assert out[b] == s[n - 1];
            assert RectIoU(s[k].bounds, s[n - 1].bounds) <= thr;
          } else {
            assert out[a] == prev[a] && out[b] == prev[b];
          }
        }
      } else {
        assert out == prev;
      }
    }
  }

  lemma {:induction false} SurvivorsSorted(s: seq<ColorRegion>, thr: real, n: nat)
    requires n <= |s|
    requires Sorting.SortedDesc(s, RegionArea)
    ensures Sorting.SortedDesc(SurvivorsUpTo(s, thr, n), RegionArea)
  {
    if n > 0 {
      SurvivorsSorted(s, thr, n - 1);
      SurvivorsMembers(s, thr, n - 1);
      var prev := SurvivorsUpTo(s, thr, n - 1);
      var out := SurvivorsUpTo(s, thr, n);
      forall a, b | 0 <= a < b < |out|
        ensures RegionArea(out[a]) >= RegionArea(out[b])
      {
        if b == |out| - 1 && Kept(s, thr, n - 1) {
          assert out[a] in prev;
        } else {
          assert out[a] == prev[a] && out[b] == prev[b];
        }
      }
    }
  }

  /** A region no other region overlaps by more than `thr` survives. */
  lemma KeptOne(s: seq<ColorRegion>, thr: real, j: nat)
    requires j < |s|
    requires PairwiseAtMost(s, thr)
    ensures Kept(s, thr, j)
  {
    NotSuppressedIff(s, thr, j, j);
    forall k | 0 <= k < j && Kept(s, thr, k)
      ensures RectIoU(s[k].bounds, s[j].bounds) <= thr
    {
    }
  }

  /** When nothing overlaps too much, every region survives. */
  lemma {:induction false} AllKept(s: seq<ColorRegion>, thr: real, n: nat)
    requires n <= |s|
    requires PairwiseAtMost(s, thr)
    ensures SurvivorsUpTo(s, thr, n) == s[..n]
    ensures forall k :: 0 <= k < n ==> Kept(s, thr, k)
  {
    if n > 0 {
      AllKept(s, thr, n - 1);
      KeptOne(s, thr, n - 1);
      assert s[..n] == s[..n - 1] + [s[n - 1]];
    }
  }

  /** The result of `finalNMSFilter` is sorted by area, largest first. */
  lemma NmsSorted(rs: seq<ColorRegion>, thr: real)
    ensures Sorting.SortedDesc(Nms(rs, thr), RegionArea)
  {
    var s := Sorting.SortDesc(rs, RegionArea);
    Sorting.SortDescSorted(rs, RegionArea);
    SurvivorsSorted(s, thr, |s|);
  }

  /** No two boxes kept by `finalNMSFilter` overlap by more than `thr`. */
  lemma NmsPairwise(rs: seq<ColorRegion>, thr: real)
    ensures PairwiseAtMost(Nms(rs, thr), thr)
  {
    var s := Sorting.SortDesc(rs, RegionArea);
    SurvivorsPairwise(s, thr, |s|);
    assert Nms(rs, thr) == SurvivorsUpTo(s, thr, |s|);
  }

  /** The indices of the regions among the first `n` that the scan keeps,
      in increasing order. */
  function KeptIndices(s: seq<ColorRegion>, thr: real, n: nat): seq<nat>
    requires n <= |s|
  {
    if n == 0 then []
    else KeptIndices(s, thr, n - 1) + (if Kept(s, thr, n - 1) then [n - 1] else [])
  }

  /** `out` is the subsequence of `s` at the strictly increasing indices `idx`. */
  ghost predicate SubsequenceAt(out: seq<ColorRegion>, s: seq<ColorRegion>, idx: seq<nat>)
  {
    |idx| == |out|
    && (forall k :: 0 <= k < |idx| ==> idx[k] < |s| && out[k] == s[idx[k]])
    && (forall a, b :: 0 <= a < b < |idx| ==> idx[a] < idx[b])
  }

  /** The survivors are the subsequence of `s[..n]` at the kept indices, and
      every kept index is listed. */
  lemma {:induction false} SurvivorsSubsequence(s: seq<ColorRegion>, thr: real, n: nat)
    requires n <= |s|
    ensures var idx := KeptIndices(s, thr, n);
      SubsequenceAt(SurvivorsUpTo(s, thr, n), s, idx)
      && (forall k :: 0 <= k < |idx| ==> idx[k] < n && Kept(s, thr, idx[k]))
      && (forall j :: 0 <= j < n && Kept(s, thr, j) ==> j in idx)
  {
    if n > 0 {
      SurvivorsSubsequence(s, thr, n - 1);
      var prev, pidx := SurvivorsUpTo(s, thr, n - 1), KeptIndices(s, thr, n - 1);
      var out, idx := SurvivorsUpTo(s, thr, n), KeptIndices(s, thr, n);
      if Kept(s, thr, n - 1) {
        assert out == prev + [s[n - 1]] && idx == pidx + [n - 1];
        assert idx[|idx| - 1] == n - 1;
        forall k | 0 <= k < |pidx|
          ensures idx[k] == pidx[k] && out[k] == prev[k]
        {
        }
      } else {
        assert out == prev && idx == pidx;
      }
    }
  }

  /** The survivors among the first `n` regions hold each region at most as
      often as `s[..n]` does. */
  lemma {:induction false} SurvivorsMultiset(s: seq<ColorRegion>, thr: real, n: nat)
    requires n <= |s|
    ensures multiset(SurvivorsUpTo(s, thr, n)) <= multiset(s[..n])
  {
    if n > 0 {
      SurvivorsMultiset(s, thr, n - 1);
      assert s[..n] == s[..n - 1] + [s[n - 1]];
    }
  }

  /** The result of `finalNMSFilter` is a subsequence of the stable area sort
      of its input (the kept indices, in order), and so holds each input
      region at most as often as the input does. */
  lemma NmsSubset(rs: seq<ColorRegion>, thr: real)
    ensures var s := Sorting.SortDesc(rs, RegionArea);
      SubsequenceAt(Nms(rs, thr), s, KeptIndices(s, thr, |s|))
    ensures multiset(Nms(rs, thr)) <= multiset(rs)
    ensures forall x :: x in Nms(rs, thr) ==> x in rs
  {
    var s := Sorting.SortDesc(rs, RegionArea);
    Sorting.SortDescPermutation(rs, RegionArea);
    SurvivorsSubsequence(s, thr, |s|);
    SurvivorsMultiset(s, thr, |s|);
    assert s[..|s|] == s;
    forall x | x in Nms(rs, thr)
      ensures x in rs
    {
      assert x in multiset(Nms(rs, thr));
    }
  }

  /** Every dropped box is overlapped by more than `thr` by a kept box that
      is at least as large; in particular a non-empty input keeps a box. */
  lemma NmsCoverage(rs: seq<ColorRegion>, thr: real)
    ensures forall x :: x in rs ==>
      (x in Nms(rs, thr)
       || exists y :: y in Nms(rs, thr) && y.area >= x.area && RectIoU(y.bounds, x.bounds) > thr)
    ensures |rs| > 0 ==> |Nms(rs, thr)| > 0
  {
    var s := Sorting.SortDesc(rs, RegionArea);
    Sorting.SortDescSorted(rs, RegionArea);
    Sorting.SortDescPermutation(rs, RegionArea);
    var out := Nms(rs, thr);
    forall x | x in rs
      ensures x in out || exists y :: y in out && y.area >= x.area && RectIoU(y.bounds, x.bounds) > thr
    {
      assert x in multiset(rs);
      assert x in multiset(s);
      var j :| 0 <= j < |s| && s[j] == x;
      SortedCoverage(s, thr, j);
    }
    if |rs| > 0 {
      assert Kept(s, thr, 0);
      SurvivorsMembers(s, thr, |s|);
      assert s[0] in out;
    }
  }

  /** In an area-sorted list, a box the scan does not keep is suppressed by
      an earlier, so at least as large, kept box. */
  lemma SortedCoverage(s: seq<ColorRegion>, thr: real, j: nat)
    requires j < |s| && Sorting.SortedDesc(s, RegionArea)
    ensures var out := SurvivorsUpTo(s, thr, |s|);
      s[j] in out || exists y :: y in out && y.area >= s[j].area && RectIoU(y.bounds, s[j].bounds) > thr
  {
    SurvivorsMembers(s, thr, |s|);
    if !Kept(s, thr, j) {
      NotSuppressedIff(s, thr, j, j);
      var k :| 0 <= k < j && Kept(s, thr, k) && RectIoU(s[k].bounds, s[j].bounds) > thr;
      assert s[k] in SurvivorsUpTo(s, thr, |s|);
      assert RegionArea(s[k]) >= RegionArea(s[j]);
    } else {
      assert s[j] in SurvivorsUpTo(s, thr, |s|);
    }
  }

  /** Suppressing a second time changes nothing. */
  lemma NmsIdempotent(rs: seq<ColorRegion>, thr: real)
    ensures Nms(Nms(rs, thr), thr) == Nms(rs, thr)
  {
    var out := Nms(rs, thr);
    NmsSorted(rs, thr);
    NmsPairwise(rs, thr);
    Sorting.SortDescOfSorted(out, RegionArea);
    AllKept(out, thr, |out|);
    assert out[..|out|] == out;
  }

  // ------------------------------------------------------ merge properties

  /** The pairs (a, b), a < b, that the scan visits from (i, j) on. */
  ghost predicate AllSkipFrom(test: Tester, rs: seq<ColorRegion>, i: nat, j: nat)
  {
    forall a, b :: i <= a < b < |rs| && (a > i || b >= j) ==> test(rs[a], rs[b]) == Skip
  }

  /** The scan finds nothing exactly when every pair it visits is skipped,
      and when it stops at a pair, that pair merges and every pair before it
      was skipped. */
  lemma {:induction false} ScanFromSpec(test: Tester, rs: seq<ColorRegion>, i: nat, j: nat)
    requires i < j
    ensures ScanFrom(test, rs, i, j).NoMerge? <==> AllSkipFrom(test, rs, i, j)
    ensures ScanFrom(test, rs, i, j).MergeAt? ==>
      var s := ScanFrom(test, rs, i, j);
      test(rs[s.i], rs[s.j]) == Merge
      && forall b :: j <= b < s.j && s.i == i ==> test(rs[i], rs[b]) == Skip
    decreases |rs| - i, |rs| - j
  {
    if i >= |rs| {
    } else if j >= |rs| {
      ScanFromSpec(test, rs, i + 1, i + 2);
      if AllSkipFrom(test, rs, i + 1, i + 2) {
        forall a, b | i <= a < b < |rs| && (a > i || b >= j)
          ensures test(rs[a], rs[b]) == Skip
        {
          assert a > i;
        }
      }
    } else {
      ScanFromSpec(test, rs, i, j + 1);
      if test(rs[i], rs[j]) == Skip && AllSkipFrom(test, rs, i, j + 1) {
        forall a, b | i <= a < b < |rs| && (a > i || b >= j)
          ensures test(rs[a], rs[b]) == Skip
        {
          if a == i && b == j {
          } else {
            assert a > i || b >= j + 1;
          }
        }
      }
    }
  }

  function TotalArea(rs: seq<ColorRegion>): int
  {
    if rs == [] then 0 else TotalArea(rs[..|rs| - 1]) + rs[|rs| - 1].area
  }

  lemma {:induction false} TotalAreaAppend(a: seq<ColorRegion>, b: seq<ColorRegion>)
    ensures TotalArea(a + b) == TotalArea(a) + TotalArea(b)
    decreases |b|
  {
    if b == [] {
      assert a + b == a;
    } else {
      assert (a + b)[..|a + b| - 1] == a + b[..|b| - 1];
      TotalAreaAppend(a, b[..|b| - 1]);
    }
  }

  lemma TotalAreaSplit(rs: seq<ColorRegion>, k: nat)
    requires k < |rs|
    ensures TotalArea(rs) == TotalArea(rs[..k]) + rs[k].area + TotalArea(rs[k + 1..])
  {
    assert rs == rs[..k] + [rs[k]] + rs[k + 1..];
    TotalAreaAppend(rs[..k] + [rs[k]], rs[k + 1..]);
    TotalAreaAppend(rs[..k], [rs[k]]);
    assert TotalArea([rs[k]]) == rs[k].area by {
      assert [rs[k]][..0] == [];
    }
  }

  lemma TotalAreaUpdate(rs: seq<ColorRegion>, i: nat, x: ColorRegion)
    requires i < |rs|
    ensures TotalArea(rs[i := x]) == TotalArea(rs) - rs[i].area + x.area
  {
    var u := rs[i := x];
    TotalAreaSplit(rs, i);
    TotalAreaSplit(u, i);
    assert u[..i] == rs[..i] && u[i + 1..] == rs[i + 1..];
  }

  lemma TotalAreaRemove(rs: seq<ColorRegion>, j: nat)
    requires j < |rs|
    ensures TotalArea(rs[..j] + rs[j + 1..]) == TotalArea(rs) - rs[j].area
  {
    TotalAreaSplit(rs, j);
    TotalAreaAppend(rs[..j], rs[j + 1..]);
  }

  /** A merge moves r2's area into r1: the total area is unchanged. */
  lemma ApplyMergeTotalArea(rs: seq<ColorRegion>, i: nat, j: nat)
    requires i < j < |rs| && rs[i].area + rs[j].area > 0
    ensures TotalArea(ApplyMerge(rs, i, j)) == TotalArea(rs)
  {
    var updated := rs[i := MergePair(rs[i], rs[j])];
    TotalAreaUpdate(rs, i, MergePair(rs[i], rs[j]));
    TotalAreaRemove(updated, j);
  }

  lemma ApplyMergeValidColors(rs: seq<ColorRegion>, i: nat, j: nat)
    requires i < j < |rs| && rs[j].area > 0
    requires forall k :: 0 <= k < |rs| ==> ValidRGB(rs[k].color)
    ensures forall x :: x in ApplyMerge(rs, i, j) ==> ValidRGB(x.color)
  {
    MergePairSpec(rs[i], rs[j]);
  }

  /** The merge loop removes one region per merge, and no more than one per
      round. */
  lemma {:induction false} MergeRoundsLength(m: Maths, rs: seq<ColorRegion>, rounds: nat)
    ensures MergeRounds(m, rs, rounds).Ok? ==>
      |rs| - rounds <= |MergeRounds(m, rs, rounds).value| <= |rs|
    decreases rounds
  {
    if rounds > 0 {
      var s := ScanFrom(MergeTest(m), rs, 0, 1);
      if s.MergeAt? {
        MergeNeedsArea(m, rs[s.i], rs[s.j]);
        MergeRoundsLength(m, ApplyMerge(rs, s.i, s.j), rounds - 1);
      }
    }
  }

  /** Merging never changes the total area of the regions. */
  lemma {:induction false} MergeRoundsTotalArea(m: Maths, rs: seq<ColorRegion>, rounds: nat)
    ensures MergeRounds(m, rs, rounds).Ok? ==> TotalArea(MergeRounds(m, rs, rounds).value) == TotalArea(rs)
    decreases rounds
  {
    if rounds > 0 {
      var s := ScanFrom(MergeTest(m), rs, 0, 1);
      if s.MergeAt? {
        MergeNeedsArea(m, rs[s.i], rs[s.j]);
        ApplyMergeTotalArea(rs, s.i, s.j);
        MergeRoundsTotalArea(m, ApplyMerge(rs, s.i, s.j), rounds - 1);
      }
    }
  }

  /** Merged colours stay valid 0..255 triples. */
  lemma {:induction false} MergeRoundsValidColors(m: Maths, rs: seq<ColorRegion>, rounds: nat)
    requires forall k :: 0 <= k < |rs| ==> ValidRGB(rs[k].color)
    ensures MergeRounds(m, rs, rounds).Ok? ==>
      forall x :: x in MergeRounds(m, rs, rounds).value ==> ValidRGB(x.color)
    decreases rounds
  {
    if rounds > 0 {
      var s := ScanFrom(MergeTest(m), rs, 0, 1);
      if s.MergeAt? {
        MergeNeedsArea(m, rs[s.i], rs[s.j]);
        ApplyMergeValidColors(rs, s.i, s.j);
        var next := ApplyMerge(rs, s.i, s.j);
        assert forall k :: 0 <= k < |next| ==> next[k] in next;
        MergeRoundsValidColors(m, next, rounds - 1);
      }
    }
  }

  /** When the loop stops before its budget of rounds, no pair of the result
      passes the merge test. */
  lemma MergeRoundsFixpoint(m: Maths, rs: seq<ColorRegion>, rounds: nat)
    ensures MergeRounds(m, rs, rounds).Ok? && |MergeRounds(m, rs, rounds).value| > |rs| - rounds ==>
      AllSkipFrom(MergeTest(m), MergeRounds(m, rs, rounds).value, 0, 1)
  {
    var res := MergeRounds(m, rs, rounds);
    MergeRoundsStop(m, rs, rounds);
    if res.Ok? && |res.value| > |rs| - rounds {
      NoMergeAllSkip(MergeTest(m), res.value);
    }
  }

  /** The loop ends early only on a round whose scan finds no pair. */
  lemma {:induction false} MergeRoundsStop(m: Maths, rs: seq<ColorRegion>, rounds: nat)
    ensures MergeRounds(m, rs, rounds).Ok? && |MergeRounds(m, rs, rounds).value| > |rs| - rounds ==>
      ScanFrom(MergeTest(m), MergeRounds(m, rs, rounds).value, 0, 1).NoMerge?
    decreases rounds
  {
    if rounds > 0 {
      match ScanFrom(MergeTest(m), rs, 0, 1)
      case NoMerge =>
      case Fault =>
      case MergeAt(i, j) =>
        MergeRoundsStep(m, rs, rounds, i, j);
        MergeRoundsStop(m, ApplyMerge(rs, i, j), rounds - 1);
    }
  }

  /** A scan that finds nothing has seen only skipped pairs. */
  lemma NoMergeAllSkip(test: Tester, rs: seq<ColorRegion>)
    requires ScanFrom(test, rs, 0, 1).NoMerge?
    ensures AllSkipFrom(test, rs, 0, 1)
  {
    ScanFromSpec(test, rs, 0, 1);
  }

  /** A round that merges pair (i, j) hands one box fewer to the rest. */
  lemma MergeRoundsStep(m: Maths, rs: seq<ColorRegion>, rounds: nat, i: nat, j: nat)
    requires rounds > 0 && ScanFrom(MergeTest(m), rs, 0, 1) == MergeAt(i, j)
    ensures rs[i].area + rs[j].area > 0
    ensures MergeRounds(m, rs, rounds) == MergeRounds(m, ApplyMerge(rs, i, j), rounds - 1)
  {
    MergeNeedsArea(m, rs[i], rs[j]);
  }

  /** Only boxes that pass the shape test survive the filter, in order. */
  lemma {:induction false} ShapeFilterMembers(rs: seq<ColorRegion>)
    ensures forall x :: x in ShapeFilter(rs) <==> x in rs && ShapeOk(x)
  {
    if rs != [] {
      ShapeFilterMembers(rs[..|rs| - 1]);
      assert rs == rs[..|rs| - 1] + [rs[|rs| - 1]];
    }
  }

  // ------------------------------------------------------- extractRegions

  /** `minArea = (int) (imageArea * 0.0015)` */
  function MinArea(rows: nat, cols: nat): (a: nat)
  {
    Trunc((rows * cols) as real * 0.0015)
  }

  /** `vThresh = max(20, min((int) (vMean * 0.32), 55))` */
  function VThresh(vMean: real): (t: int)
    ensures 20 <= t <= 55
    ensures 20 <= Trunc(vMean * 0.32) <= 55 ==> t == Trunc(vMean * 0.32)
  {
    Max(20, Min(Trunc(vMean * 0.32), 55))
  }

  /** `sThresh = max(20, min((int) (sMean * 0.42), 65))` */
  function SThresh(sMean: real): (t: int)
    ensures 20 <= t <= 65
    ensures 20 <= Trunc(sMean * 0.42) <= 65 ==> t == Trunc(sMean * 0.42)
  {
    Max(20, Min(Trunc(sMean * 0.42), 65))
  }

  const HUE_STEP: int := 180 / HUE_RANGES

  /** The masks, as the comparisons that build them. */
  datatype MaskSpec =
    | DarkMask(vThresh: int)
    | GrayMask(vThresh: int, sThresh: int)
    | HueMask(hMin: int, hMax: int, sThresh: int, vThresh: int)

  /** Whether an HSV pixel is set in the mask (`Core.compare`, `inRange`
      with inclusive bounds, `bitwise_and`). */
  predicate InMask(spec: MaskSpec, h: int, s: int, v: int)
  {
    match spec
    case DarkMask(vt) => v < vt
    case GrayMask(vt, st) => v >= vt && s < st
    case HueMask(lo, hi, st, vt) => lo <= h <= hi && s >= st && v >= vt
  }

  function HueBin(i: int, sThresh: int, vThresh: int): MaskSpec
  {
    HueMask(i * HUE_STEP, (i + 1) * HUE_STEP, sThresh, vThresh)
  }

  /** The order in which `extractRegions` visits the masks. */
  function MaskOrder(vThresh: int, sThresh: int): (ms: seq<MaskSpec>)
    ensures |ms| == 2 + HUE_RANGES
  {
    [DarkMask(vThresh), GrayMask(vThresh, sThresh)]
    + seq(HUE_RANGES, i => HueBin(i, sThresh, vThresh))
  }

  /** Dark, grey and coloured pixels partition the image; the 24 bins of 7
      hue units reach only hue 168, so OpenCV hues 169..179 lie in no bin and
      the colours there reach no hue mask; neighbouring bins share their
      boundary hue. */
  lemma MaskPartition(h: int, s: int, v: int, vThresh: int, sThresh: int)
    ensures InMask(DarkMask(vThresh), h, s, v)
      || InMask(GrayMask(vThresh, sThresh), h, s, v)
      || (s >= sThresh && v >= vThresh)
    ensures !(InMask(DarkMask(vThresh), h, s, v) && InMask(GrayMask(vThresh, sThresh), h, s, v))
    ensures forall i :: 0 <= i < HUE_RANGES && InMask(HueBin(i, sThresh, vThresh), h, s, v) ==>
      !InMask(DarkMask(vThresh), h, s, v) && !InMask(GrayMask(vThresh, sThresh), h, s, v)
    ensures s >= sThresh && v >= vThresh && 0 <= h <= 168 ==>
      var i := Min(h / HUE_STEP, HUE_RANGES - 1);
      0 <= i < HUE_RANGES && InMask(HueBin(i, sThresh, vThresh), h, s, v)
    ensures h > 168 ==> forall i :: 0 <= i < HUE_RANGES ==> !InMask(HueBin(i, sThresh, vThresh), h, s, v)
    ensures forall i :: 0 <= i < HUE_RANGES - 1 ==>
      HueBin(i, sThresh, vThresh).hMax == HueBin(i + 1, sThresh, vThresh).hMin
  {
  }

  /** A region's label component as OpenCV reports it: the pixel count and
      the external contours of its mask. */
  datatype LabelComponent = LabelComponent(nonZero: int, contours: seq<Contour>)

  /** What the OpenCV steps of `processColorRegion` report for one mask:
      `countNonZero` of the mask, the number of peak labels, per label
      1..numLabels-1 its component after watershed, and the external contours
      of the cleaned mask. */
  datatype MaskAnalysis = MaskAnalysis(nonZero: int, numLabels: int,
                                       components: seq<LabelComponent>,
                                       contours: seq<Contour>)

  predicate UsesWatershed(a: MaskAnalysis) { 1 < a.numLabels <= 60 }

  predicate WellFormed(a: MaskAnalysis)
  {
    UsesWatershed(a) ==> |a.components| == a.numLabels - 1
  }

  /** The contours the watershed branch considers: for each label with at
      least `minArea` pixels and some contour, its largest contour. */
  function LabelCandidates(cs: seq<LabelComponent>, minArea: nat): seq<Contour>
  {
    if cs == [] then []
    else
      var c := cs[|cs| - 1];
      LabelCandidates(cs[..|cs| - 1], minArea)
      + (if c.nonZero >= minArea && |c.contours| > 0
         then [c.contours[LargestUpTo(c.contours, |c.contours|)]] else [])
  }

  function Candidates(a: MaskAnalysis, minArea: nat): seq<Contour>
    requires WellFormed(a)
  {
    if UsesWatershed(a) then LabelCandidates(a.components, minArea) else a.contours
  }

  /** `aspectRatio > 0.15 && aspectRatio < 7` with `(float) w / h`; a zero
      height gives an infinite or NaN ratio, which fails the test. */
  predicate AspectOk(r: Rect)
  {
    r.height != 0
    && (r.width as real) / (r.height as real) > 0.15
    && (r.width as real) / (r.height as real) < 7.0
  }

  predicate Accepted(c: Contour, minArea: nat)
  {
    c.area >= minArea as real && AspectOk(c.rect)
  }

  function ToColorRegion(c: Contour, mean: Rect -> Scalar): ColorRegion
    requires c.area >= 0.0
  {
    ColorRegion(c.rect, Trunc(c.area), TruncColor(mean(c.rect)))
  }

  /** The list after offering the candidate contours, in order, to the
      hierarchy filter. */
  function InsertAll(acc: seq<ColorRegion>, cands: seq<Contour>, minArea: nat, mean: Rect -> Scalar): seq<ColorRegion>
  {
    if cands == [] then acc
    else
      var prev := InsertAll(acc, cands[..|cands| - 1], minArea, mean);
      var c := cands[|cands| - 1];
      if Accepted(c, minArea) then HierarchyInsert(prev, ToColorRegion(c, mean)) else prev
  }

  /** The list after `if (countNonZero(mask) > minArea) processColorRegion(...)`. */
  function ProcessMask(acc: seq<ColorRegion>, a: MaskAnalysis, minArea: nat, mean: Rect -> Scalar): seq<ColorRegion>
    requires WellFormed(a)
  {
    if a.nonZero > minArea then InsertAll(acc, Candidates(a, minArea), minArea, mean) else acc
  }

  function FoldMasks(ms: seq<MaskSpec>, analyse: MaskSpec -> MaskAnalysis, minArea: nat,
                     mean: Rect -> Scalar): seq<ColorRegion>
    requires forall spec :: WellFormed(analyse(spec))
  {
    if ms == [] then []
    else ProcessMask(FoldMasks(ms[..|ms| - 1], analyse, minArea, mean), analyse(ms[|ms| - 1]), minArea, mean)
  }

  function ToRegionData(rs: seq<ColorRegion>): (out: seq<RegionData>)
    ensures |out| == |rs|
    ensures forall k :: 0 <= k < |rs| ==>
      out[k] == RegionData(rs[k].bounds, [], rs[k].area, rs[k].color)
  {
    if rs == [] then []
    else ToRegionData(rs[..|rs| - 1]) + [RegionData(rs[|rs| - 1].bounds, [], rs[|rs| - 1].area, rs[|rs| - 1].color)]
  }

  /** What `extractRegions` returns, or the exception of the merge step. */
  function ExtractRegionsSpec(m: Maths, rows: nat, cols: nat, vMean: real, sMean: real,
                              analyse: MaskSpec -> MaskAnalysis, mean: Rect -> Scalar): Result<seq<RegionData>>
    requires forall spec :: WellFormed(analyse(spec))
  {
    var minArea := MinArea(rows, cols);
    var colorRegions := FoldMasks(MaskOrder(VThresh(vMean), SThresh(sMean)), analyse, minArea, mean);
    match MergeNearby(m, colorRegions)
    case Failure(e) => Failure(e)
    case Ok(rs) => Ok(Sorting.Take(Sorting.SortDesc(ToRegionData(rs), AreaOf), MAX_REGIONS))
  }

  /** Offers one contour to the list (the body of both contour loops of
      `processColorRegion`). */
  method AddCandidate(colorRegions: seq<ColorRegion>, c: Contour, minArea: nat, mean: Rect -> Scalar)
    returns (result: seq<ColorRegion>)
    ensures result == if Accepted(c, minArea) then HierarchyInsert(colorRegions, ToColorRegion(c, mean)) else colorRegions
  {
    result := colorRegions;
    var area := c.area;
    if area >= minArea as real {
      var rect := c.rect;
      if rect.height != 0 {
        var aspectRatio := (rect.width as real) / (rect.height as real);
        if aspectRatio > 0.15 && aspectRatio < 7.0 {
          var meanColor := mean(rect);
          var region := ColorRegion(rect, Trunc(area), TruncColor(meanColor));
          result := AddRegionWithHierarchyFilter(colorRegions, region);
        }
      }
    }
  }

  lemma InsertAllSnoc(acc: seq<ColorRegion>, cands: seq<Contour>, c: Contour, minArea: nat, mean: Rect -> Scalar)
    ensures InsertAll(acc, cands + [c], minArea, mean)
         == (var prev := InsertAll(acc, cands, minArea, mean);
             if Accepted(c, minArea) then HierarchyInsert(prev, ToColorRegion(c, mean)) else prev)
  {
    assert (cands + [c])[..|cands|] == cands;
  }

  /** The watershed branch of `processColorRegion`: per label with enough
      pixels, the largest contour of its mask. */
  method OfferLargestPerLabel(colorRegions: seq<ColorRegion>, comps: seq<LabelComponent>, minArea: nat,
                              mean: Rect -> Scalar)
    returns (result: seq<ColorRegion>)
    ensures result == InsertAll(colorRegions, LabelCandidates(comps, minArea), minArea, mean)
  {
    result := colorRegions;
    for lbl := 1 to |comps| + 1
      invariant result == InsertAll(colorRegions, LabelCandidates(comps[..lbl - 1], minArea), minArea, mean)
    {
      var comp := comps[lbl - 1];
      ghost var before := LabelCandidates(comps[..lbl - 1], minArea);
      assert comps[..lbl][..lbl - 1] == comps[..lbl - 1];
      if comp.nonZero >= minArea && |comp.contours| > 0 {
        var k := LargestContour(comp.contours);
        var largest := comp.contours[k];
        InsertAllSnoc(colorRegions, before, largest, minArea, mean);
        result := AddCandidate(result, largest, minArea, mean);
      } else {
        assert LabelCandidates(comps[..lbl], minArea) == before + [];
        assert before + [] == before;
      }
    }
    assert comps[..|comps|] == comps;
  }

  /** The other branch: every external contour of the cleaned mask. */
  method OfferContours(colorRegions: seq<ColorRegion>, contours: seq<Contour>, minArea: nat, mean: Rect -> Scalar)
    returns (result: seq<ColorRegion>)
    ensures result == InsertAll(colorRegions, contours, minArea, mean)
  {
    result := colorRegions;
    for k := 0 to |contours|
      invariant result == InsertAll(colorRegions, contours[..k], minArea, mean)
    {
      assert contours[..k + 1] == contours[..k] + [contours[k]];
      InsertAllSnoc(colorRegions, contours[..k], contours[k], minArea, mean);
      result := AddCandidate(result, contours[k], minArea, mean);
    }
    assert contours[..|contours|] == contours;
  }

  /** `processColorRegion`: the watershed branch for 2..60 labels, otherwise
      all contours of the cleaned mask. */
  method ProcessColorRegion(colorRegions: seq<ColorRegion>, a: MaskAnalysis, minArea: nat, mean: Rect -> Scalar)
    returns (result: seq<ColorRegion>)
    requires WellFormed(a)
    ensures result == InsertAll(colorRegions, Candidates(a, minArea), minArea, mean)
  {
    if 1 < a.numLabels && a.numLabels <= 60 {
      result := OfferLargestPerLabel(colorRegions, a.components, minArea, mean);
    } else {
      result := OfferContours(colorRegions, a.contours, minArea, mean);
    }
  }

  method ConvertRegions(rs: seq<ColorRegion>) returns (regions: seq<RegionData>)
    ensures regions == ToRegionData(rs)
  {
    regions := [];
    for k := 0 to |rs|
      invariant regions == ToRegionData(rs[..k])
    {
      assert rs[..k + 1][..k] == rs[..k];
      var cr := rs[k];
      var rd := RegionData(cr.bounds, [], cr.area, cr.color);
      regions := regions + [rd];
    }
    assert rs[..|rs|] == rs;
  }

  /** `if (Core.countNonZero(mask) > minArea) processColorRegion(mask, ...)` */
  method ProcessIfLarge(colorRegions: seq<ColorRegion>, a: MaskAnalysis, minArea: nat, mean: Rect -> Scalar)
    returns (result: seq<ColorRegion>)
    requires WellFormed(a)
    ensures result == ProcessMask(colorRegions, a, minArea, mean)
  {
    result := colorRegions;
    if a.nonZero > minArea {
      result := ProcessColorRegion(colorRegions, a, minArea, mean);
    }
  }

  lemma FoldMasksSnoc(ms: seq<MaskSpec>, k: nat, analyse: MaskSpec -> MaskAnalysis, minArea: nat,
                      mean: Rect -> Scalar)
    requires k < |ms|
    requires forall spec :: WellFormed(analyse(spec))
    ensures FoldMasks(ms[..k + 1], analyse, minArea, mean)
         == ProcessMask(FoldMasks(ms[..k], analyse, minArea, mean), analyse(ms[k]), minArea, mean)
  {
    assert ms[..k + 1][..k] == ms[..k];
  }

  /** The mask part of `extractRegions`: the dark mask, the grey mask, then
      the 24 hue masks, each processed when it has more than `minArea`
      pixels. */
  method CollectColorRegions(minArea: nat, vThresh: int, sThresh: int,
                             analyse: MaskSpec -> MaskAnalysis, mean: Rect -> Scalar)
    returns (colorRegions: seq<ColorRegion>)
    requires forall spec :: WellFormed(analyse(spec))
    ensures colorRegions == FoldMasks(MaskOrder(vThresh, sThresh), analyse, minArea, mean)
  {
    ghost var masks := MaskOrder(vThresh, sThresh);
    colorRegions := [];
    assert masks[..0] == [];
    FoldMasksSnoc(masks, 0, analyse, minArea, mean);
    colorRegions := ProcessIfLarge(colorRegions, analyse(DarkMask(vThresh)), minArea, mean);
    FoldMasksSnoc(masks, 1, analyse, minArea, mean);
    colorRegions := ProcessIfLarge(colorRegions, analyse(GrayMask(vThresh, sThresh)), minArea, mean);
    var hueStep := 180 / HUE_RANGES;
    for i := 0 to HUE_RANGES
      invariant colorRegions == FoldMasks(masks[..i + 2], analyse, minArea, mean)
    {
      var hMin := i * hueStep;
      var hMax := (i + 1) * hueStep;
      assert masks[i + 2] == HueMask(hMin, hMax, sThresh, vThresh);
      FoldMasksSnoc(masks, i + 2, analyse, minArea, mean);
      colorRegions := ProcessIfLarge(colorRegions, analyse(HueMask(hMin, hMax, sThresh, vThresh)), minArea, mean);
    }
    assert masks[..HUE_RANGES + 2] == masks;
  }

  /** `extractRegions`: the OpenCV image work is summarised by `analyse`
      (what each mask yields), `mean` (the mean colour of a box of the
      filtered image) and the channel means `vMean`, `sMean`. */
  method ExtractRegions(m: Maths, rows: nat, cols: nat, vMean: real, sMean: real,
                        analyse: MaskSpec -> MaskAnalysis, mean: Rect -> Scalar)
    returns (res: Result<seq<RegionData>>)
    requires forall spec :: WellFormed(analyse(spec))
    ensures res == ExtractRegionsSpec(m, rows, cols, vMean, sMean, analyse, mean)
  {
    var imageArea := rows * cols;
    var minArea := Trunc(imageArea as real * 0.0015);
    var vThresh := Max(20, Min(Trunc(vMean * 0.32), 55));
    var sThresh := Max(20, Min(Trunc(sMean * 0.42), 65));
    assert minArea == MinArea(rows, cols);
    assert vThresh == VThresh(vMean) && sThresh == SThresh(sMean);
    var colorRegions := CollectColorRegions(minArea, vThresh, sThresh, analyse, mean);
    var merged := MergeNearbyRegions(m, colorRegions);
    if merged.Failure? {
      return Failure(merged.error);
    }
    var regions := ConvertRegions(merged.value);
    var sorted := Sorting.SortDesc(regions, AreaOf);
    res := Ok(Sorting.Take(sorted, MAX_REGIONS));
  }

  /** A reported region: no contour points, positive sides, an aspect ratio
      of at most 7 and an area of at least 200. */
  ghost predicate ReportedShape(r: RegionData)
  {
    r.contourPoints == [] && r.area >= 200
    && r.bounds.width > 0 && r.bounds.height > 0
    && (Max(r.bounds.width, r.bounds.height) as real)
       / (Min(r.bounds.width, r.bounds.height) as real) <= 7.0
  }

  ghost predicate BoxesApart(out: seq<RegionData>, thr: real)
  {
    forall a, b :: 0 <= a < b < |out| ==> RectIoU(out[a].bounds, out[b].bounds) <= thr
  }

  /** What `extractRegions` promises about its output: at most 35 regions,
      largest first, each of a reported shape, and no two boxes overlapping
      with an IoU above 0.5. */
  ghost predicate BoxOutputOk(out: seq<RegionData>)
  {
    |out| <= MAX_REGIONS
    && Sorting.SortedDesc(out, AreaOf)
    && (forall k :: 0 <= k < |out| ==> ReportedShape(out[k]))
    && BoxesApart(out, 0.5)
  }

  /** Converting the suppressed list keeps its order, shapes and spacing. */
  lemma ConvertKeeps(rs: seq<ColorRegion>)
    requires Sorting.SortedDesc(rs, RegionArea)
    requires forall x :: x in rs ==> ShapeOk(x)
    requires PairwiseAtMost(rs, 0.5)
    ensures Sorting.SortedDesc(ToRegionData(rs), AreaOf)
    ensures forall k :: 0 <= k < |rs| ==> ReportedShape(ToRegionData(rs)[k])
    ensures BoxesApart(ToRegionData(rs), 0.5)
  {
    var rd := ToRegionData(rs);
    forall k | 0 <= k < |rs|
      ensures ReportedShape(rd[k])
    {
      assert rs[k] in rs;
    }
  }

  /** Sorting an already sorted list and keeping its first 35 elements
      preserves the promises. */
  lemma CapKeeps(rd: seq<RegionData>)
    requires Sorting.SortedDesc(rd, AreaOf)
    requires forall k :: 0 <= k < |rd| ==> ReportedShape(rd[k])
    requires BoxesApart(rd, 0.5)
    ensures BoxOutputOk(Sorting.Take(Sorting.SortDesc(rd, AreaOf), MAX_REGIONS))
  {
    Sorting.SortDescOfSorted(rd, AreaOf);
    var out := Sorting.Take(rd, MAX_REGIONS);
    Sorting.TakeSorted(rd, AreaOf, MAX_REGIONS);
    assert forall k :: 0 <= k < |out| ==> out[k] == rd[k];
  }

  /** The steps after the merge loop (shape filter, suppression, conversion,
      sort, cap) establish the output promises for any merged list. */
  lemma FinishRegionsOk(merged: seq<ColorRegion>)
    ensures BoxOutputOk(Sorting.Take(Sorting.SortDesc(ToRegionData(Nms(ShapeFilter(merged), 0.5)), AreaOf), MAX_REGIONS))
  {
    var shaped := ShapeFilter(merged);
    var rs := Nms(shaped, 0.5);
    NmsSorted(shaped, 0.5);
    NmsPairwise(shaped, 0.5);
    NmsSubset(shaped, 0.5);
    ShapeFilterMembers(merged);
    ConvertKeeps(rs);
    CapKeeps(ToRegionData(rs));
  }

  lemma ExtractRegionsResult(m: Maths, rows: nat, cols: nat, vMean: real, sMean: real,
                             analyse: MaskSpec -> MaskAnalysis, mean: Rect -> Scalar)
    requires forall spec :: WellFormed(analyse(spec))
    ensures var res := ExtractRegionsSpec(m, rows, cols, vMean, sMean, analyse, mean);
      res.Ok? ==> BoxOutputOk(res.value)
  {
    var minArea := MinArea(rows, cols);
    var colorRegions := FoldMasks(MaskOrder(VThresh(vMean), SThresh(sMean)), analyse, minArea, mean);
    var merged := MergeRounds(m, colorRegions, MAX_MERGE_ITERATIONS);
    if merged.Ok? {
      FinishRegionsOk(merged.value);
    }
  }
}
