/** Contour mode (ContourSegmenter.extractRegions): the grey image is
    thresholded at 20, 60, ..., 220, every contour of area at least 50 at any
    level becomes a region carrying its points, all levels go into one list
    without de-duplication, and the list is sorted by area and capped at 20.
    The mean-shift filtering, thresholding, morphology and contour search are
    inputs: `contoursAt(t)` is the `findContours` result at threshold `t`. */
module ContourSegmenter {
  import opened Common
  import opened Geometry
  import opened ContourOps
  import Sorting

  const FIRST_THRESHOLD: int := 20
  const LAST_THRESHOLD: int := 220
  const THRESHOLD_STEP: int := 40
  const MIN_CONTOUR_AREA: real := 50.0
  const MAX_REGIONS: nat := 20
  /** `usesContours()` */
  const USES_CONTOURS: bool := true

  /** `for (threshold = 20; threshold <= 220; threshold += 40)` */
  function Schedule(t: int): seq<int>
    decreases LAST_THRESHOLD - t
  {
    if t > LAST_THRESHOLD then [] else [t] + Schedule(t + THRESHOLD_STEP)
  }

  /** The loop visits exactly six levels. */
  lemma ScheduleLevels()
    ensures Schedule(FIRST_THRESHOLD) == [20, 60, 100, 140, 180, 220]
  {
  }

  function ContourRegion(c: Contour, mean: Rect -> Scalar): RegionData
  {
    RegionData(c.rect, c.points, Trunc(c.area), TruncColor(mean(c.rect)))
  }

  /** The regions one level contributes, in contour order. */
  function LevelRegions(cs: seq<Contour>, mean: Rect -> Scalar): seq<RegionData>
  {
    if cs == [] then []
    else LevelRegions(cs[..|cs| - 1], mean)
         + (if cs[|cs| - 1].area >= MIN_CONTOUR_AREA then [ContourRegion(cs[|cs| - 1], mean)] else [])
  }

  /** `allRegions` after the levels in `ts`. */
  function AllRegions(ts: seq<int>, contoursAt: int -> seq<Contour>, mean: Rect -> Scalar): seq<RegionData>
  {
    if ts == [] then []
    else AllRegions(ts[..|ts| - 1], contoursAt, mean) + LevelRegions(contoursAt(ts[|ts| - 1]), mean)
  }

  function ExtractRegionsSpec(contoursAt: int -> seq<Contour>, mean: Rect -> Scalar): seq<RegionData>
  {
    Sorting.Take(Sorting.SortDesc(AllRegions(Schedule(FIRST_THRESHOLD), contoursAt, mean), AreaOf), MAX_REGIONS)
  }

  /** The inner loop over the contours of one level. */
  method AddLevel(allRegions: seq<RegionData>, contours: seq<Contour>, mean: Rect -> Scalar)
    returns (out: seq<RegionData>)
    ensures out == allRegions + LevelRegions(contours, mean)
  {
    out := allRegions;
    for i := 0 to |contours|
      invariant out == allRegions + LevelRegions(contours[..i], mean)
    {
      var contour := contours[i];
      assert contours[..i + 1][..i] == contours[..i];
      if contour.area >= MIN_CONTOUR_AREA {
        var contourPoints := CopyPoints(contour.points);
        out := out + [RegionData(contour.rect, contourPoints, Trunc(contour.area), TruncColor(mean(contour.rect)))];
      }
    }
    assert contours[..|contours|] == contours;
  }

  method ExtractRegions(contoursAt: int -> seq<Contour>, mean: Rect -> Scalar) returns (regions: seq<RegionData>)
    ensures regions == ExtractRegionsSpec(contoursAt, mean)
  {
    var allRegions := [];
    ghost var visited: seq<int> := [];
    ghost var full := Schedule(FIRST_THRESHOLD);
    var threshold := FIRST_THRESHOLD;
    while threshold <= LAST_THRESHOLD
      invariant visited + Schedule(threshold) == full
      invariant allRegions == AllRegions(visited, contoursAt, mean)
      decreases LAST_THRESHOLD - threshold
    {
      allRegions := AddLevel(allRegions, contoursAt(threshold), mean);
      VisitLevel(visited, threshold, full);
      AllRegionsSnoc(visited, threshold, contoursAt, mean);
      visited := visited + [threshold];
      threshold := threshold + THRESHOLD_STEP;
    }
    assert visited == full;
    regions := Sorting.SortDesc(allRegions, AreaOf);
    if |regions| > MAX_REGIONS {
      regions := regions[..MAX_REGIONS];
    }
  }

  /** One more turn of the threshold loop moves its level from the schedule
      still to come to the visited ones. */
  lemma VisitLevel(visited: seq<int>, threshold: int, full: seq<int>)
    requires threshold <= LAST_THRESHOLD && visited + Schedule(threshold) == full
    ensures (visited + [threshold]) + Schedule(threshold + THRESHOLD_STEP) == full
  {
    var rest := Schedule(threshold + THRESHOLD_STEP);
    assert Schedule(threshold) == [threshold] + rest;
    assert (visited + [threshold]) + rest == visited + ([threshold] + rest);
  }

  /** Visiting one more level appends that level's regions. */
  lemma AllRegionsSnoc(visited: seq<int>, threshold: int, contoursAt: int -> seq<Contour>, mean: Rect -> Scalar)
    ensures AllRegions(visited + [threshold], contoursAt, mean)
      == AllRegions(visited, contoursAt, mean) + LevelRegions(contoursAt(threshold), mean)
  {
    assert (visited + [threshold])[..|visited|] == visited;
  }

  lemma {:induction false} LevelRegionsMembers(cs: seq<Contour>, mean: Rect -> Scalar, r: RegionData)
    ensures r in LevelRegions(cs, mean) <==>
      exists i :: 0 <= i < |cs| && cs[i].area >= MIN_CONTOUR_AREA && r == ContourRegion(cs[i], mean)
  {
    if cs != [] {
      var init := cs[..|cs| - 1];
      LevelRegionsMembers(init, mean, r);
      if exists i :: 0 <= i < |init| && init[i].area >= MIN_CONTOUR_AREA && r == ContourRegion(init[i], mean) {
        var i :| 0 <= i < |init| && init[i].area >= MIN_CONTOUR_AREA && r == ContourRegion(init[i], mean);
        assert cs[i] == init[i];
      }
      if exists i :: 0 <= i < |cs| && cs[i].area >= MIN_CONTOUR_AREA && r == ContourRegion(cs[i], mean) {
        var i :| 0 <= i < |cs| && cs[i].area >= MIN_CONTOUR_AREA && r == ContourRegion(cs[i], mean);
        if i < |init| {
          assert init[i] == cs[i];
        }
      }
    }
  }

  /** No contour is lost or merged: each level contributes exactly its
      contours of area at least 50, so the list length is the sum. */
  lemma {:induction false} AllRegionsLength(ts: seq<int>, contoursAt: int -> seq<Contour>, mean: Rect -> Scalar)
    ensures |AllRegions(ts, contoursAt, mean)| == LargeCount(ts, contoursAt)
  {
    if ts != [] {
      AllRegionsLength(ts[..|ts| - 1], contoursAt, mean);
      LevelRegionsLength(contoursAt(ts[|ts| - 1]), mean);
    }
  }

  /** The number of contours of area at least 50 in a level. */
  function LargeIn(cs: seq<Contour>): nat
  {
    if cs == [] then 0
    else LargeIn(cs[..|cs| - 1]) + (if cs[|cs| - 1].area >= MIN_CONTOUR_AREA then 1 else 0)
  }

  function LargeCount(ts: seq<int>, contoursAt: int -> seq<Contour>): nat
  {
    if ts == [] then 0 else LargeCount(ts[..|ts| - 1], contoursAt) + LargeIn(contoursAt(ts[|ts| - 1]))
  }

  lemma {:induction false} LevelRegionsLength(cs: seq<Contour>, mean: Rect -> Scalar)
    ensures |LevelRegions(cs, mean)| == LargeIn(cs)
  {
    if cs != [] {
      LevelRegionsLength(cs[..|cs| - 1], mean);
    }
  }

  /** A region is a candidate exactly when it is built from a contour of area
      at least 50 found at one of the visited levels. */
  lemma {:induction false} AllRegionsMembers(ts: seq<int>, contoursAt: int -> seq<Contour>, mean: Rect -> Scalar, r: RegionData)
    ensures r in AllRegions(ts, contoursAt, mean) <==>
      exists j :: 0 <= j < |ts| && r in LevelRegions(contoursAt(ts[j]), mean)
  {
    if ts != [] {
      var init := ts[..|ts| - 1];
      AllRegionsMembers(init, contoursAt, mean, r);
      assert ts == init + [ts[|ts| - 1]];
      SomeLevelSnoc(init, ts[|ts| - 1], contoursAt, mean, r);
    }
  }

  /** A region is in one of the levels `init + [t]` exactly when it is in
      one of the levels `init` or in level `t`. */
  lemma SomeLevelSnoc(init: seq<int>, t: int, contoursAt: int -> seq<Contour>, mean: Rect -> Scalar, r: RegionData)
    ensures var ts := init + [t];
      (exists j :: 0 <= j < |ts| && r in LevelRegions(contoursAt(ts[j]), mean)) <==>
      (exists j :: 0 <= j < |init| && r in LevelRegions(contoursAt(init[j]), mean))
      || r in LevelRegions(contoursAt(t), mean)
  {
    var ts := init + [t];
    if exists j :: 0 <= j < |init| && r in LevelRegions(contoursAt(init[j]), mean) {
      var j :| 0 <= j < |init| && r in LevelRegions(contoursAt(init[j]), mean);
      assert ts[j] == init[j];
    }
    if r in LevelRegions(contoursAt(t), mean) {
      assert ts[|init|] == t;
    }
    if exists j :: 0 <= j < |ts| && r in LevelRegions(contoursAt(ts[j]), mean) {
      var j :| 0 <= j < |ts| && r in LevelRegions(contoursAt(ts[j]), mean);
      if j < |init| {
        assert init[j] == ts[j];
      }
    }
  }

  /** What `extractRegions` promises: at most 20 regions, largest first, each
      one a contour of area at least 50 from one of the six levels with its
      points in order. */
  lemma ExtractRegionsResult(contoursAt: int -> seq<Contour>, mean: Rect -> Scalar)
    ensures var out := ExtractRegionsSpec(contoursAt, mean);
      |out| <= MAX_REGIONS && Sorting.SortedDesc(out, AreaOf)
      && forall k :: 0 <= k < |out| ==> FromSomeLevel(contoursAt, mean, out[k])
  {
    var all := AllRegions(Schedule(FIRST_THRESHOLD), contoursAt, mean);
    var sorted := Sorting.SortDesc(all, AreaOf);
    var out := ExtractRegionsSpec(contoursAt, mean);
    Sorting.SortDescSorted(all, AreaOf);
    Sorting.TakeSorted(sorted, AreaOf, MAX_REGIONS);
    Sorting.SortDescPermutation(all, AreaOf);
    forall k | 0 <= k < |out|
      ensures FromSomeLevel(contoursAt, mean, out[k])
    {
      assert out[k] == sorted[k];
      assert out[k] in multiset(all);
      CandidateFromLevel(contoursAt, mean, out[k]);
    }
  }

  ghost predicate FromSomeLevel(contoursAt: int -> seq<Contour>, mean: Rect -> Scalar, r: RegionData)
  {
    exists t, i :: t in Schedule(FIRST_THRESHOLD) && 0 <= i < |contoursAt(t)|
      && contoursAt(t)[i].area >= MIN_CONTOUR_AREA && r == ContourRegion(contoursAt(t)[i], mean)
  }

  lemma CandidateFromLevel(contoursAt: int -> seq<Contour>, mean: Rect -> Scalar, r: RegionData)
    requires r in AllRegions(Schedule(FIRST_THRESHOLD), contoursAt, mean)
    ensures FromSomeLevel(contoursAt, mean, r)
  {
    var ts := Schedule(FIRST_THRESHOLD);
    AllRegionsMembers(ts, contoursAt, mean, r);
    var j :| 0 <= j < |ts| && r in LevelRegions(contoursAt(ts[j]), mean);
    LevelRegionsMembers(contoursAt(ts[j]), mean, r);
    var i :| 0 <= i < |contoursAt(ts[j])| && contoursAt(ts[j])[i].area >= MIN_CONTOUR_AREA
      && r == ContourRegion(contoursAt(ts[j])[i], mean);
    var t := ts[j];
    assert t in Schedule(FIRST_THRESHOLD);
    assert 0 <= i < |contoursAt(t)| && contoursAt(t)[i].area >= MIN_CONTOUR_AREA
      && r == ContourRegion(contoursAt(t)[i], mean);
  }
}
