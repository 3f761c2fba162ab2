/** The streaming-mode segmenter (SlicSegmenter): a 4-level colour
    quantisation of the Lab image, one pass over the connected-component label
    image collecting a bounding box and a pixel count per label, size filters,
    an area sort capped at 40 regions, and the doubling of every box back to
    the size before the 2x downscale. The seeded query (`extractRegionByColor`)
    is a flood fill whose mask and bounding box are inputs. */
module SlicSegmenter {
  import opened Common
  import opened Geometry
  import Sorting

  const PROCESSING_SIZE: int := 480
  const MIN_FILL_AREA: int := 50
  const MIN_COMPONENT_AREA: int := 100
  const MIN_COMPONENT_SIDE: int := 10
  const MAX_REGIONS: nat := 40
  /** `Integer.MAX_VALUE`, the initial `minX`/`minY` of a ComponentStats. */
  const INT_MAX: int := 2147483647
  /** `256 / 4`: the width of one quantisation level. */
  const LEVEL: int := 256 / 4

  /** An unsigned byte, `b & 0xFF`. */
  type Byte = b: int | 0 <= b < 256

  // ------------------------------------------------ extractRegionByColor

  /** `tolerance = 20 + sensitivity * 2`, used as both loDiff and upDiff on
      all three channels. */
  function Tolerance(sensitivity: int): (t: int)
    ensures sensitivity >= 0 ==> t >= 20
  {
    20 + sensitivity * 2
  }

  lemma ToleranceMonotone(s1: int, s2: int)
    requires s1 <= s2
    ensures Tolerance(s1) <= Tolerance(s2)
    ensures Tolerance(s2) - Tolerance(s1) == 2 * (s2 - s1)
  {
  }

  /** What `Imgproc.floodFill` reports: the filled bounding box and the number
      of non-zero pixels of the cropped mask. */
  datatype Fill = Fill(rect: Rect, area: int)

  /** `extractRegionByColor`: no region for a seed outside the image or for a
      fill of fewer than 50 pixels; otherwise the filled box, the fill's pixel
      count, no contour points and the truncated masked mean colour. */
  function ExtractRegionByColor(rows: int, cols: int, x: int, y: int, sensitivity: int,
                                fill: (int, int, int) -> Fill, mean: Rect -> Scalar): (r: Option<RegionData>)
    ensures r.Some? <==> InImage(rows, cols, x, y) && fill(x, y, Tolerance(sensitivity)).area >= MIN_FILL_AREA
    ensures r.Some? ==>
      var f := fill(x, y, Tolerance(sensitivity));
      r.value == RegionData(f.rect, [], f.area, TruncColor(mean(f.rect)))
  {
    if !InImage(rows, cols, x, y) then None
    else
      var f := fill(x, y, Tolerance(sensitivity));
      if f.area < MIN_FILL_AREA then None
      else Some(RegionData(f.rect, [], f.area, TruncColor(mean(f.rect))))
  }

  // ------------------------------------------------------ quantizeColors

  /** `(v / (256 / 4)) * (256 / 4)`: the channel floored to a multiple of 64. */
  function QuantLevel(v: Byte): int { (v / LEVEL) * LEVEL }

  /** `hash = (qL / 4) * 64 + (qa / 4) * 8 + (qb / 4)` */
  function QuantHash(l: Byte, a: Byte, b: Byte): int
  {
    (QuantLevel(l) / 4) * 64 + (QuantLevel(a) / 4) * 8 + QuantLevel(b) / 4
  }

  /** The value written to the 8-bit output image: `(byte) (hash % 256)`,
      read back as unsigned. */
  function QuantByte(l: Byte, a: Byte, b: Byte): int
  {
    QuantHash(l, a, b) % 256
  }

  /** The L channel contributes a multiple of 1024 to the hash and vanishes
      modulo 256, only the parity of a's level survives, so the quantised
      label takes one of eight values and does not depend on L. */
  lemma QuantByteValue(l: Byte, a: Byte, b: Byte)
    ensures QuantByte(l, a, b) == ((a / LEVEL) % 2) * 128 + (b / LEVEL) * 16
    ensures QuantByte(l, a, b) in {0, 16, 32, 48, 128, 144, 160, 176}
  {
    var i, j, k := l / LEVEL, a / LEVEL, b / LEVEL;
    LevelQuarter(l);
    LevelQuarter(a);
    LevelQuarter(b);
    assert QuantHash(l, a, b) == 1024 * i + 128 * j + 16 * k;
    HashModulo(i, j, k);
  }

  /** A quarter of a quantised level is 16 times the level's index 0..3. */
  lemma LevelQuarter(v: Byte)
    ensures 0 <= v / LEVEL < 4 && QuantLevel(v) / 4 == 16 * (v / LEVEL)
  {
    DivModUnique(QuantLevel(v), 4, 16 * (v / LEVEL), 0);
  }

  /** The hash of level indices modulo 256. */
  lemma HashModulo(i: int, j: int, k: int)
    requires 0 <= i < 4 && 0 <= j < 4 && 0 <= k < 4
    ensures (1024 * i + 128 * j + 16 * k) % 256 == (j % 2) * 128 + 16 * k
    ensures (j % 2) * 128 + 16 * k in {0, 16, 32, 48, 128, 144, 160, 176}
  {
    assert j == 2 * (j / 2) + j % 2;
    DivModUnique(1024 * i + 128 * j + 16 * k, 256, 4 * i + j / 2, (j % 2) * 128 + 16 * k);
  }

  lemma QuantByteIgnoresL(l1: Byte, l2: Byte, a: Byte, b: Byte)
    ensures QuantByte(l1, a, b) == QuantByte(l2, a, b)
  {
    QuantByteValue(l1, a, b);
    QuantByteValue(l2, a, b);
  }

  /** `quantizeColors(lab, levels)`: one output byte per Lab pixel (three
      input bytes). The `levels` argument is not used by the source. */
  method QuantizeColors(labData: seq<Byte>, levels: int) returns (outData: seq<int>)
    requires |labData| % 3 == 0
    ensures |outData| == |labData| / 3
    ensures forall k :: 0 <= k < |outData| ==>
      outData[k] == QuantByte(labData[3 * k], labData[3 * k + 1], labData[3 * k + 2])
  {
    var out := new int[|labData| / 3];
    var i := 0;
    while i < |labData|
      invariant 0 <= i <= |labData| && i % 3 == 0
      invariant forall k :: 0 <= k < i / 3 ==>
        out[k] == QuantByte(labData[3 * k], labData[3 * k + 1], labData[3 * k + 2])
    {
      out[i / 3] := QuantByte(labData[i], labData[i + 1], labData[i + 2]);
      i := i + 3;
    }
    outData := out[..];
  }

  // --------------------------------------------- extractConnectedRegions

  /** ComponentStats: bounding box and pixel count of one label. */
  datatype Stats = Stats(minX: int, minY: int, maxX: int, maxY: int, area: int)

  /** A fresh ComponentStats. */
  const EMPTY_STATS: Stats := Stats(INT_MAX, INT_MAX, 0, 0, 0)

  function AddPixel(s: Stats, x: int, y: int): Stats
  {
    Stats(Min(s.minX, x), Min(s.minY, y), Max(s.maxX, x), Max(s.maxY, y), s.area + 1)
  }

  /** One step of the label scan: label 0 is background and skipped. */
  function Tally(st: map<int, Stats>, lbl: int, x: int, y: int): map<int, Stats>
  {
    if lbl == 0 then st
    else st[lbl := AddPixel(if lbl in st then st[lbl] else EMPTY_STATS, x, y)]
  }

  /** The statistics after the first `n` pixels of the row-major label image. */
  function ScanStats(labels: seq<int>, cols: nat, n: nat): map<int, Stats>
    requires n <= |labels| && (cols > 0 || n == 0)
  {
    if n == 0 then map[]
    else Tally(ScanStats(labels, cols, n - 1), labels[n - 1], Col(n - 1, cols), Row(n - 1, cols))
  }

  /** Number of occurrences of `v` in `s`. */
  function Count(s: seq<int>, v: int): nat
  {
    if s == [] then 0 else Count(s[..|s| - 1], v) + (if s[|s| - 1] == v then 1 else 0)
  }

  /** The column of pixel `p` of a row-major image `cols` pixels wide. */
  function Col(p: nat, cols: nat): (x: nat)
    requires cols > 0
    ensures x < cols && x <= p
    decreases p
  {
    if p < cols then p else Col(p - cols, cols)
  }

  /** The row of pixel `p` of a row-major image `cols` pixels wide. */
  function Row(p: nat, cols: nat): (y: nat)
    requires cols > 0
    ensures y <= p
    decreases p
  {
    if p < cols then 0 else Row(p - cols, cols) + 1
  }

  /** Column and row split a pixel index: `p == Row * cols + Col`, so they
      are Java's `p % cols` and `p / cols`. */
  lemma {:induction false} ColRow(p: nat, cols: nat)
    requires cols > 0
    ensures p == Row(p, cols) * cols + Col(p, cols)
    ensures Col(p, cols) == p % cols && Row(p, cols) == p / cols
    decreases p
  {
    if p >= cols {
      ColRow(p - cols, cols);
      assert Row(p, cols) * cols == Row(p - cols, cols) * cols + cols;
    }
    DivModUnique(p, cols, Row(p, cols), Col(p, cols));
  }

  /** Row-major pixel `idx = y * cols + x` has column `x` and row `y`. */
  lemma PixelIndex(y: nat, x: nat, cols: nat)
    requires x < cols
    ensures Col(y * cols + x, cols) == x && Row(y * cols + x, cols) == y
  {
    DivModUnique(y * cols + x, cols, y, x);
    ColRow(y * cols + x, cols);
  }

  lemma PixelInRange(y: nat, x: nat, rows: nat, cols: nat)
    requires y < rows && x < cols
    ensures y * cols + x < rows * cols
  {
    assert y * cols + x < y * cols + cols == (y + 1) * cols;
    assert (y + 1) * cols <= rows * cols;
  }

  /** A label has statistics exactly when it is non-zero and occurs. */
  lemma {:induction false} ScanStatsDomain(labels: seq<int>, cols: nat, n: nat, lbl: int)
    requires n <= |labels| && (cols > 0 || n == 0)
    ensures lbl in ScanStats(labels, cols, n) <==> lbl != 0 && exists p :: 0 <= p < n && labels[p] == lbl
  {
    if n > 0 {
      ScanStatsDomain(labels, cols, n - 1, lbl);
    }
  }

  /** The area of a label is its pixel count. */
  lemma {:induction false} ScanStatsArea(labels: seq<int>, cols: nat, n: nat, lbl: int)
    requires n <= |labels| && (cols > 0 || n == 0)
    requires lbl in ScanStats(labels, cols, n)
    ensures ScanStats(labels, cols, n)[lbl].area == Count(labels[..n], lbl)
  {
    var q := n - 1;
    assert labels[..n][..q] == labels[..q];
    assert labels[..n][q] == labels[q];
    assert Count(labels[..n], lbl) == Count(labels[..q], lbl) + (if labels[q] == lbl then 1 else 0);
    var prev := ScanStats(labels, cols, q);
    var st := ScanStats(labels, cols, n);
    assert st == Tally(prev, labels[q], Col(q, cols), Row(q, cols));
    if lbl in prev {
      ScanStatsArea(labels, cols, q, lbl);
      ScanStatsDomain(labels, cols, q, lbl);
    } else {
      ScanStatsDomain(labels, cols, q, lbl);
      CountAbsent(labels[..q], lbl);
    }
  }

  lemma {:induction false} CountAbsent(s: seq<int>, v: int)
    requires forall p :: 0 <= p < |s| ==> s[p] != v
    ensures Count(s, v) == 0
  {
    if s != [] {
      CountAbsent(s[..|s| - 1], v);
    }
  }

  /** Every pixel of a label lies inside its box. */
  ghost predicate BoxCovers(labels: seq<int>, cols: nat, n: nat, lbl: int, s: Stats)
    requires n <= |labels| && cols > 0
  {
    forall p :: 0 <= p < n && labels[p] == lbl ==>
      s.minX <= Col(p, cols) <= s.maxX && s.minY <= Row(p, cols) <= s.maxY
  }

  /** Every side of the box is touched by a pixel of the label. */
  ghost predicate BoxTouched(labels: seq<int>, cols: nat, n: nat, lbl: int, s: Stats)
    requires n <= |labels| && cols > 0
  {
    (exists p :: 0 <= p < n && labels[p] == lbl && Col(p, cols) == s.minX)
    && (exists p :: 0 <= p < n && labels[p] == lbl && Col(p, cols) == s.maxX)
    && (exists p :: 0 <= p < n && labels[p] == lbl && Row(p, cols) == s.minY)
    && (exists p :: 0 <= p < n && labels[p] == lbl && Row(p, cols) == s.maxY)
  }

  /** The box is the tight bounding box of the label's pixels. */
  ghost predicate TightBox(labels: seq<int>, cols: nat, n: nat, lbl: int, s: Stats)
    requires n <= |labels| && cols > 0
  {
    BoxCovers(labels, cols, n, lbl, s) && BoxTouched(labels, cols, n, lbl, s)
  }

  lemma {:induction false} ScanStatsCovers(labels: seq<int>, cols: nat, n: nat, lbl: int)
    requires n <= |labels| && cols > 0
    requires |labels| <= INT_MAX
    requires lbl in ScanStats(labels, cols, n)
    ensures BoxCovers(labels, cols, n, lbl, ScanStats(labels, cols, n)[lbl])
  {
    var q := n - 1;
    var prev := ScanStats(labels, cols, q);
    var s := ScanStats(labels, cols, n)[lbl];
    if lbl in prev {
      ScanStatsCovers(labels, cols, q, lbl);
      ScanStatsDomain(labels, cols, q, lbl);
      var t := prev[lbl];
      assert s == if labels[q] == lbl then AddPixel(t, Col(q, cols), Row(q, cols)) else t;
      forall p | 0 <= p < n && labels[p] == lbl
        ensures s.minX <= Col(p, cols) <= s.maxX && s.minY <= Row(p, cols) <= s.maxY
      {
        if p < q {
          assert t.minX <= Col(p, cols) <= t.maxX && t.minY <= Row(p, cols) <= t.maxY;
        }
      }
    } else {
      ScanStatsDomain(labels, cols, q, lbl);
      assert labels[q] == lbl;
      assert s == AddPixel(EMPTY_STATS, Col(q, cols), Row(q, cols));
      forall p | 0 <= p < n && labels[p] == lbl
        ensures s.minX <= Col(p, cols) <= s.maxX && s.minY <= Row(p, cols) <= s.maxY
      {
        assert p == q;
      }
    }
  }

  /** Adding a pixel keeps each side touched: by the new pixel when it moves
      that side, by the earlier witness otherwise. */
  lemma TouchedStep(labels: seq<int>, cols: nat, n: nat, lbl: int, t: Stats)
    requires 0 < n <= |labels| && cols > 0 && labels[n - 1] == lbl
    requires BoxTouched(labels, cols, n - 1, lbl, t)
    ensures BoxTouched(labels, cols, n, lbl, AddPixel(t, Col(n - 1, cols), Row(n - 1, cols)))
  {
    var q := n - 1;
    var s := AddPixel(t, Col(q, cols), Row(q, cols));
    if s.minX != Col(q, cols) {
      var p :| 0 <= p < q && labels[p] == lbl && Col(p, cols) == t.minX;
      assert Col(p, cols) == s.minX;
    }
    if s.maxX != Col(q, cols) {
      var p :| 0 <= p < q && labels[p] == lbl && Col(p, cols) == t.maxX;
      assert Col(p, cols) == s.maxX;
    }
    if s.minY != Row(q, cols) {
      var p :| 0 <= p < q && labels[p] == lbl && Row(p, cols) == t.minY;
      assert Row(p, cols) == s.minY;
    }
    if s.maxY != Row(q, cols) {
      var p :| 0 <= p < q && labels[p] == lbl && Row(p, cols) == t.maxY;
      assert Row(p, cols) == s.maxY;
    }
  }

  lemma {:induction false} ScanStatsTouched(labels: seq<int>, cols: nat, n: nat, lbl: int)
    requires n <= |labels| && cols > 0
    requires |labels| <= INT_MAX
    requires lbl in ScanStats(labels, cols, n)
    ensures BoxTouched(labels, cols, n, lbl, ScanStats(labels, cols, n)[lbl])
  {
    var q := n - 1;
    var prev := ScanStats(labels, cols, q);
    if labels[q] != lbl {
      ScanStatsTouched(labels, cols, q, lbl);
      BoxTouchedExtend(labels, cols, q, lbl, prev[lbl]);
    } else if lbl in prev {
      ScanStatsTouched(labels, cols, q, lbl);
      TouchedStep(labels, cols, n, lbl, prev[lbl]);
    } else {
      ScanStatsDomain(labels, cols, q, lbl);
      var s := ScanStats(labels, cols, n)[lbl];
      assert s == Stats(Col(q, cols), Row(q, cols), Col(q, cols), Row(q, cols), 1);
      assert labels[q] == lbl && Col(q, cols) == s.minX && Row(q, cols) == s.minY;
    }
  }

  lemma BoxTouchedExtend(labels: seq<int>, cols: nat, n: nat, lbl: int, s: Stats)
    requires n < |labels| && cols > 0
    requires BoxTouched(labels, cols, n, lbl, s)
    ensures BoxTouched(labels, cols, n + 1, lbl, s)
  {
    var p1 :| 0 <= p1 < n && labels[p1] == lbl && Col(p1, cols) == s.minX;
    var p2 :| 0 <= p2 < n && labels[p2] == lbl && Col(p2, cols) == s.maxX;
    var p3 :| 0 <= p3 < n && labels[p3] == lbl && Row(p3, cols) == s.minY;
    var p4 :| 0 <= p4 < n && labels[p4] == lbl && Row(p4, cols) == s.maxY;
    assert p1 < n + 1 && p2 < n + 1 && p3 < n + 1 && p4 < n + 1;
  }

  /** `stats.area >= 100` and both box sides at least 10. */
  predicate KeepStats(s: Stats)
  {
    s.area >= MIN_COMPONENT_AREA
    && s.maxX - s.minX + 1 >= MIN_COMPONENT_SIDE
    && s.maxY - s.minY + 1 >= MIN_COMPONENT_SIDE
  }

  function StatsRect(s: Stats): Rect
  {
    Rect(s.minX, s.minY, s.maxX - s.minX + 1, s.maxY - s.minY + 1)
  }

  /** The RegionData built for a kept component. */
  function StatsRegion(s: Stats, mean: Rect -> Scalar): RegionData
  {
    RegionData(StatsRect(s), [], s.area, TruncColor(mean(StatsRect(s))))
  }

  /** The kept components of labels 1..n-1, in ascending label order (the
      iteration order of the HashMap over dense small Integer keys). */
  function Components(st: map<int, Stats>, n: int, mean: Rect -> Scalar): seq<RegionData>
    decreases n
  {
    if n <= 1 then []
    else Components(st, n - 1, mean)
         + (if n - 1 in st && KeepStats(st[n - 1]) then [StatsRegion(st[n - 1], mean)] else [])
  }

  /** What `connectedComponents` guarantees of the label image it returns
      together with `numLabels`: every label lies in [0, numLabels). */
  predicate LabelsInRange(labels: seq<int>, numLabels: int)
  {
    forall p :: 0 <= p < |labels| ==> 0 <= labels[p] < numLabels
  }

  /** `extractConnectedRegions(img, labels, numLabels)` */
  function ConnectedRegions(labels: seq<int>, cols: nat, numLabels: int, mean: Rect -> Scalar): seq<RegionData>
    requires cols > 0 || |labels| == 0
    requires LabelsInRange(labels, numLabels)
  {
    var st := ScanStats(labels, cols, |labels|);
    Sorting.Take(Sorting.SortDesc(Components(st, numLabels, mean), AreaOf), MAX_REGIONS)
  }

  lemma {:induction false} ComponentsMembers(st: map<int, Stats>, n: int, mean: Rect -> Scalar, r: RegionData)
    ensures r in Components(st, n, mean) <==>
      exists lbl :: 1 <= lbl < n && lbl in st && KeepStats(st[lbl]) && r == StatsRegion(st[lbl], mean)
    decreases n
  {
    if n > 1 {
      ComponentsMembers(st, n - 1, mean, r);
    }
  }

  /** The labels of `[1, n)` whose statistics pass the size filters. */
  function KeptBelow(st: map<int, Stats>, n: int): set<int>
  {
    set lbl | lbl in st && 1 <= lbl < n && KeepStats(st[lbl])
  }

  /** One region per kept label: the visit of labels `1..n-1` adds exactly
      as many regions as there are kept labels among them. */
  lemma {:induction false} ComponentsLength(st: map<int, Stats>, n: int, mean: Rect -> Scalar)
    ensures |Components(st, n, mean)| == |KeptBelow(st, n)|
    decreases n
  {
    if n <= 1 {
      assert KeptBelow(st, n) == {};
    } else {
      ComponentsLength(st, n - 1, mean);
      if n - 1 in st && KeepStats(st[n - 1]) {
        assert KeptBelow(st, n) == KeptBelow(st, n - 1) + {n - 1};
      } else {
        assert KeptBelow(st, n) == KeptBelow(st, n - 1);
      }
    }
  }

  /** With the labels in [0, numLabels), the labels visited are all the
      entries of the statistics map, as in the loop over `statsMap.entrySet()`:
      a region is produced exactly for each entry that passes the size
      filters, and one region per such entry. */
  lemma ComponentsAreEntries(labels: seq<int>, cols: nat, numLabels: int, mean: Rect -> Scalar)
    requires cols > 0 || |labels| == 0
    requires LabelsInRange(labels, numLabels)
    ensures var st := ScanStats(labels, cols, |labels|);
      var comps := Components(st, numLabels, mean);
      (forall r :: r in comps <==> exists lbl :: lbl in st && KeepStats(st[lbl]) && r == StatsRegion(st[lbl], mean))
      && |comps| == |set lbl | lbl in st && KeepStats(st[lbl])|
  {
    var st := ScanStats(labels, cols, |labels|);
    forall lbl | lbl in st
      ensures 1 <= lbl < numLabels
    {
      ScanStatsDomain(labels, cols, |labels|, lbl);
    }
    forall r
      ensures r in Components(st, numLabels, mean)
        <==> exists lbl :: lbl in st && KeepStats(st[lbl]) && r == StatsRegion(st[lbl], mean)
    {
      ComponentsMembers(st, numLabels, mean, r);
    }
    ComponentsLength(st, numLabels, mean);
    assert KeptBelow(st, numLabels) == set lbl | lbl in st && KeepStats(st[lbl]);
  }

  /** One row of the label scan (the inner loop over x). */
  method ScanRow(labels: seq<int>, rows: nat, cols: nat, y: nat, statsIn: map<int, Stats>)
    returns (statsMap: map<int, Stats>)
    requires |labels| == rows * cols && y < rows
    requires statsIn == ScanStats(labels, cols, y * cols)
    ensures y * cols + cols <= |labels|
    ensures statsMap == ScanStats(labels, cols, y * cols + cols)
  {
    statsMap := statsIn;
    ghost var base := y * cols;
    if cols > 0 {
      PixelInRange(y, cols - 1, rows, cols);
    } else {
      assert base == 0;
    }
    var x := 0;
    while x < cols
      invariant 0 <= x <= cols
      invariant base + cols <= |labels| && (cols > 0 || base == 0)
      invariant statsMap == ScanStats(labels, cols, base + x)
    {
      var idx := y * cols + x;
      PixelInRange(y, x, rows, cols);
      PixelIndex(y, x, cols);
      assert idx == base + x < |labels|;
      assert ScanStats(labels, cols, idx + 1) == Tally(ScanStats(labels, cols, idx), labels[idx], x, y);
      var lbl := labels[idx];
      if lbl != 0 {
        var stats := if lbl in statsMap then statsMap[lbl] else EMPTY_STATS;
        statsMap := statsMap[lbl := AddPixel(stats, x, y)];
      }
      x := x + 1;
    }
  }

  /** The label scan: the stats of every non-zero label of the image. */
  method ScanLabels(labels: seq<int>, rows: nat, cols: nat) returns (statsMap: map<int, Stats>)
    requires |labels| == rows * cols
    ensures cols > 0 || |labels| == 0
    ensures statsMap == ScanStats(labels, cols, |labels|)
  {
    statsMap := map[];
    var y := 0;
    while y < rows
      invariant 0 <= y <= rows
      invariant y * cols <= |labels|
      invariant statsMap == ScanStats(labels, cols, y * cols)
    {
      statsMap := ScanRow(labels, rows, cols, y, statsMap);
      assert y * cols + cols == (y + 1) * cols;
      y := y + 1;
    }
  }

  /** The loop over the stats entries: the size filters and the regions. */
  method CollectComponents(statsMap: map<int, Stats>, numLabels: int, mean: Rect -> Scalar)
    returns (regions: seq<RegionData>)
    ensures regions == Components(statsMap, numLabels, mean)
  {
    regions := [];
    if numLabels <= 1 {
      return;
    }
    var lbl := 1;
    while lbl < numLabels
      invariant 1 <= lbl <= numLabels
      invariant regions == Components(statsMap, lbl, mean)
    {
      if lbl in statsMap {
        var stats := statsMap[lbl];
        if stats.area >= MIN_COMPONENT_AREA {
          var width := stats.maxX - stats.minX + 1;
          var height := stats.maxY - stats.minY + 1;
          if width >= MIN_COMPONENT_SIDE && height >= MIN_COMPONENT_SIDE {
            var rect := Rect(stats.minX, stats.minY, width, height);
            regions := regions + [RegionData(rect, [], stats.area, TruncColor(mean(rect)))];
          }
        }
      }
      lbl := lbl + 1;
    }
  }

  /** `extractConnectedRegions`: the label scan, the filters, the stable
      area sort and the cap at 40. */
  method ExtractConnectedRegions(labels: seq<int>, rows: nat, cols: nat, numLabels: int, mean: Rect -> Scalar)
    returns (regions: seq<RegionData>)
    requires |labels| == rows * cols
    requires LabelsInRange(labels, numLabels)
    ensures cols > 0 || |labels| == 0
    ensures regions == ConnectedRegions(labels, cols, numLabels, mean)
  {
    var statsMap := ScanLabels(labels, rows, cols);
    var all := CollectComponents(statsMap, numLabels, mean);
    regions := Sorting.SortDesc(all, AreaOf);
    if |regions| > MAX_REGIONS {
      regions := regions[..MAX_REGIONS];
    }
  }

  /** Region `r` is the box and pixel count of `lbl`, a kept label that
      occurs in the image, and the box is tight. */
  ghost predicate FromLabel(labels: seq<int>, cols: nat, lbl: int, mean: Rect -> Scalar, r: RegionData)
    requires cols > 0
  {
    var st := ScanStats(labels, cols, |labels|);
    lbl != 0 && (exists p :: 0 <= p < |labels| && labels[p] == lbl)
    && lbl in st && KeepStats(st[lbl]) && r == StatsRegion(st[lbl], mean)
    && st[lbl].area == Count(labels, lbl) && TightBox(labels, cols, |labels|, lbl, st[lbl])
  }

  lemma LabelFacts(labels: seq<int>, cols: nat, lbl: int, mean: Rect -> Scalar)
    requires cols > 0
    requires |labels| <= INT_MAX
    requires var st := ScanStats(labels, cols, |labels|); lbl in st && KeepStats(st[lbl])
    ensures FromLabel(labels, cols, lbl, mean, StatsRegion(ScanStats(labels, cols, |labels|)[lbl], mean))
  {
    ScanStatsDomain(labels, cols, |labels|, lbl);
    ScanStatsArea(labels, cols, |labels|, lbl);
    assert labels[..|labels|] == labels;
    ScanStatsCovers(labels, cols, |labels|, lbl);
    ScanStatsTouched(labels, cols, |labels|, lbl);
  }

  /** Every candidate region comes from a kept label. */
  lemma CandidateFromLabel(labels: seq<int>, cols: nat, numLabels: int, mean: Rect -> Scalar, r: RegionData)
    requires cols > 0
    requires |labels| <= INT_MAX
    requires r in Sorting.SortDesc(Components(ScanStats(labels, cols, |labels|), numLabels, mean), AreaOf)
    ensures FromSomeLabel(labels, cols, numLabels, mean, r)
  {
    var st := ScanStats(labels, cols, |labels|);
    var all := Components(st, numLabels, mean);
    Sorting.SortDescPermutation(all, AreaOf);
    assert r in multiset(all);
    ComponentsMembers(st, numLabels, mean, r);
    var lbl :| 1 <= lbl < numLabels && lbl in st && KeepStats(st[lbl]) && r == StatsRegion(st[lbl], mean);
    LabelFacts(labels, cols, lbl, mean);
  }

  ghost predicate FromSomeLabel(labels: seq<int>, cols: nat, numLabels: int, mean: Rect -> Scalar, r: RegionData)
    requires cols > 0
  {
    exists lbl :: 1 <= lbl < numLabels && FromLabel(labels, cols, lbl, mean, r)
  }

  ghost predicate AllFromLabels(labels: seq<int>, cols: nat, numLabels: int, mean: Rect -> Scalar, out: seq<RegionData>)
    requires cols > 0
  {
    forall k :: 0 <= k < |out| ==> FromSomeLabel(labels, cols, numLabels, mean, out[k])
  }

  /** What `extractConnectedRegions` promises: at most 40 regions, largest
      first, and each is the tight box and pixel count of a non-background
      label of [1, numLabels) that passed the size filters. */
  lemma ConnectedRegionsSpec(labels: seq<int>, cols: nat, numLabels: int, mean: Rect -> Scalar)
    requires cols > 0
    requires |labels| <= INT_MAX
    requires LabelsInRange(labels, numLabels)
    ensures var out := ConnectedRegions(labels, cols, numLabels, mean);
      |out| <= MAX_REGIONS && Sorting.SortedDesc(out, AreaOf)
      && AllFromLabels(labels, cols, numLabels, mean, out)
  {
    var st := ScanStats(labels, cols, |labels|);
    var all := Components(st, numLabels, mean);
    var sorted := Sorting.SortDesc(all, AreaOf);
    var out := ConnectedRegions(labels, cols, numLabels, mean);
    assert out == Sorting.Take(sorted, MAX_REGIONS);
    Sorting.SortDescSorted(all, AreaOf);
    Sorting.TakeSorted(sorted, AreaOf, MAX_REGIONS);
    forall k | 0 <= k < |out|
      ensures FromSomeLabel(labels, cols, numLabels, mean, out[k])
    {
      assert out[k] == sorted[k];
      CandidateFromLabel(labels, cols, numLabels, mean, out[k]);
    }
  }

  /** A non-background label that occurs lies in [1, numLabels). */
  lemma OccurringLabelInRange(labels: seq<int>, numLabels: int, lbl: int)
    requires lbl != 0 && LabelsInRange(labels, numLabels)
    requires exists p :: 0 <= p < |labels| && labels[p] == lbl
    ensures 1 <= lbl < numLabels
  {
  }

  /** Conversely, every non-background label that occurs and passes the
      size filters yields a candidate region (before the cap). */
  lemma ComponentsComplete(labels: seq<int>, cols: nat, numLabels: int, mean: Rect -> Scalar, lbl: int)
    requires cols > 0 && lbl != 0
    requires LabelsInRange(labels, numLabels)
    requires exists p :: 0 <= p < |labels| && labels[p] == lbl
    ensures var st := ScanStats(labels, cols, |labels|);
      lbl in st
      && (KeepStats(st[lbl]) <==> StatsRegion(st[lbl], mean) in Sorting.SortDesc(Components(st, numLabels, mean), AreaOf))
  {
    var st := ScanStats(labels, cols, |labels|);
    var all := Components(st, numLabels, mean);
    OccurringLabelInRange(labels, numLabels, lbl);
    ScanStatsDomain(labels, cols, |labels|, lbl);
    Sorting.SortDescPermutation(all, AreaOf);
    ComponentsMembers(st, numLabels, mean, StatsRegion(st[lbl], mean));
    if StatsRegion(st[lbl], mean) in multiset(all) {
      var l2 :| 1 <= l2 < numLabels && l2 in st && KeepStats(st[l2]) && StatsRegion(st[lbl], mean) == StatsRegion(st[l2], mean);
      assert StatsRect(st[lbl]) == StatsRect(st[l2]);
      assert st[lbl] == st[l2];
    }
  }

  // -------------------------------------------------------- extractRegions

  /** `Size(img.cols() / 2, img.rows() / 2)` of the downscale. */
  function DownscaledSize(cols: nat, rows: nat): (wh: (nat, nat))
    ensures 2 * wh.0 <= cols < 2 * wh.0 + 2 && 2 * wh.1 <= rows < 2 * wh.1 + 2
  {
    (cols / 2, rows / 2)
  }

  function Doubled(r: RegionData): RegionData
  {
    r.(bounds := Rect(r.bounds.x * 2, r.bounds.y * 2, r.bounds.width * 2, r.bounds.height * 2))
  }

  /** The loop of `extractRegions` that doubles every box in place. */
  method DoubleBounds(regions: seq<RegionData>) returns (out: seq<RegionData>)
    ensures |out| == |regions|
    ensures forall k :: 0 <= k < |out| ==>
      out[k].bounds == Rect(2 * regions[k].bounds.x, 2 * regions[k].bounds.y,
                            2 * regions[k].bounds.width, 2 * regions[k].bounds.height)
      && out[k].area == regions[k].area && out[k].color == regions[k].color
      && out[k].contourPoints == regions[k].contourPoints
  {
    out := [];
    for k := 0 to |regions|
      invariant |out| == k
      invariant forall i :: 0 <= i < k ==> out[i] == Doubled(regions[i])
    {
      out := out + [Doubled(regions[k])];
    }
  }

  /** `extractRegions` on the downscaled label image: the component regions
      with every box coordinate doubled. */
  method ExtractRegions(labels: seq<int>, rows: nat, cols: nat, numLabels: int, mean: Rect -> Scalar)
    returns (regions: seq<RegionData>)
    requires |labels| == rows * cols
    requires LabelsInRange(labels, numLabels)
    ensures cols > 0 || |labels| == 0
    ensures regions == DoubledAll(ConnectedRegions(labels, cols, numLabels, mean))
  {
    var found := ExtractConnectedRegions(labels, rows, cols, numLabels, mean);
    regions := DoubleBounds(found);
    assert regions == DoubledAll(found);
  }

  function DoubledAll(rs: seq<RegionData>): (out: seq<RegionData>)
    ensures |out| == |rs| && forall k :: 0 <= k < |rs| ==> out[k] == Doubled(rs[k])
  {
    if rs == [] then [] else DoubledAll(rs[..|rs| - 1]) + [Doubled(rs[|rs| - 1])]
  }

  /** Doubling keeps the order by area, the length, and scales the sides. */
  lemma DoubledKeeps(found: seq<RegionData>)
    requires Sorting.SortedDesc(found, AreaOf)
    requires forall k :: 0 <= k < |found| ==>
      found[k].area >= MIN_COMPONENT_AREA
      && found[k].bounds.width >= MIN_COMPONENT_SIDE && found[k].bounds.height >= MIN_COMPONENT_SIDE
    ensures var out := DoubledAll(found);
      |out| == |found| && Sorting.SortedDesc(out, AreaOf)
      && forall k :: 0 <= k < |out| ==>
           out[k].area >= MIN_COMPONENT_AREA
           && out[k].bounds.width >= 2 * MIN_COMPONENT_SIDE && out[k].bounds.height >= 2 * MIN_COMPONENT_SIDE
           && out[k].bounds.x % 2 == 0 && out[k].bounds.y % 2 == 0
  {
  }

  lemma FromLabelShape(labels: seq<int>, cols: nat, numLabels: int, mean: Rect -> Scalar, r: RegionData)
    requires cols > 0
    requires FromSomeLabel(labels, cols, numLabels, mean, r)
    ensures r.area >= MIN_COMPONENT_AREA
    ensures r.bounds.width >= MIN_COMPONENT_SIDE && r.bounds.height >= MIN_COMPONENT_SIDE
  {
    var lbl :| 1 <= lbl < numLabels && FromLabel(labels, cols, lbl, mean, r);
  }

  /** After the doubling the output is still largest first and capped at 40,
      and every box has even coordinates and sides of at least 20. */
  lemma ExtractRegionsSpec(labels: seq<int>, cols: nat, numLabels: int, mean: Rect -> Scalar)
    requires cols > 0
    requires |labels| <= INT_MAX
    requires LabelsInRange(labels, numLabels)
    ensures var out := DoubledAll(ConnectedRegions(labels, cols, numLabels, mean));
      |out| <= MAX_REGIONS && Sorting.SortedDesc(out, AreaOf)
      && forall k :: 0 <= k < |out| ==>
           out[k].area >= MIN_COMPONENT_AREA
           && out[k].bounds.width >= 2 * MIN_COMPONENT_SIDE && out[k].bounds.height >= 2 * MIN_COMPONENT_SIDE
           && out[k].bounds.x % 2 == 0 && out[k].bounds.y % 2 == 0
  {
    var found := ConnectedRegions(labels, cols, numLabels, mean);
    ConnectedRegionsSpec(labels, cols, numLabels, mean);
    forall k | 0 <= k < |found|
      ensures found[k].area >= MIN_COMPONENT_AREA
      ensures found[k].bounds.width >= MIN_COMPONENT_SIDE && found[k].bounds.height >= MIN_COMPONENT_SIDE
    {
      FromLabelShape(labels, cols, numLabels, mean, found[k]);
    }
    DoubledKeeps(found);
  }
}
