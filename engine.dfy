/** DualModeSegmentationEngine: switches between the fast streaming
    segmenter (superpixels) and the precise contour segmenter, keeps the
    last result for two seconds, holds a buffer pool sized to the last
    bitmap, and averages the colour of a square window around a tapped
    point. The clock readings are parameters; the two segmenters' subclass
    steps are input functions. */
module DualModeEngine {
  import opened Common
  import opened Numerics
  import opened Geometry
  import opened Handles
  import opened AndroidColor
  import opened OklabColor
  import opened ColorConverter
  import opened ColorNameMapper
  import opened BufferPools
  import opened BaseSegmenter
  import opened SegmentationResults

  const CACHE_VALIDITY_MS: int := 2000

  /** The segmenter each mode dispatches to. */
  function ModeKind(streaming: bool): (k: SegmenterKind)
    ensures streaming <==> k == StreamingMode
    ensures !streaming <==> k == ContourMode
  {
    if streaming then StreamingMode else ContourMode
  }

  /** A cached result is served while it is younger than two seconds. */
  predicate CacheFresh(cached: Option<SegmentationResult>, timestamp: int, now: int)
  {
    cached.Some? && now - timestamp < CACHE_VALIDITY_MS
  }

  /** A stored result is served for exactly two seconds, and once it is
      stale it stays stale; an empty slot is never served. */
  lemma CacheWindow(r: SegmentationResult, stored: int, now: int, later: int)
    ensures CacheFresh(Some(r), stored, now) <==> now < stored + CACHE_VALIDITY_MS
    ensures now <= later && !CacheFresh(Some(r), stored, now) ==> !CacheFresh(Some(r), stored, later)
    ensures !CacheFresh(None, stored, now)
  {
  }

  // ---------------------------------------------------------------- analyzeColor

  /** `ColorAnalysisResult` */
  datatype ColorAnalysisResult = ColorAnalysisResult(
    rgbColor: int,
    oklabColor: Oklab,
    metricUsed: string,
    accuracy: real)

  /** The running channel totals and pixel count of the window loop. */
  datatype Sums = Sums(r: int, g: int, b: int, count: int)

  /** Totals that a run of ARGB pixels can have: each channel between 0 and
      255 per pixel counted. */
  predicate Bounded(s: Sums)
  {
    0 <= s.count && 0 <= s.r <= 255 * s.count && 0 <= s.g <= 255 * s.count && 0 <= s.b <= 255 * s.count
  }

  predicate Inside(bm: Bitmap, px: int, py: int)
  {
    0 <= px < bm.width && 0 <= py < bm.height
  }

  /** One step of the inner loop: an in-bounds pixel is added, any other
      position is skipped. */
  function Visit(bm: Bitmap, s: Sums, px: int, py: int): Sums
    requires bm.Valid()
    reads bm.pixels
  {
    if Inside(bm, px, py) then
      var pixel := bm.pixels[px, py];
      Sums(s.r + Red(pixel), s.g + Green(pixel), s.b + Blue(pixel), s.count + 1)
    else s
  }

  /** `acc` after the inner loop has visited `dx` from `-radius` up to, not
      including, `dxEnd` in row `y + dy`. */
  function RowFrom(bm: Bitmap, x: int, y: int, radius: int, dy: int, dxEnd: int, acc: Sums): (s: Sums)
    requires bm.Valid()
    reads bm.pixels
    ensures Bounded(acc) ==> Bounded(s)
    decreases dxEnd + radius
  {
    if dxEnd <= -radius then acc
    else Visit(bm, RowFrom(bm, x, y, radius, dy, dxEnd - 1, acc), x + dxEnd - 1, y + dy)
  }

  /** The totals after the outer loop has finished the rows `dy` from
      `-radius` up to, not including, `dyEnd`. */
  function WindowSums(bm: Bitmap, x: int, y: int, radius: int, dyEnd: int): (s: Sums)
    requires bm.Valid()
    reads bm.pixels
    ensures Bounded(s)
    decreases dyEnd + radius
  {
    if dyEnd <= -radius then Sums(0, 0, 0, 0)
    else RowFrom(bm, x, y, radius, dyEnd - 1, radius + 1, WindowSums(bm, x, y, radius, dyEnd - 1))
  }

  /** The totals over the whole `(2 radius + 1)²` window, clipped to the
      bitmap. */
  function Window(bm: Bitmap, x: int, y: int, radius: int): Sums
    requires bm.Valid()
    reads bm.pixels
  {
    WindowSums(bm, x, y, radius, radius + 1)
  }

  /** An integer mean of totals bounded by 255 per pixel is a channel byte. */
  lemma MeanIsByte(total: int, count: int)
    requires 0 < count && 0 <= total <= 255 * count
    ensures IsByte(total / count)
  {
    var q, r := total / count, total % count;
    assert total == q * count + r;
    if q < 0 {
      MulNonneg(-q, count);
      assert false;
    }
    if q > 255 {
      MulNonneg(q - 256, count);
      assert false;
    }
  }

  /** What `analyzeColor(bitmap, x, y, radius)` returns in the given mode:
      null for a point off the bitmap or an empty window, otherwise the
      integer channel means, their OKLAB colour, the metric of the mode and
      the self-distance as accuracy. */
  function ColorAnalysis(m: Maths, bm: Bitmap, x: int, y: int, radius: int, streaming: bool)
    : Option<ColorAnalysisResult>
    requires bm.Valid()
    reads bm.pixels
  {
    if x < 0 || y < 0 || x >= bm.width || y >= bm.height then None
    else
      var s := Window(bm, x, y, radius);
      if s.count == 0 then None
      else
        MeanIsByte(s.r, s.count);
        MeanIsByte(s.g, s.count);
        MeanIsByte(s.b, s.count);
        var r, g, b := s.r / s.count, s.g / s.count, s.b / s.count;
        var c := RgbToOklab(m, r, g, b);
        Some(ColorAnalysisResult(
          Rgb(r, g, b), c,
          if streaming then "OKLAB" else "CIEDE2000",
          if streaming then OklabDistance(m, c, c) else 0.0))
  }

  /** The row loop never loses a pixel already counted, and counts the
      pixel at offset `dx` when it lies on the bitmap. */
  lemma {:induction false} RowCounts(bm: Bitmap, x: int, y: int, radius: int, dy: int, dxEnd: int,
                                     acc: Sums, dx: int)
    requires bm.Valid()
    ensures RowFrom(bm, x, y, radius, dy, dxEnd, acc).count >= acc.count
    ensures -radius <= dx < dxEnd && Inside(bm, x + dx, y + dy) ==>
      RowFrom(bm, x, y, radius, dy, dxEnd, acc).count >= acc.count + 1
    ensures RowFrom(bm, x, y, radius, dy, dxEnd, acc).count <= acc.count + Max(0, dxEnd + radius)
    decreases dxEnd + radius
  {
    if dxEnd > -radius {
      RowCounts(bm, x, y, radius, dy, dxEnd - 1, acc, dx);
    }
  }

  /** Every row contributes at most `2 radius + 1` pixels. */
  lemma {:induction false} WindowCountBound(bm: Bitmap, x: int, y: int, radius: int, dyEnd: int)
    requires bm.Valid() && 0 <= radius && -radius <= dyEnd
    ensures WindowSums(bm, x, y, radius, dyEnd).count <= (dyEnd + radius) * (2 * radius + 1)
    decreases dyEnd + radius
  {
    if dyEnd > -radius {
      var prev := WindowSums(bm, x, y, radius, dyEnd - 1);
      WindowCountBound(bm, x, y, radius, dyEnd - 1);
      RowCounts(bm, x, y, radius, dyEnd - 1, radius + 1, prev, 0);
      var k, w := dyEnd - 1 + radius, 2 * radius + 1;
      assert (k + 1) * w == k * w + w;
    }
  }

  /** The row through the point contributes the point itself. */
  lemma {:induction false} WindowCountsCentre(bm: Bitmap, x: int, y: int, radius: int, dyEnd: int)
    requires bm.Valid() && -radius <= 0 < dyEnd && Inside(bm, x, y)
    ensures WindowSums(bm, x, y, radius, dyEnd).count >= 1
    decreases dyEnd + radius
  {
    var prev := WindowSums(bm, x, y, radius, dyEnd - 1);
    RowCounts(bm, x, y, radius, dyEnd - 1, radius + 1, prev, 0);
    if dyEnd > 1 {
      WindowCountsCentre(bm, x, y, radius, dyEnd - 1);
    }
  }

  /** A row lying wholly on the bitmap adds exactly its width. */
  lemma {:induction false} RowExact(bm: Bitmap, x: int, y: int, radius: int, dy: int, dxEnd: int, acc: Sums)
    requires bm.Valid() && -radius <= dxEnd
    requires 0 <= x - radius && x + dxEnd <= bm.width && 0 <= y + dy < bm.height
    ensures RowFrom(bm, x, y, radius, dy, dxEnd, acc).count == acc.count + dxEnd + radius
    decreases dxEnd + radius
  {
    if dxEnd > -radius {
      RowExact(bm, x, y, radius, dy, dxEnd - 1, acc);
    }
  }

  /** A window lying wholly on the bitmap counts every one of its pixels. */
  lemma {:induction false} WindowExact(bm: Bitmap, x: int, y: int, radius: int, dyEnd: int)
    requires bm.Valid() && 0 <= radius && -radius <= dyEnd <= radius + 1
    requires x - radius >= 0 && y - radius >= 0 && x + radius < bm.width && y + radius < bm.height
    ensures WindowSums(bm, x, y, radius, dyEnd).count == (dyEnd + radius) * (2 * radius + 1)
    decreases dyEnd + radius
  {
    if dyEnd > -radius {
      var prev := WindowSums(bm, x, y, radius, dyEnd - 1);
      WindowExact(bm, x, y, radius, dyEnd - 1);
      RowExact(bm, x, y, radius, dyEnd - 1, radius + 1, prev);
      assert (dyEnd + radius) * (2 * radius + 1) == (dyEnd - 1 + radius) * (2 * radius + 1) + (2 * radius + 1);
    }
  }

  /** All pixels of the window that lie on the bitmap have the channels
      `cr`, `cg`, `cb`. */
  ghost predicate Uniform(bm: Bitmap, x: int, y: int, radius: int, cr: int, cg: int, cb: int)
    requires bm.Valid()
    reads bm.pixels
  {
    forall px, py :: Inside(bm, px, py) && x - radius <= px <= x + radius && y - radius <= py <= y + radius ==>
      Red(bm.pixels[px, py]) == cr && Green(bm.pixels[px, py]) == cg && Blue(bm.pixels[px, py]) == cb
  }

  predicate Proportional(s: Sums, cr: int, cg: int, cb: int)
  {
    s.r == cr * s.count && s.g == cg * s.count && s.b == cb * s.count
  }

  lemma {:induction false} RowUniform(bm: Bitmap, x: int, y: int, radius: int, dy: int, dxEnd: int,
                                      acc: Sums, cr: int, cg: int, cb: int)
    requires bm.Valid() && Uniform(bm, x, y, radius, cr, cg, cb)
    requires -radius <= dy <= radius && dxEnd <= radius + 1 && Proportional(acc, cr, cg, cb)
    ensures Proportional(RowFrom(bm, x, y, radius, dy, dxEnd, acc), cr, cg, cb)
    decreases dxEnd + radius
  {
    if dxEnd > -radius {
      var prev := RowFrom(bm, x, y, radius, dy, dxEnd - 1, acc);
      RowUniform(bm, x, y, radius, dy, dxEnd - 1, acc, cr, cg, cb);
      var px, py := x + dxEnd - 1, y + dy;
      if Inside(bm, px, py) {
        var pixel := bm.pixels[px, py];
        assert Red(pixel) == cr && Green(pixel) == cg && Blue(pixel) == cb;
        ProportionalStep(prev, pixel, cr, cg, cb);
      }
    }
  }

  /** Adding one more pixel of the common colour keeps the totals
      proportional to the count. */
  lemma ProportionalStep(s: Sums, pixel: int, cr: int, cg: int, cb: int)
    requires Proportional(s, cr, cg, cb)
    requires Red(pixel) == cr && Green(pixel) == cg && Blue(pixel) == cb
    ensures Proportional(Sums(s.r + Red(pixel), s.g + Green(pixel), s.b + Blue(pixel), s.count + 1), cr, cg, cb)
  {
    assert cr * (s.count + 1) == cr * s.count + cr;
    assert cg * (s.count + 1) == cg * s.count + cg;
    assert cb * (s.count + 1) == cb * s.count + cb;
  }

  lemma {:induction false} WindowUniform(bm: Bitmap, x: int, y: int, radius: int, dyEnd: int,
                                         cr: int, cg: int, cb: int)
    requires bm.Valid() && Uniform(bm, x, y, radius, cr, cg, cb) && dyEnd <= radius + 1
    ensures Proportional(WindowSums(bm, x, y, radius, dyEnd), cr, cg, cb)
    decreases dyEnd + radius
  {
    if dyEnd > -radius {
      WindowUniform(bm, x, y, radius, dyEnd - 1, cr, cg, cb);
      RowUniform(bm, x, y, radius, dyEnd - 1, radius + 1, WindowSums(bm, x, y, radius, dyEnd - 1), cr, cg, cb);
    }
  }

  /** The window colour analysis: null exactly for a point off the bitmap
      or a negative radius; otherwise the point itself is counted, at most
      `(2 radius + 1)²` pixels are (all of them when the window lies on the
      bitmap), the reported colour is opaque with each channel the integer
      mean of the counted pixels, the metric names the mode and the
      accuracy is 0 in both modes. */
  lemma ColorAnalysisSpec(m: Maths, bm: Bitmap, x: int, y: int, radius: int, streaming: bool)
    requires bm.Valid() && SqrtLaw(m)
    ensures var res := ColorAnalysis(m, bm, x, y, radius, streaming);
      (res.None? <==> !Inside(bm, x, y) || radius < 0)
      && (res.Some? ==>
            var s := Window(bm, x, y, radius);
            1 <= s.count <= (2 * radius + 1) * (2 * radius + 1)
            && (x - radius >= 0 && y - radius >= 0 && x + radius < bm.width && y + radius < bm.height ==>
                  s.count == (2 * radius + 1) * (2 * radius + 1))
            && Alpha(res.value.rgbColor) == 255
            && Red(res.value.rgbColor) == s.r / s.count && IsByte(s.r / s.count)
            && Green(res.value.rgbColor) == s.g / s.count && IsByte(s.g / s.count)
            && Blue(res.value.rgbColor) == s.b / s.count && IsByte(s.b / s.count)
            && res.value.oklabColor == RgbToOklab(m, s.r / s.count, s.g / s.count, s.b / s.count)
            && res.value.metricUsed == (if streaming then "OKLAB" else "CIEDE2000")
            && res.value.accuracy == 0.0)
  {
    var s := Window(bm, x, y, radius);
    if radius < 0 {
      assert s == Sums(0, 0, 0, 0);
    } else {
      WindowCountBound(bm, x, y, radius, radius + 1);
      if Inside(bm, x, y) {
        WindowCountsCentre(bm, x, y, radius, radius + 1);
      }
      if x - radius >= 0 && y - radius >= 0 && x + radius < bm.width && y + radius < bm.height {
        WindowExact(bm, x, y, radius, radius + 1);
      }
    }
    var res := ColorAnalysis(m, bm, x, y, radius, streaming);
    if res.Some? {
      MeanIsByte(s.r, s.count);
      MeanIsByte(s.g, s.count);
      MeanIsByte(s.b, s.count);
      OklabDistanceMetric(m, res.value.oklabColor, res.value.oklabColor);
    }
  }

  /** A window whose pixels on the bitmap all share one colour reports that
      colour. */
  lemma UniformWindowColor(m: Maths, bm: Bitmap, x: int, y: int, radius: int, cr: int, cg: int, cb: int,
                           streaming: bool)
    requires bm.Valid() && Uniform(bm, x, y, radius, cr, cg, cb)
    requires ColorAnalysis(m, bm, x, y, radius, streaming).Some?
    ensures var c := ColorAnalysis(m, bm, x, y, radius, streaming).value.rgbColor;
      Red(c) == cr && Green(c) == cg && Blue(c) == cb
  {
    var s := Window(bm, x, y, radius);
    WindowUniform(bm, x, y, radius, radius + 1, cr, cg, cb);
    assert s.count > 0;
    DivModUnique(s.r, s.count, cr, 0);
    DivModUnique(s.g, s.count, cg, 0);
    DivModUnique(s.b, s.count, cb, 0);
  }

  /** The nested loops of `analyzeColor`: the channel totals and the count
      of the window's pixels that lie on the bitmap. */
  method WindowTotals(bm: Bitmap, x: int, y: int, radius: int) returns (r: int, g: int, b: int, count: int)
    requires bm.Valid()
    ensures Sums(r, g, b, count) == Window(bm, x, y, radius)
  {
    r, g, b, count := 0, 0, 0, 0;
    var dy := -radius;
    while dy <= radius
      invariant -radius <= dy && (0 <= radius ==> dy <= radius + 1) && (radius < 0 ==> dy == -radius)
      invariant Sums(r, g, b, count) == WindowSums(bm, x, y, radius, dy)
      decreases radius + 1 - dy
    {
      ghost var before := Sums(r, g, b, count);
      var dx := -radius;
      while dx <= radius
        invariant -radius <= dx <= radius + 1
        invariant Sums(r, g, b, count) == RowFrom(bm, x, y, radius, dy, dx, before)
        decreases radius + 1 - dx
      {
        var px := x + dx;
        var py := y + dy;
        if px >= 0 && px < bm.width && py >= 0 && py < bm.height {
          var pixel := bm.pixels[px, py];
          r := r + Red(pixel);
          g := g + Green(pixel);
          b := b + Blue(pixel);
          count := count + 1;
        }
        dx := dx + 1;
      }
      dy := dy + 1;
    }
    if radius < 0 {
      assert WindowSums(bm, x, y, radius, dy) == Sums(0, 0, 0, 0) == Window(bm, x, y, radius);
    }
  }

  // ---------------------------------------------------------------- the engine

  class DualModeSegmentationEngine {
    var useStreamingMode: bool
    var cachedResult: Option<SegmentationResult>
    var cacheTimestamp: int
    var bufferPool: BufferPool?

    /** A pool, once made, is within capacity and sized to a real bitmap. */
    predicate Valid()
      reads this, bufferPool
    {
      bufferPool != null ==> bufferPool.Valid() && 0 < bufferPool.width && 0 < bufferPool.height
    }

    /** `new DualModeSegmentationEngine()`: streaming mode, nothing cached,
        no pool yet. */
    constructor ()
      ensures useStreamingMode && cachedResult == None && cacheTimestamp == 0 && bufferPool == null
      ensures Valid()
    {
      useStreamingMode := true;
      cachedResult := None;
      cacheTimestamp := 0;
      bufferPool := null;
    }

    /** `isCacheValid()` at `now`. */
    method IsCacheValid(now: int) returns (valid: bool)
      ensures valid <==> CacheFresh(cachedResult, cacheTimestamp, now)
    {
      if cachedResult.None? {
        return false;
      }
      var age := now - cacheTimestamp;
      return age < CACHE_VALIDITY_MS;
    }

    /** `invalidateCache()` */
    method InvalidateCache()
      modifies this
      ensures cachedResult == None && cacheTimestamp == 0
      ensures useStreamingMode == old(useStreamingMode) && bufferPool == old(bufferPool)
    {
      cachedResult := None;
      cacheTimestamp := 0;
    }

    /** `setMode(streaming)`: the cache is dropped exactly when the mode
        changes. */
    method SetMode(streaming: bool)
      modifies this
      ensures useStreamingMode == streaming && bufferPool == old(bufferPool)
      ensures old(useStreamingMode) != streaming ==> cachedResult == None && cacheTimestamp == 0
      ensures old(useStreamingMode) == streaming ==>
        cachedResult == old(cachedResult) && cacheTimestamp == old(cacheTimestamp)
    {
      if useStreamingMode != streaming {
        InvalidateCache();
      }
      useStreamingMode := streaming;
    }

    /** `initBufferPool(width, height)`: the pool is rebuilt when there is
        none or when the bitmap it hands out has another width; the height is
        not compared. The bitmap taken out for the comparison is not given
        back. */
    method InitBufferPool(width: int, height: int)
      requires Valid() && 0 < width && 0 < height
      modifies this, bufferPool
      modifies if bufferPool == null then [] else bufferPool.matPool
      modifies if bufferPool == null then [] else bufferPool.bitmapPool
      ensures Valid() && bufferPool != null
      ensures useStreamingMode == old(useStreamingMode)
      ensures cachedResult == old(cachedResult) && cacheTimestamp == old(cacheTimestamp)
      ensures old(bufferPool) == null || old(bufferPool.NextBitmapWidth()) != width ==>
        fresh(bufferPool) && bufferPool.width == width && bufferPool.height == height
        && bufferPool.matPool == [] && bufferPool.bitmapPool == []
      ensures old(bufferPool) != null && old(bufferPool.NextBitmapWidth()) == width ==>
        bufferPool == old(bufferPool) && bufferPool.matPool == old(bufferPool.matPool)
        && bufferPool.bitmapPool == (if old(bufferPool.bitmapPool) == [] then [] else old(bufferPool.bitmapPool)[1..])
      ensures old(bufferPool) != null && old(bufferPool.NextBitmapWidth()) != width ==>
        (forall mat :: mat in old(bufferPool.matPool) ==> mat.released)
        && (forall b :: b in old(bufferPool.bitmapPool) && b != old(bufferPool.bitmapPool)[0] ==> b.recycled)
    {
      if bufferPool == null {
        bufferPool := new BufferPool(width, height);
        return;
      }
      var probe := bufferPool.AcquireBitmap();
      assert probe.Ok?;
      if probe.value.width != width {
        bufferPool.Clear();
        bufferPool := new BufferPool(width, height);
      }
    }

    /** `cleanup()`: nothing cached, and the pool, if any, freed and
        dropped. */
    method Cleanup()
      modifies this, bufferPool
      modifies if bufferPool == null then [] else bufferPool.matPool
      modifies if bufferPool == null then [] else bufferPool.bitmapPool
      ensures cachedResult == None && cacheTimestamp == 0 && bufferPool == null && Valid()
      ensures useStreamingMode == old(useStreamingMode)
      ensures old(bufferPool) != null ==>
        (forall mat :: mat in old(bufferPool.matPool) ==> mat.released)
        && (forall b :: b in old(bufferPool.bitmapPool) ==> b.recycled)
    {
      InvalidateCache();
      if bufferPool != null {
        bufferPool.Clear();
        bufferPool := null;
      }
    }

    /** `segment(bitmap)`, with the clock reading `now` at the cache check
        and `stored` when the result is cached. A fresh cached result is
        returned whatever the bitmap; otherwise the segmenter of the mode
        runs on it and its result, if it returns one, is cached. */
    method Segment(m: Maths, b: Bitmap, now: int, stored: int,
                   streamingExtract: Size -> seq<RegionData>, precisionExtract: Size -> seq<RegionData>,
                   palette: map<string, Oklab>, order: seq<string>)
      returns (res: Result<SegmentationResult>)
      requires PowLaws(m) && Enumerates(order, palette) && b.Valid() && Valid()
      modifies this, bufferPool
      modifies if bufferPool == null then [] else bufferPool.matPool
      modifies if bufferPool == null then [] else bufferPool.bitmapPool
      ensures Valid() && useStreamingMode == old(useStreamingMode)
      ensures old(CacheFresh(cachedResult, cacheTimestamp, now)) ==>
        res == Ok(old(cachedResult).value)
        && cachedResult == old(cachedResult) && cacheTimestamp == old(cacheTimestamp)
        && bufferPool == old(bufferPool)
      ensures !old(CacheFresh(cachedResult, cacheTimestamp, now)) ==>
        bufferPool != null
        && AnalysisOf(m, b, ModeKind(useStreamingMode),
                      if useStreamingMode then streamingExtract else precisionExtract, palette, order, res)
        && (res.Ok? ==> cachedResult == Some(res.value) && cacheTimestamp == stored)
        && (res.Failure? ==> cachedResult == old(cachedResult) && cacheTimestamp == old(cacheTimestamp))
    {
      var valid := IsCacheValid(now);
      if valid {
        return Ok(cachedResult.value);
      }
      InitBufferPool(b.width, b.height);
      var kind := ModeKind(useStreamingMode);
      var extract := if useStreamingMode then streamingExtract else precisionExtract;
      res := Analyze(m, b, kind, extract, palette, order);
      if res.Ok? {
        cachedResult := Some(res.value);
        cacheTimestamp := stored;
      }
    }

    /** `analyzeColor(bitmap, x, y, radius)` */
    method AnalyzeColor(m: Maths, bm: Bitmap, x: int, y: int, radius: int)
      returns (res: Option<ColorAnalysisResult>)
      requires bm.Valid()
      ensures res == ColorAnalysis(m, bm, x, y, radius, useStreamingMode)
    {
      if x < 0 || y < 0 || x >= bm.width || y >= bm.height {
        return None;
      }
      var r, g, b, count := WindowTotals(bm, x, y, radius);
      if count == 0 {
        return None;
      }
      MeanIsByte(r, count);
      MeanIsByte(g, count);
      MeanIsByte(b, count);
      r := r / count;
      g := g / count;
      b := b / count;
      var oklabColor := RgbToOklab(m, r, g, b);
      var perceptualAccuracy := if useStreamingMode then OklabDistance(m, oklabColor, oklabColor) else 0.0;
      return Some(ColorAnalysisResult(
        Rgb(r, g, b), oklabColor,
        if useStreamingMode then "OKLAB" else "CIEDE2000",
        perceptualAccuracy));
    }
  }
}
