/** BaseSegmenter: the pipeline every segmenter shares. The bitmap is shrunk
    so that its longer side is at most the segmenter's processing size, the
    subclass finds regions in the small image, and every region's box and
    contour points are scaled back by `original / small` into bitmap
    coordinates; the segment's dominant colour is the bitmap pixel at the
    centre of the scaled box, named by the palette. The subclass step
    (`extractRegions`, `extractRegionByColor`) is an input function over the
    size of the small image. */
module BaseSegmenter {
  import opened Common
  import opened Numerics
  import opened Geometry
  import opened Handles
  import opened AndroidColor
  import CI = ColorInfo
  import opened OklabColor
  import opened ColorNameMapper
  import opened ImageSegments
  import opened SegmentationResults

  /** The three concrete segmenters. */
  datatype SegmenterKind = BoxMode | ContourMode | StreamingMode

  /** `getProcessingSize()`: Box and Slic override the default of 200. */
  function ProcessingSize(k: SegmenterKind): (n: int)
    ensures n > 0
  {
    match k
    case BoxMode => 400
    case ContourMode => 200
    case StreamingMode => 480
  }

  /** `usesContours()`: only the contour segmenter keeps contour points. */
  predicate UsesContours(k: SegmenterKind)
  {
    k == ContourMode
  }

  // ------------------------------------------------------------ resizeImage

  /** The size of the processed image, `img.cols()` by `img.rows()`. */
  datatype Size = Size(cols: int, rows: int)

  /** The size `resizeImage` produces: the bitmap itself when its longer
      side fits, otherwise both sides times `maxSize / longer`, truncated;
      `createScaledBitmap` refuses a side truncated to zero. */
  function ResizedSize(w: int, h: int, maxSize: int): Result<Size>
    requires 0 < w && 0 < h
  {
    if Max(w, h) > maxSize then
      var scale := maxSize as real / Max(w, h) as real;
      var nw := Trunc(Prod(w as real, scale));
      var nh := Trunc(Prod(h as real, scale));
      if nw <= 0 || nh <= 0 then Failure("width and height must be > 0")
      else Ok(Size(nw, nh))
    else Ok(Size(w, h))
  }

  /** A side `s` scaled by `k / n` truncates to at most `k` when `s <= n`,
      to exactly `k` when `s == n`, and to zero exactly when `s * k < n`. */
  lemma ScaledSide(s: int, k: int, n: int)
    requires 0 < s <= n && 0 < k < n
    ensures var t := Trunc(Prod(s as real, k as real / n as real));
      0 <= t <= s && t <= k && (s == n ==> t == k) && (t == 0 <==> s * k < n)
  {
    var q := k as real / n as real;
    var p := Prod(s as real, q);
    assert Prod(n as real, q) == k as real;
    ProdMonotone(q, s as real, n as real);
    ProdCommutes(q, s as real);
    ProdCommutes(q, n as real);
    ProdMonotone(s as real, q, 1.0);
    ProdNonneg(s as real, q);
    assert Prod(p, n as real) == (s * k) as real by {
      assert p * n as real == s as real * (q * n as real);
    }
    if s == n {
      TruncOfInt(k);
    }
    if s * k < n {
      assert p < 1.0 by {
        if p >= 1.0 {
          ProdMonotone(n as real, 1.0, p);
          ProdCommutes(n as real, p);
        }
      }
    } else {
      assert p >= 1.0 by {
        if p < 1.0 {
          ProdStrict(n as real, p, 1.0);
          ProdCommutes(n as real, p);
        }
      }
    }
  }

  /** The resize never grows a side, leaves a fitting bitmap alone, brings
      the longer side to exactly `maxSize`, and fails exactly when the
      shorter side would truncate to zero. */
  lemma ResizedSizeSpec(w: int, h: int, maxSize: int)
    requires 0 < w && 0 < h && 0 < maxSize
    ensures Max(w, h) <= maxSize ==> ResizedSize(w, h, maxSize) == Ok(Size(w, h))
    ensures ResizedSize(w, h, maxSize).Failure? <==> Max(w, h) > maxSize && Min(w, h) * maxSize < Max(w, h)
    ensures ResizedSize(w, h, maxSize).Ok? ==>
      var sz := ResizedSize(w, h, maxSize).value;
      0 < sz.cols <= w && 0 < sz.rows <= h && Max(sz.cols, sz.rows) <= maxSize
      && (Max(w, h) > maxSize ==> Max(sz.cols, sz.rows) == maxSize)
  {
    var n := Max(w, h);
    if n > maxSize {
      ScaledSide(w, maxSize, n);
      ScaledSide(h, maxSize, n);
    }
  }

  // ---------------------------------------------------- coordinate mapping

  /** `scaleX`, `scaleY`: original over processed size, as floats. */
  function Scale(original: int, processed: int): real
    requires processed > 0
  {
    original as real / processed as real
  }

  /** `(int) (x / scaleX)`: a click in bitmap coordinates mapped into the
      processed image. */
  function SeedOf(x: int, scale: real): int
    requires scale != 0.0
  {
    Trunc(x as real / scale)
  }

  /** A click inside the bitmap maps to a seed inside the processed image. */
  lemma SeedInside(x: int, original: int, processed: int)
    requires 0 < processed <= original && 0 <= x < original
    ensures 0 <= SeedOf(x, Scale(original, processed)) < processed
  {
    var s := Scale(original, processed);
    var v := x as real / s;
    assert Prod(v, s) == x as real;
    assert Prod(processed as real, s) == original as real;
    QuotNonneg(x as real, s);
    if v >= processed as real {
      ProdMonotone(s, processed as real, v);
      ProdCommutes(s, processed as real);
      ProdCommutes(s, v);
    }
  }

  /** `(int) (v * scale)`: a coordinate of the processed image mapped back. */
  function Unscale(v: int, scale: real): int
  {
    Trunc(Prod(v as real, scale))
  }

  /** The `android.graphics.Rect` built from an OpenCV box: both corners
      scaled back and truncated. */
  function BackMap(r: Rect, scaleX: real, scaleY: real): Bounds
  {
    Bounds(Unscale(r.x, scaleX), Unscale(r.y, scaleY),
           Unscale(r.x + r.width, scaleX), Unscale(r.y + r.height, scaleY))
  }

  /** One axis of the back-mapping: an interval `[x, x + w)` of the processed
      image with `w >= 1` maps to a non-empty interval of the bitmap within
      `[0, original]`, and its centre is a bitmap coordinate. */
  lemma UnscaleInside(x: int, w: int, original: int, processed: int)
    requires 0 < processed <= original && 0 <= x && 1 <= w && x + w <= processed
    ensures var s := Scale(original, processed);
      var lo, hi := Unscale(x, s), Unscale(x + w, s);
      0 <= lo < hi <= original && 0 <= Center(lo, hi) < original
  {
    var s := Scale(original, processed);
    var a, b := Prod(x as real, s), Prod((x + w) as real, s);
    assert Prod(processed as real, s) == original as real;
    assert s >= 1.0;
    ProdNonneg(x as real, s);
    ProdMonotone(s, (x + w) as real, processed as real);
    ProdCommutes(s, (x + w) as real);
    ProdCommutes(s, processed as real);
    TruncMonotone(b, original as real);
    TruncOfInt(original);
    assert b - a == Prod(w as real, s);
    ProdMonotone(w as real, 1.0, s);
    assert b >= a + 1.0;
  }

  /** A region box inside the processed image, with positive sides, maps to
      bounds whose centre pixel exists in the bitmap. */
  lemma BackMapCentreInside(r: Rect, w: int, h: int, size: Size)
    requires 0 < size.cols <= w && 0 < size.rows <= h
    requires 0 <= r.x && 1 <= r.width && r.x + r.width <= size.cols
    requires 0 <= r.y && 1 <= r.height && r.y + r.height <= size.rows
    ensures var b := BackMap(r, Scale(w, size.cols), Scale(h, size.rows));
      b.left < b.right && b.top < b.bottom
      && 0 <= Center(b.left, b.right) < w && 0 <= Center(b.top, b.bottom) < h
  {
    UnscaleInside(r.x, r.width, w, size.cols);
    UnscaleInside(r.y, r.height, h, size.rows);
  }

  /** `new Point((int) (p.x * scaleX), (int) (p.y * scaleY))` */
  function ScalePoint(p: Point, scaleX: real, scaleY: real): IPoint
  {
    IPoint(Trunc(Prod(p.x, scaleX)), Trunc(Prod(p.y, scaleY)))
  }

  /** The contour a segment gets: every point scaled back when the segmenter
      uses contours, none otherwise. */
  function ContourFor(kind: SegmenterKind, points: seq<Point>, scaleX: real, scaleY: real): (c: seq<IPoint>)
    ensures UsesContours(kind) ==>
      |c| == |points| && forall i :: 0 <= i < |points| ==> c[i] == ScalePoint(points[i], scaleX, scaleY)
    ensures !UsesContours(kind) ==> c == []
  {
    if UsesContours(kind) then seq(|points|, i requires 0 <= i < |points| => ScalePoint(points[i], scaleX, scaleY))
    else []
  }

  /** The loop that copies the scaled contour points into a new list. */
  method ScalePoints(kind: SegmenterKind, points: seq<Point>, scaleX: real, scaleY: real)
    returns (out: seq<IPoint>)
    ensures out == ContourFor(kind, points, scaleX, scaleY)
  {
    out := [];
    if UsesContours(kind) {
      for i := 0 to |points|
        invariant |out| == i
        invariant forall j :: 0 <= j < i ==> out[j] == ScalePoint(points[j], scaleX, scaleY)
      {
        out := out + [ScalePoint(points[i], scaleX, scaleY)];
      }
    }
  }

  // ------------------------------------------------------- segment building

  /** `bitmap.getPixel(x, y)`, which throws outside the bitmap. */
  function GetPixel(b: Bitmap, x: int, y: int): (r: Result<int>)
    reads b.pixels
    requires b.Valid()
    ensures r.Ok? <==> 0 <= x < b.width && 0 <= y < b.height
  {
    if 0 <= x < b.width && 0 <= y < b.height then Ok(b.pixels[x, y])
    else Failure("x and y must be inside the bitmap")
  }

  /** The centre of the bounds lies on a `w` by `h` bitmap. */
  predicate CentreOn(w: int, h: int, bounds: Bounds)
  {
    0 <= Center(bounds.left, bounds.right) < w && 0 <= Center(bounds.top, bounds.bottom) < h
  }

  /** The pixel a segment with these bounds is coloured by. */
  function CentrePixel(b: Bitmap, bounds: Bounds): (r: Result<int>)
    reads b.pixels
    requires b.Valid()
    ensures r.Ok? <==> CentreOn(b.width, b.height, bounds)
  {
    GetPixel(b, Center(bounds.left, bounds.right), Center(bounds.top, bounds.bottom))
  }

  /** `new ColorInfo(color, ColorNameMapper.getColorName(color))` */
  function DominantColor(m: Maths, color: int, palette: map<string, Oklab>, order: seq<string>): CI.ColorInfo
    requires PowLaws(m) && Enumerates(order, palette)
  {
    CI.MakeColorInfo(m, color, ColorName(m, color, palette, order))
  }

  /** What the segment built from one region holds besides its id: the
      scaled bounds, the bitmap pixel at their centre and the scaled
      contour. */
  datatype Expected = Expected(bounds: Bounds, pixel: int, contour: seq<IPoint>)

  /** The segment one region becomes, or the `getPixel` exception when the
      centre of its scaled bounds is off the bitmap. */
  function ExpectedOf(region: RegionData, b: Bitmap, scaleX: real, scaleY: real, kind: SegmenterKind): (r: Result<Expected>)
    reads b.pixels
    requires b.Valid()
    ensures r.Ok? <==> CentreOn(b.width, b.height, BackMap(region.bounds, scaleX, scaleY))
    ensures r.Ok? ==>
      r.value.bounds == BackMap(region.bounds, scaleX, scaleY)
      && r.value.contour == ContourFor(kind, region.contourPoints, scaleX, scaleY)
  {
    var bounds := BackMap(region.bounds, scaleX, scaleY);
    var pixel := CentrePixel(b, bounds);
    if pixel.Failure? then Failure(pixel.error)
    else Ok(Expected(bounds, pixel.value, ContourFor(kind, region.contourPoints, scaleX, scaleY)))
  }

  /** The segments the first `n` regions become, failing at the first
      region whose centre is off the bitmap. */
  function ExpectedUpTo(regions: seq<RegionData>, n: nat, b: Bitmap, scaleX: real, scaleY: real,
                        kind: SegmenterKind): Result<seq<Expected>>
    reads b.pixels
    requires b.Valid() && n <= |regions|
  {
    if n == 0 then Ok([])
    else
      match ExpectedUpTo(regions, n - 1, b, scaleX, scaleY, kind)
      case Failure(e) => Failure(e)
      case Ok(prefix) =>
        match ExpectedOf(regions[n - 1], b, scaleX, scaleY, kind)
        case Failure(e) => Failure(e)
        case Ok(last) => Ok(prefix + [last])
  }

  /** The segments the whole region list becomes. */
  function ExpectedAll(regions: seq<RegionData>, b: Bitmap, scaleX: real, scaleY: real, kind: SegmenterKind): Result<seq<Expected>>
    reads b.pixels
    requires b.Valid()
  {
    ExpectedUpTo(regions, |regions|, b, scaleX, scaleY, kind)
  }

  /** The first `n` regions convert exactly when each of their centres is on
      the bitmap, and then yield one entry per region, in order. */
  lemma {:induction false} ExpectedUpToSpec(regions: seq<RegionData>, n: nat, b: Bitmap, scaleX: real, scaleY: real,
                                            kind: SegmenterKind)
    requires b.Valid() && n <= |regions|
    ensures var all := ExpectedUpTo(regions, n, b, scaleX, scaleY, kind);
      (all.Ok? <==> forall i :: 0 <= i < n ==> CentreOn(b.width, b.height, BackMap(regions[i].bounds, scaleX, scaleY)))
      && (all.Ok? ==>
            |all.value| == n
            && forall i :: 0 <= i < n ==> Ok(all.value[i]) == ExpectedOf(regions[i], b, scaleX, scaleY, kind))
  {
    if n > 0 {
      ExpectedUpToSpec(regions, n - 1, b, scaleX, scaleY, kind);
    }
  }

  /** The conversion of a whole list succeeds exactly when every region's
      centre is on the bitmap, and then yields one entry per region. */
  lemma ExpectedAllSpec(regions: seq<RegionData>, b: Bitmap, scaleX: real, scaleY: real, kind: SegmenterKind)
    requires b.Valid()
    ensures var all := ExpectedAll(regions, b, scaleX, scaleY, kind);
      (all.Ok? <==> forall i :: 0 <= i < |regions| ==> CentreOn(b.width, b.height, BackMap(regions[i].bounds, scaleX, scaleY)))
      && (all.Ok? ==>
            |all.value| == |regions|
            && forall i :: 0 <= i < |regions| ==> Ok(all.value[i]) == ExpectedOf(regions[i], b, scaleX, scaleY, kind))
  {
    ExpectedUpToSpec(regions, |regions|, b, scaleX, scaleY, kind);
  }

  /** Once a prefix fails, every longer prefix fails. */
  lemma {:induction false} ExpectedUpToFails(regions: seq<RegionData>, k: nat, n: nat, b: Bitmap, scaleX: real, scaleY: real,
                                             kind: SegmenterKind)
    requires b.Valid() && k <= n <= |regions|
    requires ExpectedUpTo(regions, k, b, scaleX, scaleY, kind).Failure?
    ensures ExpectedUpTo(regions, n, b, scaleX, scaleY, kind).Failure?
    decreases n
  {
    if k < n {
      ExpectedUpToFails(regions, k, n - 1, b, scaleX, scaleY, kind);
    }
  }

  /** The segment holds the id, no mask, full confidence, and the expected
      bounds, colour and contour. */
  predicate Holds(seg: ImageSegment, id: int, e: Expected)
    reads seg
  {
    Built(seg, id, e) && seg.contour == Some(e.contour)
  }

  /** The fields fixed at construction. */
  predicate Built(seg: ImageSegment, id: int, e: Expected)
  {
    seg.id == id && seg.bounds == e.bounds && seg.mask == null && seg.confidence == 1.0
    && seg.dominantColor.Some? && seg.dominantColor.value.color == e.pixel
  }

  /** The segment's colour information is that of its colour, under the
      palette's name for it. */
  ghost predicate Named(m: Maths, seg: ImageSegment, palette: map<string, Oklab>, order: seq<string>)
  {
    PowLaws(m) && Enumerates(order, palette) && seg.dominantColor.Some?
    && seg.dominantColor.value == DominantColor(m, seg.dominantColor.value.color, palette, order)
  }

  /** The body shared by the loop of `convertToSegments` and by
      `segmentByColor`: scale the box back, colour it by its centre pixel,
      and attach the scaled contour. */
  method MakeSegment(m: Maths, region: RegionData, b: Bitmap, scaleX: real, scaleY: real,
                     kind: SegmenterKind, id: int, palette: map<string, Oklab>, order: seq<string>)
    returns (res: Result<ImageSegment>)
    requires PowLaws(m) && Enumerates(order, palette) && b.Valid()
    ensures var e := ExpectedOf(region, b, scaleX, scaleY, kind);
      (res.Ok? <==> e.Ok?)
      && (res.Ok? ==> fresh(res.value) && Holds(res.value, id, e.value) && Named(m, res.value, palette, order))
  {
    var bounds := BackMap(region.bounds, scaleX, scaleY);
    var pixel := CentrePixel(b, bounds);
    if pixel.Failure? {
      return Failure(pixel.error);
    }
    var colorName := GetColorName(m, pixel.value, palette, order);
    var colorInfo := CI.MakeColorInfo(m, pixel.value, colorName);
    var contourPoints := ScalePoints(kind, region.contourPoints, scaleX, scaleY);
    var segment := new ImageSegment(id, bounds, null, Some(colorInfo), 1.0);
    segment.SetContourPoints(Some(contourPoints));
    return Ok(segment);
  }

  /** The first `k` regions are converted into `segments`, numbered from 0,
      each holding what `expected` says and named by the palette, no two the
      same object. */
  ghost predicate Converted(m: Maths, regions: seq<RegionData>, k: nat, segments: seq<ImageSegment>,
                            expected: seq<Expected>, b: Bitmap, scaleX: real, scaleY: real,
                            kind: SegmenterKind, palette: map<string, Oklab>, order: seq<string>)
    reads set i | 0 <= i < |segments| :: segments[i]
    reads b.pixels
  {
    b.Valid() && k <= |regions| && |segments| == |expected| == k
    && ExpectedUpTo(regions, k, b, scaleX, scaleY, kind) == Ok(expected)
    && (forall i :: 0 <= i < k ==> Holds(segments[i], i, expected[i]) && Named(m, segments[i], palette, order))
    && (forall i, j :: 0 <= i < j < k ==> segments[i] != segments[j])
  }

  /** One turn of the loop of `convertToSegments`. */
  method ConvertNext(m: Maths, regions: seq<RegionData>, k: nat, segments: seq<ImageSegment>,
                     ghost expected: seq<Expected>, b: Bitmap, scaleX: real, scaleY: real,
                     kind: SegmenterKind, palette: map<string, Oklab>, order: seq<string>)
    returns (res: Result<ImageSegment>)
    requires PowLaws(m) && Enumerates(order, palette) && b.Valid() && k < |regions|
    requires Converted(m, regions, k, segments, expected, b, scaleX, scaleY, kind, palette, order)
    ensures res.Failure? ==> ExpectedUpTo(regions, k + 1, b, scaleX, scaleY, kind).Failure?
    ensures res.Ok? <==> ExpectedOf(regions[k], b, scaleX, scaleY, kind).Ok?
    ensures res.Ok? ==>
      fresh(res.value)
      && Converted(m, regions, k + 1, segments + [res.value],
                   expected + [ExpectedOf(regions[k], b, scaleX, scaleY, kind).value],
                   b, scaleX, scaleY, kind, palette, order)
  {
    res := MakeSegment(m, regions[k], b, scaleX, scaleY, kind, k, palette, order);
  }

  /** `convertToSegments`: one fresh segment per region, numbered from 0, or
      the exception of the first region whose centre is off the bitmap. */
  method ConvertToSegments(m: Maths, regions: seq<RegionData>, b: Bitmap, scaleX: real, scaleY: real,
                           kind: SegmenterKind, palette: map<string, Oklab>, order: seq<string>)
    returns (res: Result<seq<ImageSegment>>)
    requires PowLaws(m) && Enumerates(order, palette) && b.Valid()
    ensures var all := ExpectedAll(regions, b, scaleX, scaleY, kind);
      (res.Ok? <==> all.Ok?)
      && (res.Ok? ==>
            (forall i :: 0 <= i < |res.value| ==> fresh(res.value[i]))
            && Converted(m, regions, |regions|, res.value, all.value, b, scaleX, scaleY, kind, palette, order))
  {
    var segments: seq<ImageSegment> := [];
    ghost var expected: seq<Expected> := [];
    for k := 0 to |regions|
      invariant Converted(m, regions, k, segments, expected, b, scaleX, scaleY, kind, palette, order)
      invariant forall i :: 0 <= i < |segments| ==> fresh(segments[i])
    {
      var made := ConvertNext(m, regions, k, segments, expected, b, scaleX, scaleY, kind, palette, order);
      if made.Failure? {
        ExpectedUpToFails(regions, k + 1, |regions|, b, scaleX, scaleY, kind);
        assert ExpectedAll(regions, b, scaleX, scaleY, kind).Failure?;
        return Failure(made.error);
      }
      segments := segments + [made.value];
      expected := expected + [ExpectedOf(regions[k], b, scaleX, scaleY, kind).value];
    }
    assert ExpectedAll(regions, b, scaleX, scaleY, kind) == Ok(expected);
    return Ok(segments);
  }

  /** What a converted prefix means for each segment: segment `i` has id
      `i`, the back-mapped bounds of region `i`, no mask, confidence 1, the
      back-mapped contour when the segmenter uses contours, and the named
      colour of the bitmap pixel at the centre of its bounds. */
  lemma ConvertedMeaning(m: Maths, regions: seq<RegionData>, n: nat, segments: seq<ImageSegment>,
                         expected: seq<Expected>, b: Bitmap, scaleX: real, scaleY: real,
                         kind: SegmenterKind, palette: map<string, Oklab>, order: seq<string>)
    requires PowLaws(m) && Enumerates(order, palette)
    requires Converted(m, regions, n, segments, expected, b, scaleX, scaleY, kind, palette, order)
    ensures forall i :: 0 <= i < n ==>
      var bounds := BackMap(regions[i].bounds, scaleX, scaleY);
      var cx, cy := Center(bounds.left, bounds.right), Center(bounds.top, bounds.bottom);
      0 <= cx < b.width && 0 <= cy < b.height
      && segments[i].id == i && segments[i].bounds == bounds
      && segments[i].mask == null && segments[i].confidence == 1.0
      && segments[i].contour == Some(ContourFor(kind, regions[i].contourPoints, scaleX, scaleY))
      && segments[i].dominantColor == Some(DominantColor(m, b.pixels[cx, cy], palette, order))
  {
    ExpectedUpToSpec(regions, n, b, scaleX, scaleY, kind);
    forall i | 0 <= i < n
      ensures var bounds := BackMap(regions[i].bounds, scaleX, scaleY);
        var cx, cy := Center(bounds.left, bounds.right), Center(bounds.top, bounds.bottom);
        0 <= cx < b.width && 0 <= cy < b.height
        && segments[i].id == i && segments[i].bounds == bounds
        && segments[i].mask == null && segments[i].confidence == 1.0
        && segments[i].contour == Some(ContourFor(kind, regions[i].contourPoints, scaleX, scaleY))
        && segments[i].dominantColor == Some(DominantColor(m, b.pixels[cx, cy], palette, order))
    {
      assert Holds(segments[i], i, expected[i]) && Named(m, segments[i], palette, order);
      assert Ok(expected[i]) == ExpectedOf(regions[i], b, scaleX, scaleY, kind);
    }
  }

  /** Regions inside the processed image with positive sides always have
      their centre pixel in the bitmap, so the conversion cannot fail. */
  lemma ConversionSucceeds(regions: seq<RegionData>, b: Bitmap, size: Size, kind: SegmenterKind)
    requires b.Valid() && 0 < size.cols <= b.width && 0 < size.rows <= b.height
    requires forall i :: 0 <= i < |regions| ==>
      var r := regions[i].bounds;
      0 <= r.x && 1 <= r.width && r.x + r.width <= size.cols
      && 0 <= r.y && 1 <= r.height && r.y + r.height <= size.rows
    ensures ExpectedAll(regions, b, Scale(b.width, size.cols), Scale(b.height, size.rows), kind).Ok?
  {
    var sx, sy := Scale(b.width, size.cols), Scale(b.height, size.rows);
    forall i | 0 <= i < |regions|
      ensures CentreOn(b.width, b.height, BackMap(regions[i].bounds, sx, sy))
    {
      BackMapCentreInside(regions[i].bounds, b.width, b.height, size);
    }
    ExpectedAllSpec(regions, b, sx, sy, kind);
  }

  // ------------------------------------------------------------- entry points

  /** What `analyze(bitmap)` of the segmenter `kind` returns when its
      subclass step finds `extract(size)` in the resized image: an exception
      when the resize or a centre pixel fails, otherwise a successful result
      whose segments are the converted regions, in order. */
  ghost predicate AnalysisOf(m: Maths, b: Bitmap, kind: SegmenterKind, extract: Size -> seq<RegionData>,
                             palette: map<string, Oklab>, order: seq<string>, res: Result<SegmentationResult>)
    reads b.pixels
    reads if res.Ok? then set i | 0 <= i < |res.value.segments| :: res.value.segments[i] else {}
  {
    b.Valid()
    && var resized := ResizedSize(b.width, b.height, ProcessingSize(kind));
    (resized.Failure? ==> res.Failure?)
    && (resized.Ok? ==>
          var size := resized.value;
          var all := ExpectedAll(extract(size), b, Scale(b.width, size.cols), Scale(b.height, size.rows), kind);
          (res.Ok? <==> all.Ok?)
          && (res.Ok? ==>
                var r := res.value;
                r.success && r.errorMessage == None && r.processingTimeMs == 0 && r.resultBitmap == null
                && Converted(m, extract(size), |extract(size)|, r.segments, all.value, b,
                             Scale(b.width, size.cols), Scale(b.height, size.rows), kind, palette, order)))
  }

  /** `analyze(bitmap)`: resize, extract, convert, and wrap the segments in a
      successful result with no time, error or bitmap. */
  method Analyze(m: Maths, b: Bitmap, kind: SegmenterKind, extract: Size -> seq<RegionData>,
                 palette: map<string, Oklab>, order: seq<string>)
    returns (res: Result<SegmentationResult>)
    requires PowLaws(m) && Enumerates(order, palette) && b.Valid()
    ensures AnalysisOf(m, b, kind, extract, palette, order, res)
    ensures res.Ok? ==> forall i :: 0 <= i < |res.value.segments| ==> fresh(res.value.segments[i])
  {
    var resized := ResizedSize(b.width, b.height, ProcessingSize(kind));
    if resized.Failure? {
      return Failure(resized.error);
    }
    var size := resized.value;
    var scaleX := Scale(b.width, size.cols);
    var scaleY := Scale(b.height, size.rows);
    var regions := extract(size);
    var segments := ConvertToSegments(m, regions, b, scaleX, scaleY, kind, palette, order);
    if segments.Failure? {
      return Failure(segments.error);
    }
    return Ok(Create(true, Some(segments.value), null));
  }

  /** `segmentByColor(bitmap, targetColor, x, y, sensitivity)`: resize, map
      the click into the processed image, let the subclass grow one region
      from it, and build segment 0 from that region; null when the subclass
      finds none. */
  method SegmentByColor(m: Maths, b: Bitmap, targetColor: int, x: int, y: int, sensitivity: int,
                        kind: SegmenterKind, extract: (Size, int, int, int, int) -> Option<RegionData>,
                        palette: map<string, Oklab>, order: seq<string>)
    returns (res: Result<Option<ImageSegment>>)
    requires PowLaws(m) && Enumerates(order, palette) && b.Valid()
    ensures ResizedSize(b.width, b.height, ProcessingSize(kind)).Failure? ==> res.Failure?
    ensures ResizedSize(b.width, b.height, ProcessingSize(kind)).Ok? ==>
      var size := ResizedSize(b.width, b.height, ProcessingSize(kind)).value;
      var sx, sy := Scale(b.width, size.cols), Scale(b.height, size.rows);
      var found := extract(size, targetColor, SeedOf(x, sx), SeedOf(y, sy), sensitivity);
      (found.None? ==> res == Ok(None))
      && (found.Some? ==>
            var e := ExpectedOf(found.value, b, sx, sy, kind);
            (res.Ok? <==> e.Ok?)
            && (res.Ok? ==>
                  res.value.Some? && fresh(res.value.value) && Holds(res.value.value, 0, e.value)
                  && Named(m, res.value.value, palette, order)))
  {
    var resized := ResizedSize(b.width, b.height, ProcessingSize(kind));
    if resized.Failure? {
      return Failure(resized.error);
    }
    var size := resized.value;
    var scaleX := Scale(b.width, size.cols);
    var scaleY := Scale(b.height, size.rows);
    var scaledX := SeedOf(x, scaleX);
    var scaledY := SeedOf(y, scaleY);
    var region := extract(size, targetColor, scaledX, scaledY, sensitivity);
    if region.None? {
      return Ok(None);
    }
    var made := MakeSegment(m, region.value, b, scaleX, scaleY, kind, 0, palette, order);
    if made.Failure? {
      return Failure(made.error);
    }
    return Ok(Some(made.value));
  }
}
