/** SegmentationResult: the immutable outcome of one analysis, holding the
    segments, the processing time, the success flag, an optional error
    message and an optional result bitmap, plus the reverse point lookup
    over the segments. */
module SegmentationResults {
  import opened Common
  import opened Handles
  import opened ImageSegments

  datatype SegmentationResult = SegmentationResult(
    segments: seq<ImageSegment>,
    processingTimeMs: int,
    success: bool,
    errorMessage: Option<string>,
    resultBitmap: Bitmap?)

  /** The private constructor: a null segment list becomes an empty one. */
  function Make(segments: Option<seq<ImageSegment>>, processingTimeMs: int, success: bool,
                errorMessage: Option<string>, resultBitmap: Bitmap?): (r: SegmentationResult)
    ensures segments.None? ==> r.segments == []
    ensures segments.Some? ==> r.segments == segments.value
    ensures r.processingTimeMs == processingTimeMs && r.success == success
    ensures r.errorMessage == errorMessage && r.resultBitmap == resultBitmap
  {
    SegmentationResult(if segments.None? then [] else segments.value,
      processingTimeMs, success, errorMessage, resultBitmap)
  }

  /** The public constructor `SegmentationResult(success, segments, bitmap)`:
      no time and no error message. */
  function Create(success: bool, segments: Option<seq<ImageSegment>>, resultBitmap: Bitmap?): (r: SegmentationResult)
    ensures r.processingTimeMs == 0 && r.errorMessage == None
    ensures r.success == success && r.resultBitmap == resultBitmap
    ensures r.segments == (if segments.None? then [] else segments.value)
  {
    Make(segments, 0, success, None, resultBitmap)
  }

  /** `SegmentationResult.success(segments, time)` */
  function Success(segments: Option<seq<ImageSegment>>, processingTimeMs: int): (r: SegmentationResult)
    ensures r.success && r.errorMessage == None && r.resultBitmap == null
    ensures r.processingTimeMs == processingTimeMs
    ensures r.segments == (if segments.None? then [] else segments.value)
  {
    Make(segments, processingTimeMs, true, None, null)
  }

  /** `SegmentationResult.error(message)`: failed, empty, no time. */
  function Error(errorMessage: string): (r: SegmentationResult)
    ensures !r.success && r.segments == [] && r.processingTimeMs == 0
    ensures r.errorMessage == Some(errorMessage) && r.resultBitmap == null
  {
    Make(None, 0, false, Some(errorMessage), null)
  }

  /** The reverse search of `findSegmentAt` over the first `n` segments. */
  function FindIn(segments: seq<ImageSegment>, x: int, y: int, n: nat): (f: Option<nat>)
    requires n <= |segments|
    ensures f.Some? ==> f.value < n && segments[f.value].ContainsPoint(x, y)
  {
    if n == 0 then None
    else if segments[n - 1].ContainsPoint(x, y) then Some(n - 1)
    else FindIn(segments, x, y, n - 1)
  }

  /** `findSegmentAt(x, y)`: the last segment containing the point, since
      later segments are drawn on top; null when none contains it. */
  function FindSegmentAt(r: SegmentationResult, x: int, y: int): Option<ImageSegment>
  {
    match FindIn(r.segments, x, y, |r.segments|)
    case None => None
    case Some(i) => Some(r.segments[i])
  }

  lemma {:induction false} FindInSpec(segments: seq<ImageSegment>, x: int, y: int, n: nat)
    requires n <= |segments|
    ensures FindIn(segments, x, y, n).None? <==> forall j :: 0 <= j < n ==> !segments[j].ContainsPoint(x, y)
    ensures FindIn(segments, x, y, n).Some? ==>
      var i := FindIn(segments, x, y, n).value;
      i < n && segments[i].ContainsPoint(x, y)
      && forall j :: i < j < n ==> !segments[j].ContainsPoint(x, y)
  {
    if n > 0 && !segments[n - 1].ContainsPoint(x, y) {
      FindInSpec(segments, x, y, n - 1);
    }
  }

  /** The lookup finds nothing exactly when no segment contains the point;
      otherwise it finds a containing segment after which none does. */
  lemma FindSegmentAtSpec(r: SegmentationResult, x: int, y: int)
    ensures FindSegmentAt(r, x, y).None? <==> forall j :: 0 <= j < |r.segments| ==> !r.segments[j].ContainsPoint(x, y)
    ensures FindSegmentAt(r, x, y).Some? ==>
      exists i :: 0 <= i < |r.segments| && r.segments[i] == FindSegmentAt(r, x, y).value
        && r.segments[i].ContainsPoint(x, y)
        && forall j :: i < j < |r.segments| ==> !r.segments[j].ContainsPoint(x, y)
  {
    FindInSpec(r.segments, x, y, |r.segments|);
  }

  /** `getSegmentCount()` */
  function SegmentCount(r: SegmentationResult): (n: nat)
    ensures n == |r.segments|
  {
    |r.segments|
  }
}
