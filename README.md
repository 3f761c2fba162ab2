# Segmentation and colour engine — a Dafny model

This project models the core of an Android app that segments a photo or
camera frame into coloured regions and names the colour a user taps.

**What is modelled**

- **Dual-mode engine.** `DualModeSegmentationEngine` switches between two
  segmenters: a fast streaming one (`SlicSegmenter`, a colour quantisation
  followed by connected-component statistics) and a precise one
  (`ContourSegmenter`, contours at six grey thresholds). It keeps the last
  result for two seconds, resizes a `BufferPool` to the current frame, and
  averages the colour of a clipped square window around a tapped point.
- **Box segmenter.** `BoxSegmenter` collects boxes from a dark mask, a grey
  mask and 24 hue masks, then applies four steps:
  - a hierarchy filter on insert;
  - at most three merges of similar, overlapping boxes;
  - a shape filter;
  - greedy non-maximum suppression.
- **Seeded queries.** `BoxSegmenterColor`, `ContourSegmenterColor` and
  `SlicSegmenter.extractRegionByColor` answer "which region holds this
  click". Each uses an HSV tolerance window or a flood-fill tolerance
  scaled by a sensitivity.
- **Shared pipeline.** `BaseSegmenter` shrinks the bitmap to a processing
  size and maps regions back to bitmap coordinates. It wraps them as
  `ImageSegment`s inside a `SegmentationResult`.
- **Streaming utilities.** `SegmentationCache` is a keyed cache whose entries
  live 60 seconds. `FrameRateController` is the frame gate.
- **Colour utilities.**
  - `ColorNameMapper`: Russian colour names from a palette, nearest in OKLAB.
  - `ColorInfo`: WCAG 2.1 relative luminance, contrast ratio and the
    AA/AAA rating.
  - `ColorBlindnessSimulator`: matrices that simulate colour-vision
    deficiencies.
  - `ColorConverter` / `OklabColor`: the OKLAB and CIEDE2000
    (CIE 142-2001) colour differences.

**How the model is built**

Each Java file is one Dafny module, and each module takes the form of its
source:

- Pure Java code is functions and lemmas.
- Loops are methods with invariants, proved against a specification
  function.
- Objects whose fields change are classes: the engine, the cache, the frame
  controller, the buffer pool and the segment's contour.

OpenCV and the Android framework are inputs:

- label images, contour lists (bounding rect, area, points), watershed
  labels and flood-fill results;
- `Bitmap` and `Mat` handles (module `Handles`);
- the clock, as a `now` parameter;
- the transcendental maths, as an uninterpreted `Maths` value with a few
  stated laws (module `Numerics`).

Java `float`/`double` values are exact reals. Java `(int)` casts are
truncation toward zero (`Common.Trunc`), and Java integer division
truncates (`Common.JavaDiv`).

## Model

| member | source | states |
|---|---|---|
| BoxSegmenter.RectIoU | app/src/main/java/com/example/miminor/segmentation/BoxSegmenter.java:48-63 | the IoU of two OpenCV rects always lies in [0, 1] |
| BoxSegmenter.InterAreaBound | app/src/main/java/com/example/miminor/segmentation/BoxSegmenter.java:49-59 | the clipped intersection area is 0 or at most the area of each rect |
| BoxSegmenter.RectIoUSymmetric | app/src/main/java/com/example/miminor/segmentation/BoxSegmenter.java:48-63 | the IoU does not depend on the order of the two rects |
| BoxSegmenter.RectIoUSelf | app/src/main/java/com/example/miminor/segmentation/BoxSegmenter.java:48-63 | a rect with positive sides has IoU 1 with itself |
| BoxSegmenter.RectIoUDisjoint | app/src/main/java/com/example/miminor/segmentation/BoxSegmenter.java:48-63 | rects that do not overlap in x or in y have IoU 0 |
| BoxSegmenter.RectIoUNested | app/src/main/java/com/example/miminor/segmentation/BoxSegmenter.java:41-63 | when the inner rect sits inside the outer one, the IoU is the ratio of their areas |
| BoxSegmenter.NotInsideItself | app/src/main/java/com/example/miminor/segmentation/BoxSegmenter.java:41-46 | at tolerance 1 a rect is never inside itself |
| BoxSegmenter.UnionRect | app/src/main/java/com/example/miminor/segmentation/BoxSegmenter.java:447-453 | the union contains both rects, and each of its four edges is an edge of one of them |
| BoxSegmenter.UnionRectCommutes | app/src/main/java/com/example/miminor/segmentation/BoxSegmenter.java:447-453 | the union does not depend on the order of the two rects |
| BoxSegmenter.AddRegionWithHierarchyFilter | app/src/main/java/com/example/miminor/segmentation/BoxSegmenter.java:70-85 | the list after the insert is the hierarchy-insert function of the old list and the new region |
| BoxSegmenter.RemoveAbsorbedMembers | app/src/main/java/com/example/miminor/segmentation/BoxSegmenter.java:79-82 | `removeIf` keeps exactly the regions that are not inset by 1 px inside the new box with less than 0.7 of its area, and never lengthens the list |
| BoxSegmenter.HierarchyInsertSpec | app/src/main/java/com/example/miminor/segmentation/BoxSegmenter.java:70-85 | a new region with IoU above 0.9 against any existing one leaves the list unchanged; otherwise the new region comes last and the kept regions are exactly those not absorbed |
| BoxSegmenter.ColorDistanceBelow | app/src/main/java/com/example/miminor/segmentation/BoxSegmenter.java:428-433 | the Euclidean colour distance is below 45 exactly when the squared distance is below 2025 |
| BoxSegmenter.AreaRatioTest | app/src/main/java/com/example/miminor/segmentation/BoxSegmenter.java:362 | with Java integer division, the area-ratio test passes exactly when r2.area <= r1.area < 4 * r2.area |
| BoxSegmenter.MergeNeedsArea | app/src/main/java/com/example/miminor/segmentation/BoxSegmenter.java:362 | a pair that merges has a second region of positive area, so the colour division never divides by zero |
| BoxSegmenter.WeightedChannelBetween | app/src/main/java/com/example/miminor/segmentation/BoxSegmenter.java:372-374 | an area-weighted channel mean lies between the two source channels |
| BoxSegmenter.MergePairSpec | app/src/main/java/com/example/miminor/segmentation/BoxSegmenter.java:369-377 | a merge gives the union of the bounds, the sum of the areas and, per channel, a colour between the two sources |
| BoxSegmenter.ApplyMerge | app/src/main/java/com/example/miminor/segmentation/BoxSegmenter.java:369-377 | a merge removes exactly one region from the list |
| BoxSegmenter.ScanFrom | app/src/main/java/com/example/miminor/segmentation/BoxSegmenter.java:351-364 | the pair the nested scan stops at has i < j inside the list and passes the merge test |
| BoxSegmenter.ScanFromSpec | app/src/main/java/com/example/miminor/segmentation/BoxSegmenter.java:351-364 | the scan finds no pair exactly when every pair it visits is skipped; the pair it stops at merges, and the earlier pairs of its row were skipped |
| BoxSegmenter.MergePass | app/src/main/java/com/example/miminor/segmentation/BoxSegmenter.java:348-380 | one pass of the while loop finds the first mergeable pair in scan order and merges it, reports that nothing merged, or fails on a zero area |
| BoxSegmenter.MergeLoop | app/src/main/java/com/example/miminor/segmentation/BoxSegmenter.java:343-381 | the while loop equals at most 3 rounds of merge passes, stopping at the first round that merges nothing |
| BoxSegmenter.MergeRoundsLength | app/src/main/java/com/example/miminor/segmentation/BoxSegmenter.java:343-381 | the loop performs at most 3 merges, each shrinking the list by one |
| BoxSegmenter.MergeRoundsTotalArea | app/src/main/java/com/example/miminor/segmentation/BoxSegmenter.java:369-377 | merging keeps the sum of the region areas |
| BoxSegmenter.MergeRoundsValidColors | app/src/main/java/com/example/miminor/segmentation/BoxSegmenter.java:372-374 | merging keeps every colour channel within 0..255 |
| BoxSegmenter.MergeRoundsFixpoint | app/src/main/java/com/example/miminor/segmentation/BoxSegmenter.java:343-381 | when the loop stops before using up its 3 rounds, no pair of the result passes the merge test |
| BoxSegmenter.RemoveBadShapes | app/src/main/java/com/example/miminor/segmentation/BoxSegmenter.java:384-390 | the shape filter equals the shape-filter function of the list |
| BoxSegmenter.ShapeFilterMembers | app/src/main/java/com/example/miminor/segmentation/BoxSegmenter.java:384-390 | the shape filter keeps exactly the boxes with positive sides, aspect ratio at most 7 and area at least 200 |
| BoxSegmenter.MergeNearbyRegions | app/src/main/java/com/example/miminor/segmentation/BoxSegmenter.java:342-393 | `mergeNearbyRegions` equals merging, then the shape filter, then NMS at 0.5, or the division-by-zero failure |
| BoxSegmenter.FinalNMSFilter | app/src/main/java/com/example/miminor/segmentation/BoxSegmenter.java:398-422 | the loop over `removed[]` computes the greedy-suppression function of the sorted list |
| BoxSegmenter.NotSuppressedIff | app/src/main/java/com/example/miminor/segmentation/BoxSegmenter.java:402-414 | region j is still unremoved after the outer loop reaches n exactly when no kept region before n overlaps it above the threshold |
| BoxSegmenter.SurvivorsMembers | app/src/main/java/com/example/miminor/segmentation/BoxSegmenter.java:416-419 | the filtered list holds exactly the regions never marked removed |
| BoxSegmenter.NmsSorted | app/src/main/java/com/example/miminor/segmentation/BoxSegmenter.java:398-422 | the NMS output is sorted by area, largest first |
| BoxSegmenter.NmsPairwise | app/src/main/java/com/example/miminor/segmentation/BoxSegmenter.java:398-422 | no two boxes of the NMS output overlap with an IoU above the threshold |
| BoxSegmenter.NmsSubset | app/src/main/java/com/example/miminor/segmentation/BoxSegmenter.java:398-422 | the NMS output is the subsequence of the stable area sort at the kept indices, in increasing order; it holds each input box at most as often as the input does |
| BoxSegmenter.NmsCoverage | app/src/main/java/com/example/miminor/segmentation/BoxSegmenter.java:398-422 | every dropped box has IoU above the threshold with a kept box of at least its area, and a non-empty input keeps at least one box |
| BoxSegmenter.AllKept | app/src/main/java/com/example/miminor/segmentation/BoxSegmenter.java:398-422 | a sorted list that already has pairwise IoU at most the threshold passes NMS whole |
| BoxSegmenter.NmsIdempotent | app/src/main/java/com/example/miminor/segmentation/BoxSegmenter.java:398-422 | running NMS a second time changes nothing |
| BoxSegmenter.VThresh | app/src/main/java/com/example/miminor/segmentation/BoxSegmenter.java:128 | the value threshold lies in [20, 55] and equals the truncated 0.32 * vMean when that is in range |
| BoxSegmenter.SThresh | app/src/main/java/com/example/miminor/segmentation/BoxSegmenter.java:129 | the saturation threshold lies in [20, 65] and equals the truncated 0.42 * sMean when that is in range |
| BoxSegmenter.MaskOrder | app/src/main/java/com/example/miminor/segmentation/BoxSegmenter.java:133-179 | there are 26 masks: dark, grey and the 24 hue bins |
| BoxSegmenter.MaskPartition | app/src/main/java/com/example/miminor/segmentation/BoxSegmenter.java:133-179 | dark and grey masks are disjoint and cover every unsaturated or dark pixel; hue bins meet neither; bins [7i, 7i+7] share their edges; hues 0..168 fall in a bin and hues above 168 in none |
| BoxSegmenter.AddCandidate | app/src/main/java/com/example/miminor/segmentation/BoxSegmenter.java:273-291 | a contour is inserted through the hierarchy filter exactly when its area reaches minArea and its aspect ratio lies in (0.15, 7) |
| BoxSegmenter.OfferLargestPerLabel | app/src/main/java/com/example/miminor/segmentation/BoxSegmenter.java:254-297 | the watershed path offers, per label 1..numLabels-1 with at least minArea pixels, the first contour of maximal area |
| BoxSegmenter.OfferContours | app/src/main/java/com/example/miminor/segmentation/BoxSegmenter.java:300-326 | the fallback path offers every contour of the mask in order |
| BoxSegmenter.ProcessColorRegion | app/src/main/java/com/example/miminor/segmentation/BoxSegmenter.java:215-337 | the watershed path is taken when 1 < numLabels <= 60, the contour path otherwise |
| BoxSegmenter.ProcessIfLarge | app/src/main/java/com/example/miminor/segmentation/BoxSegmenter.java:136-138 | a mask is processed only when it has more than minArea pixels |
| BoxSegmenter.CollectColorRegions | app/src/main/java/com/example/miminor/segmentation/BoxSegmenter.java:131-179 | the region list after all masks is the fold of the mask processing over the mask order |
| BoxSegmenter.ToRegionData | app/src/main/java/com/example/miminor/segmentation/BoxSegmenter.java:191-196 | each colour region becomes one RegionData with its bounds, area and colour and no contour points, in order |
| BoxSegmenter.ConvertRegions | app/src/main/java/com/example/miminor/segmentation/BoxSegmenter.java:191-196 | the conversion loop computes that list |
| BoxSegmenter.ExtractRegions | app/src/main/java/com/example/miminor/segmentation/BoxSegmenter.java:95-210 | `extractRegions` equals the mask fold, merge, conversion, stable area sort and cap at 35 |
| BoxSegmenter.ConvertKeeps | app/src/main/java/com/example/miminor/segmentation/BoxSegmenter.java:191-196 | conversion keeps the area order, the shape guarantees and the pairwise IoU bound |
| BoxSegmenter.CapKeeps | app/src/main/java/com/example/miminor/segmentation/BoxSegmenter.java:198-207 | re-sorting a sorted list and capping it at 35 keeps the shape and IoU guarantees |
| BoxSegmenter.FinishRegionsOk | app/src/main/java/com/example/miminor/segmentation/BoxSegmenter.java:189-209 | whatever the merge produced, the final list has at most 35 regions, largest first, of reported shape and pairwise IoU at most 0.5 |
| BoxSegmenter.ExtractRegionsResult | app/src/main/java/com/example/miminor/segmentation/BoxSegmenter.java:95-210 | a successful `extractRegions` returns at most 35 regions, largest first, each with positive sides, aspect ratio at most 7 and area at least 200, with pairwise IoU at most 0.5 |
| SlicSegmenter.Tolerance | app/src/main/java/com/example/miminor/segmentation/SlicSegmenter.java:64 | the flood-fill tolerance is at least 20 for every non-negative sensitivity |
| SlicSegmenter.ToleranceMonotone | app/src/main/java/com/example/miminor/segmentation/SlicSegmenter.java:64-66 | a higher sensitivity widens the tolerance, by two per step |
| SlicSegmenter.ExtractRegionByColor | app/src/main/java/com/example/miminor/segmentation/SlicSegmenter.java:49-100 | a region exists exactly when the seed is inside the image and the fill covers at least 50 pixels; it is then the fill's box and pixel count with the truncated masked mean colour and no contour |
| SlicSegmenter.QuantByteValue | app/src/main/java/com/example/miminor/segmentation/SlicSegmenter.java:151-156 | the quantised byte keeps only the low bit of the a level and the b level, so it is one of eight values 0, 16, 32, 48, 128, 144, 160, 176 |
| SlicSegmenter.QuantByteIgnoresL | app/src/main/java/com/example/miminor/segmentation/SlicSegmenter.java:151-156 | the lightness level is shifted out of the byte and never influences it |
| SlicSegmenter.QuantizeColors | app/src/main/java/com/example/miminor/segmentation/SlicSegmenter.java:138-161 | one output byte per three-byte Lab pixel, each the quantised byte of that pixel |
| SlicSegmenter.ScanStatsDomain | app/src/main/java/com/example/miminor/segmentation/SlicSegmenter.java:169-188 | a label gets statistics exactly when it is not the background 0 and occurs in the scanned pixels |
| SlicSegmenter.ScanStatsArea | app/src/main/java/com/example/miminor/segmentation/SlicSegmenter.java:186 | a label's area is its number of pixels |
| SlicSegmenter.ScanStatsCovers | app/src/main/java/com/example/miminor/segmentation/SlicSegmenter.java:182-185 | every pixel of a label lies inside the label's box |
| SlicSegmenter.ScanStatsTouched | app/src/main/java/com/example/miminor/segmentation/SlicSegmenter.java:182-185 | each of the four sides of a label's box is touched by one of its pixels, so the box is tight |
| SlicSegmenter.ScanRow | app/src/main/java/com/example/miminor/segmentation/SlicSegmenter.java:170-187 | scanning one more row yields the statistics of every pixel up to the end of that row |
| SlicSegmenter.ScanLabels | app/src/main/java/com/example/miminor/segmentation/SlicSegmenter.java:169-188 | the row-by-row scan yields the statistics of the whole label image |
| SlicSegmenter.ComponentsMembers | app/src/main/java/com/example/miminor/segmentation/SlicSegmenter.java:192-218 | a candidate exists exactly for each label of [1, numLabels) that has statistics, an area of at least 100 and both sides of at least 10 |
| SlicSegmenter.CollectComponents | app/src/main/java/com/example/miminor/segmentation/SlicSegmenter.java:190-218 | the loop over labels 1..numLabels-1 yields exactly the candidate list |
| SlicSegmenter.ComponentsLength | app/src/main/java/com/example/miminor/segmentation/SlicSegmenter.java:192-218 | the candidate list holds one region per label that passes the size filters |
| SlicSegmenter.ComponentsAreEntries | app/src/main/java/com/example/miminor/segmentation/SlicSegmenter.java:192-218 | for a label image whose labels lie in [0, numLabels), the labels visited are all the entries of the statistics map: a candidate exists exactly for each entry that passes the size filters, one per entry |
| SlicSegmenter.ExtractConnectedRegions | app/src/main/java/com/example/miminor/segmentation/SlicSegmenter.java:163-232 | for labels in [0, numLabels), the scan, the filters, the sort and the cap yield the connected-region list |
| SlicSegmenter.ConnectedRegionsSpec | app/src/main/java/com/example/miminor/segmentation/SlicSegmenter.java:190-229 | at most 40 regions, largest area first, each the tight box and pixel count of a kept non-background label |
| SlicSegmenter.ComponentsComplete | app/src/main/java/com/example/miminor/segmentation/SlicSegmenter.java:192-218 | conversely, every non-background label that occurs is a candidate exactly when it passes the size filters |
| SlicSegmenter.CandidateFromLabel | app/src/main/java/com/example/miminor/segmentation/SlicSegmenter.java:192-218 | every sorted candidate is the tight box and pixel count of a kept label |
| SlicSegmenter.FromLabelShape | app/src/main/java/com/example/miminor/segmentation/SlicSegmenter.java:195-200 | a region taken from a kept label has an area of at least 100 and both sides of at least 10 |
| SlicSegmenter.DownscaledSize | app/src/main/java/com/example/miminor/segmentation/SlicSegmenter.java:107 | the processing image is half the size, rounded down, in each dimension |
| SlicSegmenter.DoubleBounds | app/src/main/java/com/example/miminor/segmentation/SlicSegmenter.java:120-125 | every box is scaled by two in position and size; area, colour and contour stay |
| SlicSegmenter.DoubledAll | app/src/main/java/com/example/miminor/segmentation/SlicSegmenter.java:120-125 | the doubled list keeps the length and doubles each region in place |
| SlicSegmenter.DoubledKeeps | app/src/main/java/com/example/miminor/segmentation/SlicSegmenter.java:120-125 | doubling keeps the order by area and turns sides of at least 10 into even boxes with sides of at least 20 |
| SlicSegmenter.ExtractRegions | app/src/main/java/com/example/miminor/segmentation/SlicSegmenter.java:103-136 | the streaming result is the connected-region list with every box doubled |
| SlicSegmenter.ExtractRegionsSpec | app/src/main/java/com/example/miminor/segmentation/SlicSegmenter.java:103-136 | the streaming result has at most 40 regions, largest first, each with even coordinates, sides of at least 20 and an area of at least 100 |
| ContourSegmenter.ScheduleLevels | app/src/main/java/com/example/miminor/segmentation/ContourSegmenter.java:49 | the threshold loop visits exactly the six levels 20, 60, 100, 140, 180 and 220 |
| ContourSegmenter.AddLevel | app/src/main/java/com/example/miminor/segmentation/ContourSegmenter.java:61-84 | the contour loop of one level appends that level's regions to the list |
| ContourSegmenter.ExtractRegions | app/src/main/java/com/example/miminor/segmentation/ContourSegmenter.java:40-105 | the levels in turn, then the area sort and the cap, yield the contour-mode region list |
| ContourSegmenter.LevelRegionsMembers | app/src/main/java/com/example/miminor/segmentation/ContourSegmenter.java:61-83 | a region comes from a level exactly when it is built from one of that level's contours of area at least 50 |
| ContourSegmenter.LevelRegionsLength | app/src/main/java/com/example/miminor/segmentation/ContourSegmenter.java:61-83 | a level adds one region per contour of area at least 50, and no others |
| ContourSegmenter.AllRegionsLength | app/src/main/java/com/example/miminor/segmentation/ContourSegmenter.java:44-88 | all levels feed one list with no de-duplication, so its length is the total of the per-level counts |
| ContourSegmenter.AllRegionsMembers | app/src/main/java/com/example/miminor/segmentation/ContourSegmenter.java:44-88 | a region is in the list exactly when it comes from one of the visited levels |
| ContourSegmenter.ExtractRegionsResult | app/src/main/java/com/example/miminor/segmentation/ContourSegmenter.java:93-102 | at most 20 regions, largest area first, each built from a contour of area at least 50 at one of the six levels, carrying that contour's points |
| ContourSegmenter.CandidateFromLevel | app/src/main/java/com/example/miminor/segmentation/ContourSegmenter.java:49-83 | every candidate comes from a contour of area at least 50 at one of the six levels |
| HsvWindow.HalfWidth | app/src/main/java/com/example/miminor/segmentation/BoxSegmenterColor.java:44-47 | a half-width is never negative for a non-negative spread and sensitivity |
| HsvWindow.MakeWindow | app/src/main/java/com/example/miminor/segmentation/BoxSegmenterColor.java:49-54 | the window bounds always lie in OpenCV's 8-bit HSV ranges: hue 0..180, saturation and value 0..255 |
| HsvWindow.TargetInside | app/src/main/java/com/example/miminor/segmentation/BoxSegmenterColor.java:44-57 | for a non-negative sensitivity the clicked pixel itself passes its own window |
| HsvWindow.HalfWidthMonotone | app/src/main/java/com/example/miminor/segmentation/BoxSegmenterColor.java:44-47 | a higher sensitivity never gives a smaller half-width |
| HsvWindow.Widening | app/src/main/java/com/example/miminor/segmentation/ContourSegmenterColor.java:40-50 | raising the sensitivity never narrows the window, so every pixel accepted before is still accepted |
| HsvWindow.WithinHolds | app/src/main/java/com/example/miminor/segmentation/ContourSegmenterColor.java:53 | a pixel accepted by a window is accepted by every window that contains it |
| HsvWindow.WindowAtZeroAndFifty | app/src/main/java/com/example/miminor/segmentation/ContourSegmenterColor.java:40-50 | at sensitivity 0 the window is the clicked pixel alone; at 50 the half-widths are the full spreads 20 and 80 (70 in box mode) |
| BoxSegmenterColor.ExtractByColor | app/src/main/java/com/example/miminor/segmentation/BoxSegmenterColor.java:21-164 | the guard, the tolerance window, the watershed branch and the contour-box fallback yield the seeded box-mode region |
| BoxSegmenterColor.OutsideGivesNone | app/src/main/java/com/example/miminor/segmentation/BoxSegmenterColor.java:22-24 | a seed outside the image never yields a region |
| BoxSegmenterColor.WatershedChoice | app/src/main/java/com/example/miminor/segmentation/BoxSegmenterColor.java:78-124 | with more than one peak component: no region exactly when the click's marker is at most 0 or its region has no contour; otherwise the first contour of maximal area, with its box and truncated area |
| BoxSegmenterColor.FallbackChoice | app/src/main/java/com/example/miminor/segmentation/BoxSegmenterColor.java:125-151 | with at most one peak component: no region exactly when no mask contour's half-open box holds the click; otherwise the first one that does |
| ContourSegmenterColor.ExtractByColor | app/src/main/java/com/example/miminor/segmentation/ContourSegmenterColor.java:18-98 | the guard, the tolerance window and the first-match loop yield the seeded contour-mode region |
| ContourSegmenterColor.ExtractByColorChoice | app/src/main/java/com/example/miminor/segmentation/ContourSegmenterColor.java:19-89 | no region exactly when the seed is outside or no contour box holds the click; otherwise the first contour whose box does, with its box, truncated area and points in order |
| ContourOps.LargestUpTo | app/src/main/java/com/example/miminor/segmentation/BoxSegmenterColor.java:98-103 | the running choice of the largest-contour loop is always one of the contours seen so far |
| ContourOps.LargestContour | app/src/main/java/com/example/miminor/segmentation/BoxSegmenterColor.java:97-103 | the loop over all contours yields the running choice after the last contour |
| ContourOps.LargestIsFirstMaximum | app/src/main/java/com/example/miminor/segmentation/BoxSegmenter.java:265-270 | the chosen contour has maximal area, and every contour before it is strictly smaller, so ties go to the first |
| ContourOps.FirstContainingFrom | app/src/main/java/com/example/miminor/segmentation/ContourSegmenterColor.java:65-68 | a hit is a contour index whose half-open bounding box holds the click |
| ContourOps.FirstContainingSpec | app/src/main/java/com/example/miminor/segmentation/ContourSegmenterColor.java:65-89 | the scan fails exactly when no box holds the click, and otherwise finds the first box that does |
| ContourOps.FirstContaining | app/src/main/java/com/example/miminor/segmentation/ContourSegmenterColor.java:65-89 | the loop with its break finds no contour exactly when no box holds the click, and otherwise the first one that does |
| ContourOps.CopyPoints | app/src/main/java/com/example/miminor/segmentation/ContourSegmenterColor.java:75-79 | the copied point list is the contour's points, in order |
| Sorting.Insert | app/src/main/java/com/example/miminor/segmentation/ContourSegmenter.java:93-98 | one insertion step keeps the length and the multiset of elements |
| Sorting.Take | app/src/main/java/com/example/miminor/segmentation/ContourSegmenter.java:100-102 | the cap keeps the list when it is short enough and otherwise exactly its first elements up to the cap |
| Sorting.InsertHead | app/src/main/java/com/example/miminor/segmentation/ContourSegmenter.java:93-98 | the inserted element or the old head ends up first |
| Sorting.InsertSorted | app/src/main/java/com/example/miminor/segmentation/ContourSegmenter.java:93-98 | inserting into a list ordered by decreasing area keeps it ordered |
| Sorting.SortDescSorted | app/src/main/java/com/example/miminor/segmentation/ContourSegmenter.java:93-98 | the area sort yields a list with the largest area first |
| Sorting.SortDescPermutation | app/src/main/java/com/example/miminor/segmentation/ContourSegmenter.java:93-98 | the area sort neither adds nor drops regions |
| Sorting.InsertWithKey | app/src/main/java/com/example/miminor/segmentation/ContourSegmenter.java:93-98 | inserting adds the element just before the elements of its own key, leaving their order intact |
| Sorting.SortDescStable | app/src/main/java/com/example/miminor/segmentation/ContourSegmenter.java:93-98 | the sort is stable, as Collections.sort is: regions of equal area keep their input order |
| Sorting.SortDescOfSorted | app/src/main/java/com/example/miminor/segmentation/ContourSegmenter.java:93-98 | sorting a list already ordered by decreasing area leaves it unchanged |
| Sorting.TakeSorted | app/src/main/java/com/example/miminor/segmentation/ContourSegmenter.java:100-102 | capping a sorted list keeps it sorted |
| BaseSegmenter.ProcessingSize | app/src/main/java/com/example/miminor/segmentation/BaseSegmenter.java:123-125 | every segmenter works on a positive maximum side (200 by default, 400 in box mode, 480 in streaming mode) |
| BaseSegmenter.ScaledSide | app/src/main/java/com/example/miminor/segmentation/BaseSegmenter.java:141-143 | a side scaled by maxSize / longer truncates to at most itself and at most maxSize, to exactly maxSize for the longer side, and to zero exactly when side * maxSize < longer |
| BaseSegmenter.ResizedSizeSpec | app/src/main/java/com/example/miminor/segmentation/BaseSegmenter.java:135-156 | a bitmap that fits is used as is; otherwise no side grows, the longer side becomes exactly maxSize, and the resize fails exactly when the shorter side would truncate to zero |
| BaseSegmenter.SeedInside | app/src/main/java/com/example/miminor/segmentation/BaseSegmenter.java:33-37 | a click inside the bitmap maps to a seed inside the processed image |
| BaseSegmenter.UnscaleInside | app/src/main/java/com/example/miminor/segmentation/BaseSegmenter.java:47-55 | an interval of the processed image that is not empty maps back to an interval of the bitmap that is not empty, and its centre lies inside the bitmap |
| BaseSegmenter.BackMapCentreInside | app/src/main/java/com/example/miminor/segmentation/BaseSegmenter.java:168-177 | a box inside the processed image maps back to bounds that are not empty and whose centre pixel lies inside the bitmap |
| BaseSegmenter.ContourFor | app/src/main/java/com/example/miminor/segmentation/BaseSegmenter.java:182-187 | contour points are each scaled back and truncated, in order, when the segmenter uses contours; otherwise the list is empty |
| BaseSegmenter.ScalePoints | app/src/main/java/com/example/miminor/segmentation/BaseSegmenter.java:182-187 | the point loop yields exactly the scaled contour |
| BaseSegmenter.GetPixel | app/src/main/java/com/example/miminor/segmentation/BaseSegmenter.java:177 | reading a pixel succeeds exactly for coordinates inside the bitmap; otherwise it fails, as getPixel throws |
| BaseSegmenter.CentrePixel | app/src/main/java/com/example/miminor/segmentation/BaseSegmenter.java:175-177 | reading the centre pixel succeeds exactly when the centre of the bounds lies inside the bitmap |
| BaseSegmenter.ExpectedOf | app/src/main/java/com/example/miminor/segmentation/BaseSegmenter.java:167-190 | a region converts exactly when its back-mapped centre is inside the bitmap, and then has the back-mapped bounds and the scaled contour |
| BaseSegmenter.ExpectedUpToSpec | app/src/main/java/com/example/miminor/segmentation/BaseSegmenter.java:167-192 | the first n regions convert exactly when every one of them has its centre inside the bitmap, and then give one segment each, in order |
| BaseSegmenter.ExpectedAllSpec | app/src/main/java/com/example/miminor/segmentation/BaseSegmenter.java:161-195 | the whole list converts exactly when every region's centre is inside the bitmap, and then gives one segment per region, in order |
| BaseSegmenter.ExpectedUpToFails | app/src/main/java/com/example/miminor/segmentation/BaseSegmenter.java:177 | once one region fails to convert, every longer prefix fails too: the exception ends the loop |
| BaseSegmenter.MakeSegment | app/src/main/java/com/example/miminor/segmentation/BaseSegmenter.java:168-190 | one loop step builds a new segment with the given id, the back-mapped bounds, no mask, confidence 1, the scaled contour and the named centre colour, or fails exactly when the centre is outside |
| BaseSegmenter.ConvertNext | app/src/main/java/com/example/miminor/segmentation/BaseSegmenter.java:167-192 | converting region k extends the converted prefix by one segment with id k, or fails exactly when region k does |
| BaseSegmenter.ConvertToSegments | app/src/main/java/com/example/miminor/segmentation/BaseSegmenter.java:161-195 | the loop succeeds exactly when every region converts, and then yields one new segment per region in order |
| BaseSegmenter.ConvertedMeaning | app/src/main/java/com/example/miminor/segmentation/BaseSegmenter.java:161-195 | segment i has id i, the back-mapped bounds of region i, no mask, confidence 1, the scaled contour, and as dominant colour the named bitmap pixel at the centre of its bounds |
| BaseSegmenter.ConversionSucceeds | app/src/main/java/com/example/miminor/segmentation/BaseSegmenter.java:88-95 | when every region box lies inside the processed image, as the subclasses produce them, the conversion cannot fail |
| BaseSegmenter.Analyze | app/src/main/java/com/example/miminor/segmentation/BaseSegmenter.java:80-103 | analysis fails exactly when the resize or a centre pixel would throw; otherwise it is a successful result with no error whose segments are the converted regions, in order |
| BaseSegmenter.SegmentByColor | app/src/main/java/com/example/miminor/segmentation/BaseSegmenter.java:24-75 | a failed resize fails; no region from the subclass gives no segment; otherwise segment 0 with the back-mapped bounds and named centre colour, failing exactly when the centre is outside |
| SegmentationResults.Make | app/src/main/java/com/example/miminor/segmentation/SegmentationResult.java:18-25 | a null segment list becomes an empty one; every other field is kept as given |
| SegmentationResults.Create | app/src/main/java/com/example/miminor/segmentation/SegmentationResult.java:27-29 | the public constructor records no time and no error message |
| SegmentationResults.Success | app/src/main/java/com/example/miminor/segmentation/SegmentationResult.java:31-33 | a success result is successful, with the given time, no error and no bitmap |
| SegmentationResults.Error | app/src/main/java/com/example/miminor/segmentation/SegmentationResult.java:35-37 | an error result is unsuccessful, has no segments and no time, and keeps the message |
| SegmentationResults.FindIn | app/src/main/java/com/example/miminor/segmentation/SegmentationResult.java:63-68 | a hit of the backward scan is a segment that contains the point |
| SegmentationResults.FindInSpec | app/src/main/java/com/example/miminor/segmentation/SegmentationResult.java:62-70 | the backward scan finds nothing exactly when no segment contains the point, and otherwise the last segment that does |
| SegmentationResults.FindSegmentAtSpec | app/src/main/java/com/example/miminor/segmentation/SegmentationResult.java:62-70 | findSegmentAt returns null exactly when no segment contains the point, and otherwise the topmost (last) segment that does |
| SegmentationResults.SegmentCount | app/src/main/java/com/example/miminor/segmentation/SegmentationResult.java:72-74 | the count is the number of segments held |
| ImageSegments.RowCount | app/src/main/java/com/example/miminor/segmentation/ImageSegment.java:68-73 | the opaque pixels of a row are at most its width |
| ImageSegments.OpaqueCount | app/src/main/java/com/example/miminor/segmentation/ImageSegment.java:66-75 | the opaque pixels of a mask are at most its width times its height |
| ImageSegments.RowCountExtremes | app/src/main/java/com/example/miminor/segmentation/ImageSegment.java:68-73 | a fully opaque row counts in full and a fully transparent one not at all |
| ImageSegments.OpaqueCountExtremes | app/src/main/java/com/example/miminor/segmentation/ImageSegment.java:66-75 | a fully opaque mask counts every pixel and a fully transparent one none |
| ImageSegments.ImageSegment.constructor | app/src/main/java/com/example/miminor/segmentation/ImageSegment.java:21-27 | a new segment holds the given id, bounds, mask, colour and confidence, and no contour yet |
| ImageSegments.ImageSegment.SetContourPoints | app/src/main/java/com/example/miminor/segmentation/ImageSegment.java:29-31 | only the contour is replaced |
| ImageSegments.ImageSegment.GetContour | app/src/main/java/com/example/miminor/segmentation/ImageSegment.java:53-55 | the contour is never null: empty while none is set, otherwise the list set |
| ImageSegments.ImageSegment.GetArea | app/src/main/java/com/example/miminor/segmentation/ImageSegment.java:61-76 | without a mask the area is the bounds' width times height; with one it is the number of mask pixels whose alpha exceeds 128, at most the mask's size |
| ImageSegments.ContainsPointSpec | app/src/main/java/com/example/miminor/segmentation/ImageSegment.java:57-59 | a point is in a segment exactly when it is inside the half-open bounds, so an empty rectangle contains nothing |
| ImageSegments.ContourLifecycle | app/src/main/java/com/example/miminor/segmentation/ImageSegment.java:29-31 | a new segment reports an empty contour, and after setContourPoints exactly the list set |
| DualModeEngine.ModeKind | app/src/main/java/com/example/miminor/segmentation/DualModeSegmentationEngine.java:66-70 | streaming mode runs the SLIC segmenter and precision mode the contour segmenter, and nothing else |
| DualModeEngine.CacheWindow | app/src/main/java/com/example/miminor/segmentation/DualModeSegmentationEngine.java:157-161 | a stored result is served for less than two seconds after it was stored, stays stale once stale, and an empty slot is never served |
| DualModeEngine.RowFrom | app/src/main/java/com/example/miminor/segmentation/DualModeSegmentationEngine.java:96-107 | the totals of one window row stay within 255 per counted pixel in each channel |
| DualModeEngine.WindowSums | app/src/main/java/com/example/miminor/segmentation/DualModeSegmentationEngine.java:95-108 | the window totals stay within 255 per counted pixel in each channel |
| DualModeEngine.MeanIsByte | app/src/main/java/com/example/miminor/segmentation/DualModeSegmentationEngine.java:112-114 | each integer mean of such totals is a channel byte, so Color.rgb gets valid components |
| DualModeEngine.RowCounts | app/src/main/java/com/example/miminor/segmentation/DualModeSegmentationEngine.java:96-107 | a row never loses a counted pixel, counts every offset that lies on the bitmap, and adds at most one pixel per offset |
| DualModeEngine.WindowCountBound | app/src/main/java/com/example/miminor/segmentation/DualModeSegmentationEngine.java:95-108 | the window counts at most (2 radius + 1) squared pixels |
| DualModeEngine.WindowCountsCentre | app/src/main/java/com/example/miminor/segmentation/DualModeSegmentationEngine.java:95-108 | a window around a point on the bitmap counts at least that point |
| DualModeEngine.RowExact | app/src/main/java/com/example/miminor/segmentation/DualModeSegmentationEngine.java:96-107 | a row lying wholly on the bitmap counts every offset |
| DualModeEngine.WindowExact | app/src/main/java/com/example/miminor/segmentation/DualModeSegmentationEngine.java:95-108 | a window lying wholly on the bitmap counts exactly (2 radius + 1) squared pixels |
| DualModeEngine.RowUniform | app/src/main/java/com/example/miminor/segmentation/DualModeSegmentationEngine.java:96-107 | on a window of one colour, each channel total of a row is that channel times the count |
| DualModeEngine.ProportionalStep | app/src/main/java/com/example/miminor/segmentation/DualModeSegmentationEngine.java:101-105 | adding a pixel of the window's colour keeps the totals proportional to the count |
| DualModeEngine.WindowUniform | app/src/main/java/com/example/miminor/segmentation/DualModeSegmentationEngine.java:95-108 | on a window of one colour, every channel total is that channel times the count |
| DualModeEngine.ColorAnalysisSpec | app/src/main/java/com/example/miminor/segmentation/DualModeSegmentationEngine.java:88-128 | null exactly for a point off the bitmap or a negative radius; otherwise the opaque colour of the truncated channel means over the pixels that lie on the bitmap (all (2 radius + 1) squared of them when the window fits), its OKLAB colour, the mode's metric name and an accuracy of 0 |
| DualModeEngine.UniformWindowColor | app/src/main/java/com/example/miminor/segmentation/DualModeSegmentationEngine.java:93-123 | a window of one colour reports exactly that colour |
| DualModeEngine.WindowTotals | app/src/main/java/com/example/miminor/segmentation/DualModeSegmentationEngine.java:93-108 | the nested loops compute the window totals and count |
| DualModeEngine.DualModeSegmentationEngine.constructor | app/src/main/java/com/example/miminor/segmentation/DualModeSegmentationEngine.java:32-40 | a new engine is in streaming mode with nothing cached and no buffer pool |
| DualModeEngine.DualModeSegmentationEngine.IsCacheValid | app/src/main/java/com/example/miminor/segmentation/DualModeSegmentationEngine.java:157-161 | the cache is valid exactly when a result is stored and it is younger than two seconds |
| DualModeEngine.DualModeSegmentationEngine.InvalidateCache | app/src/main/java/com/example/miminor/segmentation/DualModeSegmentationEngine.java:163-166 | the cached result and its timestamp are cleared; mode and pool are untouched |
| DualModeEngine.DualModeSegmentationEngine.SetMode | app/src/main/java/com/example/miminor/segmentation/DualModeSegmentationEngine.java:45-50 | the mode is set; the cache is cleared exactly when the mode changes |
| DualModeEngine.DualModeSegmentationEngine.InitBufferPool | app/src/main/java/com/example/miminor/segmentation/DualModeSegmentationEngine.java:147-155 | without a pool, or when the next pooled bitmap's width differs, the old pool is cleared and a new empty pool of the bitmap's size replaces it; otherwise the pool stays, minus the bitmap the width probe took out |
| DualModeEngine.DualModeSegmentationEngine.Cleanup | app/src/main/java/com/example/miminor/segmentation/DualModeSegmentationEngine.java:168-174 | the cache is cleared, every pooled handle is freed and the pool is dropped |
| DualModeEngine.DualModeSegmentationEngine.Segment | app/src/main/java/com/example/miminor/segmentation/DualModeSegmentationEngine.java:55-81 | a fresh cached result is returned unchanged; otherwise the mode's segmenter analyses the bitmap and a successful result is cached with its time |
| DualModeEngine.DualModeSegmentationEngine.AnalyzeColor | app/src/main/java/com/example/miminor/segmentation/DualModeSegmentationEngine.java:88-128 | the window loops and the means give the colour analysis of the current mode |
| BufferPools.OfferSpec | app/src/main/java/com/example/miminor/utils/BufferPool.java:37-43 | a release keeps the pool within five handles, never disturbs what is queued, and queues the handle at the back exactly when there was room |
| BufferPools.OfferOrder | app/src/main/java/com/example/miminor/utils/BufferPool.java:29-43 | handles come out in the order they were released (first in, first out) |
| BufferPools.BufferPool.constructor | app/src/main/java/com/example/miminor/utils/BufferPool.java:22-27 | a new pool has the given bitmap size and two empty free lists |
| BufferPools.BufferPool.AcquireMat | app/src/main/java/com/example/miminor/utils/BufferPool.java:29-35 | the oldest pooled Mat is handed out and removed, or a new one when the pool is empty; the bitmap pool is untouched |
| BufferPools.BufferPool.ReleaseMat | app/src/main/java/com/example/miminor/utils/BufferPool.java:37-43 | null is ignored; a Mat is queued while the pool holds fewer than five, and released at once otherwise |
| BufferPools.BufferPool.AcquireBitmap | app/src/main/java/com/example/miminor/utils/BufferPool.java:45-51 | the oldest pooled bitmap is handed out and removed, or a new bitmap of the pool's size, which fails exactly when a side is not positive |
| BufferPools.BufferPool.ReleaseBitmap | app/src/main/java/com/example/miminor/utils/BufferPool.java:53-59 | null is ignored; a bitmap is queued while the pool holds fewer than five, and recycled at once otherwise |
| BufferPools.BufferPool.Clear | app/src/main/java/com/example/miminor/utils/BufferPool.java:61-71 | every pooled Mat is released, every pooled bitmap recycled, and both lists are emptied |
| BufferPools.MatPoolIsFifo | app/src/main/java/com/example/miminor/utils/BufferPool.java:29-43 | two Mats released into an empty pool are acquired back in release order, neither of them freed |
| FrameRateControllers.TargetFrameTime | app/src/main/java/com/example/miminor/utils/FrameRateController.java:22 | the target frame time is the largest whole number of milliseconds that fits the rate into one second (Java's truncating division), and 0 above 1000 frames per second |
| FrameRateControllers.QuotientOfThousand | app/src/main/java/com/example/miminor/utils/FrameRateController.java:22 | the quotient of 1000 by a positive rate lies in [0, 1000] and is the floor of 1000 / rate |
| FrameRateControllers.DueMonotone | app/src/main/java/com/example/miminor/utils/FrameRateController.java:28-38 | a frame that is due stays due as time goes on |
| FrameRateControllers.GateAfterStart | app/src/main/java/com/example/miminor/utils/FrameRateController.java:28-45 | after a frame starts, the next one is dropped exactly while less than the target frame time has passed |
| FrameRateControllers.FrameRateController.constructor | app/src/main/java/com/example/miminor/utils/FrameRateController.java:12-23 | a new controller has the target frame time of its rate and all timings and counters at zero |
| FrameRateControllers.FrameRateController.ShouldProcessFrame | app/src/main/java/com/example/miminor/utils/FrameRateController.java:28-38 | a frame is processed exactly when it is due; a dropped frame is counted, and nothing else changes |
| FrameRateControllers.FrameRateController.OnFrameStart | app/src/main/java/com/example/miminor/utils/FrameRateController.java:43-45 | the processed frame's start time is recorded and nothing else changes |
| FrameRateControllers.FrameRateController.OnFrameEnd | app/src/main/java/com/example/miminor/utils/FrameRateController.java:50-59 | the duration since the start is recorded and one more frame counts as processed |
| FrameRateControllers.FrameRateController.GetLastFrameDuration | app/src/main/java/com/example/miminor/utils/FrameRateController.java:61-63 | the duration of the last processed frame |
| FrameRateControllers.FrameRateController.Reset | app/src/main/java/com/example/miminor/utils/FrameRateController.java:65-68 | both counters return to zero while the timing of the last frame is kept |
| FrameRateControllers.ProcessOneFrame | app/src/main/java/com/example/miminor/utils/FrameRateController.java:28-59 | a frame that passes the gate is timed and counted, after which the next frame passes exactly when the target time has elapsed since the start |
| SegmentationCaches.ToJavaInt | app/src/main/java/com/example/miminor/utils/SegmentationCache.java:20 | the (int) cast keeps the value modulo 2 to the 32 in the signed int range, and leaves an int value unchanged |
| SegmentationCaches.CacheSizeSpec | app/src/main/java/com/example/miminor/utils/SegmentationCache.java:19-21 | for a heap limit below 2 TiB the capacity is an eighth of the heap in KB capped at 10 MB: never negative, and capped exactly from an 80 MiB heap on |
| SegmentationCaches.CacheSizeUnlimitedHeap | app/src/main/java/com/example/miminor/utils/SegmentationCache.java:20-21 | a runtime whose limit is Long.MAX_VALUE wraps the KB count to -1 and gets a capacity of 0 |
| SegmentationCaches.ExpiryMonotone | app/src/main/java/com/example/miminor/utils/SegmentationCache.java:96-98 | an entry stays expired as time goes on, and is not expired at exactly 60 seconds of age |
| SegmentationCaches.LookupSpec | app/src/main/java/com/example/miminor/utils/SegmentationCache.java:49-58 | get answers with the stored data exactly when the key is present and at most 60 seconds old, and once expired it misses from then on |
| SegmentationCaches.PutThenGet | app/src/main/java/com/example/miminor/utils/SegmentationCache.java:63-65 | a put that is not evicted is read back for 60 seconds and missed afterwards; other keys are unaffected unless evicted |
| SegmentationCaches.KeyTail | app/src/main/java/com/example/miminor/utils/SegmentationCache.java:37-43 | the part of the key after the height starts with an underscore |
| SegmentationCaches.DigitsSplit | app/src/main/java/com/example/miminor/utils/SegmentationCache.java:37-43 | two digit strings each followed by a non-digit split a key in the same place |
| SegmentationCaches.DecimalInjective | app/src/main/java/com/example/miminor/utils/SegmentationCache.java:37-43 | different sizes print as different decimals |
| SegmentationCaches.KeySeparatesSizes | app/src/main/java/com/example/miminor/utils/SegmentationCache.java:36-44 | bitmaps of different sizes never share a cache key |
| SegmentationCaches.SegmentationCache.constructor | app/src/main/java/com/example/miminor/utils/SegmentationCache.java:19-31 | a new cache has the capacity computed from the heap limit, no entries and both counters at zero |
| SegmentationCaches.SegmentationCache.Get | app/src/main/java/com/example/miminor/utils/SegmentationCache.java:49-58 | the answer is the lookup at this time; a hit counts a hit and a miss a miss, and an expired entry is left in place |
| SegmentationCaches.SegmentationCache.Put | app/src/main/java/com/example/miminor/utils/SegmentationCache.java:63-65 | the entry is stored under the key with this time, the evicted keys are dropped, and the counters are kept |
| SegmentationCaches.SegmentationCache.Clear | app/src/main/java/com/example/miminor/utils/SegmentationCache.java:70-74 | no entries are left and both counters are zero |
| AndroidColor.Argb | app/src/main/java/com/example/miminor/utils/ColorBlindnessSimulator.java:72 | Color.argb packs four channel bytes into a Java int whose 32-bit pattern is alpha, red, green, blue from high byte to low |
| AndroidColor.ArgbUnpacks | app/src/main/java/com/example/miminor/utils/ColorBlindnessSimulator.java:60-72 | each byte of the packed pattern is the channel put there |
| AndroidColor.ArgbChannels | app/src/main/java/com/example/miminor/utils/ColorBlindnessSimulator.java:60-72 | Color.alpha, red, green and blue read back the channels Color.argb packed |
| AndroidColor.ChannelsArgb | app/src/main/java/com/example/miminor/utils/ColorBlindnessSimulator.java:60-72 | packing the four channels of any int colour gives that colour back |
| AndroidColor.Rgb | app/src/main/java/com/example/miminor/segmentation/DualModeSegmentationEngine.java:123 | Color.rgb gives an opaque colour with the given red, green and blue |
| AndroidColor.WhiteChannels | app/src/main/java/com/example/miminor/utils/ColorInfo.java:33 | Color.WHITE is opaque with every channel at 255 |
| OklabColor.ChromaZeroIff | app/src/main/java/com/example/miminor/utils/OklabColor.java:24-26 | chroma is never negative and is zero exactly for a colour with a and b both zero |
| OklabColor.ChromaBelow | app/src/main/java/com/example/miminor/utils/OklabColor.java:24-26 | chroma is below k exactly when a squared plus b squared is below k squared |
| OklabColor.HueRange | app/src/main/java/com/example/miminor/utils/OklabColor.java:32-35 | the hue is an angle in degrees in [0, 360) |
| OklabColor.ChromaHueIgnoreL | app/src/main/java/com/example/miminor/utils/OklabColor.java:24-35 | chroma and hue do not depend on the lightness L |
| ColorInfo.HexCodeRoundTrip | app/src/main/java/com/example/miminor/utils/ColorInfo.java:23 | the hex code is '#' followed by six hex digits whose pairs read back as red, green and blue |
| ColorInfo.LinearizeRange | app/src/main/java/com/example/miminor/utils/ColorInfo.java:49-51 | the WCAG linearisation maps a channel in [0, 1] into [0, 1] |
| ColorInfo.LuminanceRange | app/src/main/java/com/example/miminor/utils/ColorInfo.java:44-54 | the relative luminance of any colour lies in [0, 1] |
| ColorInfo.WhiteLuminance | app/src/main/java/com/example/miminor/utils/ColorInfo.java:44-54 | white has luminance 1 |
| ColorInfo.RatioAgainstWhite | app/src/main/java/com/example/miminor/utils/ColorInfo.java:35-38 | against luminance 1 the ratio is 1.05 / (L + 0.05), between 1 and 21 |
| ColorInfo.ContrastBounds | app/src/main/java/com/example/miminor/utils/ColorInfo.java:31-39 | the contrast against white always lies in [1, 21] and is 1.05 / (luminance + 0.05) |
| ColorInfo.MakeColorInfo | app/src/main/java/com/example/miminor/utils/ColorInfo.java:17-25 | the channels are bytes, the hex code has seven characters and the contrast lies in [1, 21] |
| ColorInfo.MakeColorInfoChannels | app/src/main/java/com/example/miminor/utils/ColorInfo.java:17-25 | the channels and the hex code of Color.argb(a, r, g, b) are r, g and b |
| ColorInfo.RatingMonotone | app/src/main/java/com/example/miminor/utils/ColorInfo.java:89-99 | a higher contrast never gets a lower rating; AAA from 7, AA from 4.5 and A from 3, exactly |
| ColorInfo.RgbStringFields | app/src/main/java/com/example/miminor/utils/ColorInfo.java:69-71 | each field of the RGB string is the unsigned decimal numeral of its channel and reads back as that channel |
| ColorInfo.ToString | app/src/main/java/com/example/miminor/utils/ColorInfo.java:101-104 | the text opens with the colour name and " (", the hex code follows, and the text closes with ")" |
| ColorInfo.ToStringHexAt | app/src/main/java/com/example/miminor/utils/ColorInfo.java:101-104 | the characters after the name and " (" are the hex code's, digit pair by digit pair |
| ColorInfo.ToStringReadsBack | app/src/main/java/com/example/miminor/utils/ColorInfo.java:101-104 | the text of the ColorInfo of Color.argb(a, r, g, b) starts with the name and its three hex digit pairs after "name (#" read back as r, g and b |
| ColorNameMapper.AddColor | app/src/main/java/com/example/miminor/utils/ColorNameMapper.java:186-188 | an addition puts the name into the palette with the OKLAB colour of its RGB triple, replacing an earlier entry of that name and leaving every other name alone |
| ColorNameMapper.PaletteKeys | app/src/main/java/com/example/miminor/utils/ColorNameMapper.java:15-184 | the palette's names are exactly the names added |
| ColorNameMapper.PaletteLastWins | app/src/main/java/com/example/miminor/utils/ColorNameMapper.java:15-188 | when a name is added more than once, the last addition decides its colour |
| ColorNameMapper.DistinctNames | app/src/main/java/com/example/miminor/utils/ColorNameMapper.java:15-188 | the palette names in order of first addition, with no name twice |
| ColorNameMapper.DistinctNamesMembers | app/src/main/java/com/example/miminor/utils/ColorNameMapper.java:15-188 | a name is listed exactly when it was added |
| ColorNameMapper.DistinctNamesEnumerate | app/src/main/java/com/example/miminor/utils/ColorNameMapper.java:15-188 | the distinct names list every key of the palette built from the same additions once and nothing else |
| ColorNameMapper.PaletteEnumerated | app/src/main/java/com/example/miminor/utils/ColorNameMapper.java:212 | COLOR_MAP_OKLAB, as the static initialiser builds it, has an iteration order meeting the Enumerates precondition of the naming operations |
| ColorNameMapper.GreyNameBuckets | app/src/main/java/com/example/miminor/utils/ColorNameMapper.java:201-207 | an achromatic colour is named black below lightness 0.2, white above 0.9, dark grey in [0.2, 0.4), light grey in (0.7, 0.9] and grey in [0.4, 0.7] |
| ColorNameMapper.ClosestScanArgMin | app/src/main/java/com/example/miminor/utils/ColorNameMapper.java:209-219 | the scan keeps the unknown name when no palette colour is closer than Float.MAX_VALUE; otherwise it picks the first palette entry in iteration order whose distance is minimal |
| ColorNameMapper.PrefixContains | app/src/main/java/com/example/miminor/utils/ColorNameMapper.java:221-224 | a prefixed name contains its prefix |
| ColorNameMapper.WithModifierMid | app/src/main/java/com/example/miminor/utils/ColorNameMapper.java:221-227 | for lightness in [0.25, 0.85] the nearest name is returned unchanged |
| ColorNameMapper.WithModifierShape | app/src/main/java/com/example/miminor/utils/ColorNameMapper.java:221-227 | the name is unchanged or gets a lower-cased "dark" or "light" prefix, and a very dark (light) colour's name always contains the dark (light) marker |
| ColorNameMapper.WithModifierIdempotent | app/src/main/java/com/example/miminor/utils/ColorNameMapper.java:221-227 | applying the brightness modifier twice changes nothing more |
| ColorNameMapper.GetColorName | app/src/main/java/com/example/miminor/utils/ColorNameMapper.java:194-228 | the method's grey test, palette loop and modifier yield the colour name |
| ColorNameMapper.ColorNameNearest | app/src/main/java/com/example/miminor/utils/ColorNameMapper.java:194-228 | an achromatic colour gets its grey bucket; a chromatic mid-lightness colour gets a palette name no palette colour is nearer than, or the unknown name when every distance is at least Float.MAX_VALUE |
| ColorNameMapper.BrightnessMonotone | app/src/main/java/com/example/miminor/utils/ColorNameMapper.java:241-252 | a lighter colour never gets a darker brightness word, and each word starts exactly above its threshold 0.25, 0.45, 0.65 or 0.85 |
| ColorNameMapper.GetColorDescription | app/src/main/java/com/example/miminor/utils/ColorNameMapper.java:233-255 | the description is the colour name, a comma, the brightness word of its lightness and the word "shade" |
| ColorNameMapper.DescriptionAgreesWithName | app/src/main/java/com/example/miminor/utils/ColorNameMapper.java:221-252 | for a chromatic colour the description and the name agree: very dark goes with a dark name and very light with a light one |
| ColorConverter.GammaToLinearRange | app/src/main/java/com/example/miminor/utils/ColorConverter.java:195-201 | the sRGB decoding maps a channel in [0, 1] into [0, 1] |
| ColorConverter.LinearGammaInverse | app/src/main/java/com/example/miminor/utils/ColorConverter.java:195-209 | on the linear segment, encoding and then decoding gives the value back |
| ColorConverter.GammaLinearInverse | app/src/main/java/com/example/miminor/utils/ColorConverter.java:195-209 | on the linear segment, decoding and then encoding gives the value back |
| ColorConverter.CbrtOdd | app/src/main/java/com/example/miminor/utils/ColorConverter.java:211-217 | the signed cube root is odd, keeps the sign of its argument, and is zero at zero |
| ColorConverter.Clamp | app/src/main/java/com/example/miminor/utils/ColorConverter.java:219-221 | the result lies in [0, 255], is the value itself inside that range, and the nearer end outside it |
| ColorConverter.BlackIsOrigin | app/src/main/java/com/example/miminor/utils/ColorConverter.java:23-41 | black maps to the OKLAB origin |
| ColorConverter.EncodeChannel | app/src/main/java/com/example/miminor/utils/ColorConverter.java:60-62 | every encoded channel is a byte |
| ColorConverter.OklabToRgb | app/src/main/java/com/example/miminor/utils/ColorConverter.java:47-65 | every converted colour has three channels in [0, 255] |
| ColorConverter.OklabDistanceMetric | app/src/main/java/com/example/miminor/utils/ColorConverter.java:76-81 | the OKLAB distance is never negative, symmetric, and zero exactly between equal colours |
| ColorConverter.BlackLab | app/src/main/java/com/example/miminor/utils/ColorConverter.java:102-124 | black maps to CIELAB L = a = b = 0 |
| ColorConverter.HuePrimeRange | app/src/main/java/com/example/miminor/utils/ColorConverter.java:141-145 | each primed hue is an angle in [0, 2 pi), and 0 when a' and b are both zero |
| ColorConverter.HueDifferenceWrap | app/src/main/java/com/example/miminor/utils/ColorConverter.java:150-157 | the hue difference is 0 when a primed chroma is 0, and otherwise h2' - h1' brought into [-pi, pi] by at most one turn |
| ColorConverter.HueDifferenceAntisymmetric | app/src/main/java/com/example/miminor/utils/ColorConverter.java:150-157 | swapping the colours negates the hue difference |
| ColorConverter.MeanHueMidpoint | app/src/main/java/com/example/miminor/utils/ColorConverter.java:164-173 | for chromatic pairs the mean hue is an angle within a quarter turn of both hues, and halves their sum up to one turn |
| ColorConverter.MeanHueSymmetric | app/src/main/java/com/example/miminor/utils/ColorConverter.java:164-173 | the mean hue does not depend on the order of the colours |
| ColorConverter.ChromaRatio | app/src/main/java/com/example/miminor/utils/ColorConverter.java:133-134 | the ratio sqrt(C^7 / (C^7 + 25^7)) lies in [0, 1] for every non-negative chroma |
| ColorConverter.HueWeightBounds | app/src/main/java/com/example/miminor/utils/ColorConverter.java:175-178 | the hue weighting T lies in [0.07, 1.93] |
| ColorConverter.LightnessScale | app/src/main/java/com/example/miminor/utils/ColorConverter.java:180 | S_L is at least 1 |
| ColorConverter.ChromaScale | app/src/main/java/com/example/miminor/utils/ColorConverter.java:181 | S_C is at least 1 for a non-negative mean chroma |
| ColorConverter.HueScale | app/src/main/java/com/example/miminor/utils/ColorConverter.java:182 | S_H is at least 1, so no term is divided by a scale below 1 |
| ColorConverter.Prime | app/src/main/java/com/example/miminor/utils/ColorConverter.java:135-145 | a primed colour has a non-negative chroma and a hue angle in [0, 2 pi) |
| ColorConverter.PrimedMeans | app/src/main/java/com/example/miminor/utils/ColorConverter.java:161-173 | the mean primed chroma is non-negative |
| ColorConverter.ScalesOf | app/src/main/java/com/example/miminor/utils/ColorConverter.java:180-182 | all three scales are at least 1 |
| ColorConverter.ChromaCorrectionSymmetric | app/src/main/java/com/example/miminor/utils/ColorConverter.java:130-134 | the chroma correction G does not depend on the order of the colours |
| ColorConverter.DeltasAntisymmetric | app/src/main/java/com/example/miminor/utils/ColorConverter.java:147-159 | swapping the colours negates the lightness, chroma and hue deltas |
| ColorConverter.MeansSymmetric | app/src/main/java/com/example/miminor/utils/ColorConverter.java:161-173 | the means do not depend on the order of the colours |
| ColorConverter.WeightedEven | app/src/main/java/com/example/miminor/utils/ColorConverter.java:187-192 | negating every delta leaves the weighted sum unchanged |
| ColorConverter.CombineSymmetric | app/src/main/java/com/example/miminor/utils/ColorConverter.java:147-192 | the combined difference of two primed colours is symmetric |
| ColorConverter.Ciede2000Symmetric | app/src/main/java/com/example/miminor/utils/ColorConverter.java:126-193 | the CIEDE2000 difference is symmetric |
| ColorConverter.Ciede2000SelfZero | app/src/main/java/com/example/miminor/utils/ColorConverter.java:126-193 | a colour differs from itself by 0 |
| ColorConverter.SelfDeltasZero | app/src/main/java/com/example/miminor/utils/ColorConverter.java:147-159 | the deltas of a colour against itself are all 0 |
| ColorConverter.WeightedZero | app/src/main/java/com/example/miminor/utils/ColorConverter.java:187-192 | zero deltas give zero weighted difference |
| ColorConverter.Ciede2000DistanceProperties | app/src/main/java/com/example/miminor/utils/ColorConverter.java:92-100 | ciede2000Distance is symmetric, and 0 from a colour to itself |
| ColorBlindness.TransformationMatrix | app/src/main/java/com/example/miminor/utils/ColorBlindnessSimulator.java:78-145 | every vision type, NORMAL and the default included, selects a 3x3 matrix of channel weights |
| ColorBlindness.MatricesRowStochastic | app/src/main/java/com/example/miminor/utils/ColorBlindnessSimulator.java:78-145 | every row of every simulation matrix has non-negative weights summing to 1, so a grey level is preserved |
| ColorBlindness.ApplyColorMatrix | app/src/main/java/com/example/miminor/utils/ColorBlindnessSimulator.java:150-160 | the fresh three-element result is the matrix-vector product of the weights and the channel fractions |
| ColorBlindness.TimesInUnit | app/src/main/java/com/example/miminor/utils/ColorBlindnessSimulator.java:150-160 | a row-stochastic matrix maps channel fractions in [0, 1] to fractions in [0, 1], so the later clamp never has to act on a value outside the byte range |
| ColorBlindness.Fractions | app/src/main/java/com/example/miminor/utils/ColorBlindnessSimulator.java:60-65 | the red, green and blue channels over 255 are three fractions in [0, 1] |
| ColorBlindness.ToByte | app/src/main/java/com/example/miminor/utils/ColorBlindnessSimulator.java:165-167 | scaling by 255, truncating toward zero and clamping gives a channel value in 0..255 |
| ColorBlindness.TransformWith | app/src/main/java/com/example/miminor/utils/ColorBlindnessSimulator.java:59-73 | the colour produced for a given matrix is the transformed colour of the specification |
| ColorBlindness.TransformColor | app/src/main/java/com/example/miminor/utils/ColorBlindnessSimulator.java:59-73 | transformColor agrees with the transformation of the type's own matrix |
| ColorBlindness.TransformedChannels | app/src/main/java/com/example/miminor/utils/ColorBlindnessSimulator.java:59-73 | alpha is carried over unchanged and each new channel is 255 times the weighted channel fractions, truncated toward zero |
| ColorBlindness.ByteRoundTrip | app/src/main/java/com/example/miminor/utils/ColorBlindnessSimulator.java:65-70 | a channel divided by 255 and scaled back comes out as the same channel value |
| ColorBlindness.NormalIsIdentity | app/src/main/java/com/example/miminor/utils/ColorBlindnessSimulator.java:136-143 | the identity matrix of normal vision gives back every colour unchanged |
| ColorBlindness.AchromatopsiaIsGrey | app/src/main/java/com/example/miminor/utils/ColorBlindnessSimulator.java:128-134 | with the monochrome matrix all three channels come out equal and alpha is kept |
| ColorBlindness.TransformRow | app/src/main/java/com/example/miminor/utils/ColorBlindnessSimulator.java:46-50 | every pixel of row y in the destination is the transformed source pixel and every other row is untouched |
| ColorBlindness.ApplyColorBlindnessFilter | app/src/main/java/com/example/miminor/utils/ColorBlindnessSimulator.java:36-54 | a null source or normal vision returns the source itself; otherwise a fresh bitmap of the same size holds the transformed colour of every source pixel |
| ColorBlindness.GetAdaptedColorName | app/src/main/java/com/example/miminor/utils/ColorBlindnessSimulator.java:172-176 | the name of the transformed colour followed by " (как воспринимается при " and the lower-cased display name of the type |
| ColorBlindness.SqRgbDistance | app/src/main/java/com/example/miminor/utils/ColorBlindnessSimulator.java:185-189 | the sum of squared channel differences is never negative |
| ColorBlindness.AreDistinguishable | app/src/main/java/com/example/miminor/utils/ColorBlindnessSimulator.java:181-193 | the answer is whether the Euclidean distance of the two transformed colours exceeds 50 |
| ColorBlindness.DistinguishableIff | app/src/main/java/com/example/miminor/utils/ColorBlindnessSimulator.java:181-193 | two colours are distinguishable exactly when their squared transformed distance exceeds 2500; the relation is symmetric and no colour is distinguishable from itself |

## Left out

- User interface: `MainActivity`, `SettingsActivity`, `SegmentOverlayView` and `ColorInfoDialog`. They hold camera and gallery I/O, touch mapping, drawing and text-to-speech, not engine logic.
- `PreferencesHelper`: a thin `SharedPreferences` wrapper with no logic of its own.
- OpenCV image operations are inputs of the model and are not computed. These are `pyrMeanShiftFiltering`, `GaussianBlur`, `Canny`, `cvtColor`, thresholding, morphology, `distanceTransform`, `watershed`, `findContours`, `boundingRect`, `contourArea`, `connectedComponents`, `floodFill`, `Core.mean` and `resize`. The model takes label images, contour facts, watershed labels, flood-fill masks and mean values instead.
- Memory management: `Mat.release()` and `Bitmap.recycle()` calls on temporaries are not modelled. This includes the resized bitmap in `resizeImage`. Only the buffer pool's releases and recycles are modelled, on the `Handles` flags.
- Floating point: Java `float` and `double` are exact reals. Rounding of `sensitivity / 50.0f`, of `hue + 360` and of the float constants (`0.05f`, `0.2f`, `Float.MAX_VALUE` and so on) is not modelled.
- Transcendental functions (`Math.sqrt`, `pow`, `cbrt`, `atan2`, `sin`, `cos`, `exp`) stay uninterpreted, because their values are not definable in Dafny's reals. Consequences:
  - only the laws in `Numerics` are used;
  - the numeric accuracy of the OKLAB matrices is not modelled;
  - the round trip `rgbToOklab` / `oklabToRgb` is not modelled;
  - the CIEDE2000 weighting terms T, S_L, S_C, S_H, R_T and G are modelled only structurally.
- Java `int` and `long` overflow is not modelled except where the model writes it out (`SegmentationCaches.ToJavaInt`, packed ARGB colours). Frame counters, hit and miss counters, the window sums of `analyzeColor` and the pixel counts of `getArea` are unbounded integers.
- `HashMap` iteration order:
  - In `ColorNameMapper` it is the input `order`, which lists every palette key once. The naming operations take any `palette` with such an `order`; the program's own palette is `ColorNameMapper.Palette`, and `ColorNameMapper.PaletteEnumerated` shows that `DistinctNames(ADDITIONS)` is such an order for it. The actual bucket order of Java's `HashMap` is not modelled, so a tie in distance may pick a different name.
  - In `SlicSegmenter` the label statistics are visited in ascending label order. This is the iteration order of a `HashMap` over small dense `Integer` keys.
  - That order and the visit of labels `1..numLabels-1` both rest on what `connectedComponents` guarantees: every label lies in `[0, numLabels)`. `SlicSegmenter.ConnectedRegions`, `SlicSegmenter.ExtractConnectedRegions` and `SlicSegmenter.ExtractRegions` require it (`LabelsInRange`). Under it, `SlicSegmenter.ComponentsAreEntries` shows that every statistics entry is visited.
- `LruCache`: its size accounting and least-recently-used eviction are not computed. Each `SegmentationCaches.SegmentationCache.Put` receives the set `evicted` of keys the eviction drops.
- `SegmentationCaches.SegmentationCache.constructor`: requires a positive capacity. The `IllegalArgumentException` that `LruCache` throws otherwise is not modelled as an outcome. The lemma `CacheSizeUnlimitedHeap` shows that a runtime reporting `Long.MAX_VALUE` as its heap limit reaches this case.
- `FrameRateControllers.FrameRateController.constructor`: requires a non-zero frame rate. The `ArithmeticException` of `1000 / 0` is not modelled as an outcome. `FrameRateControllers.TargetFrameTime` has the same precondition.
- `System.identityHashCode` in the cache key is the parameter `hashCode` of `SegmentationCaches.GenerateKey`.
- Clocks: `System.currentTimeMillis()` is the `now` parameter of every timed operation.
- Logging (`Log.d`, `SegmentationCache.logStats`, the frame statistics of `onFrameEnd`) is left out, since it has no effect on state. `toString` methods other than `ColorInfo.toString` are left out for the same reason.
- Concurrency is left out: the single-thread executor and any calls from several threads.
- The commented-out spatial-proximity merge branch of `mergeNearbyRegions` is left out, together with the unused `regionDistance` value feeding it.
- The `null` check on the HSV pixel in the seeded extractors is not modelled. It follows the bounds guard, which already makes the pixel exist.
