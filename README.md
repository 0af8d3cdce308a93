# Rice grain counting: a verified model of the combined detection pipeline

The repository counts rice grains in a photo by combining two methods. The
first is marker-based watershed segmentation. The second is a supplementary
pass over Canny edge contours, which recovers grains the watershed missed and
discards contours already covered by the opened foreground mask. The same
pipeline appears twice: `rice_detection_combined` in `rice_detector_cli.py`
returns `(len(contours), watershed_count, total_count)`, and
`rice_detection_combined` in `rice_detector.py` returns the annotated image
with a centred "Total Rice Grains: N" caption. The two bodies agree line for
line from the unknown band to the total, so one model covers both.

This project models the integer grid and counting logic the repository writes
itself:

- `Grids`: rasters as `seq<seq<int>>`, pixel sums and set-pixel counts.
- `Masks`: the saturating subtraction that gives the unknown band, bitwise AND
  of masks, the mask of one label, and the overlap ratio with its 0.55 cutoff,
  proved equal to an integer test.
- `Markers`: the seed map. The component labels are shifted by one into a new
  `array2`, then the unknown band is zeroed in place.
- `Boundaries`: `img.copy()` into an `array2`, and the in-place green painting
  of watershed boundary pixels.
- `Labels`: `np.unique` (ascending, distinct) and the filter to labels above 1.
- `Counting`: the two counting loops as methods with loop invariants, each
  proved against a specification function, and the numbering of the drawn
  tags.
- `Overlay`: the caption text (with `str(n)` and its inverse) and the
  integer placement arithmetic.
- `Pipeline`: the shared pipeline and both entry points.

The OpenCV calls whose source is not part of this model are inputs. The
morphology, distance transform, thresholds and `connectedComponents` give the
grids `opening`, `sureBg`, `sureFg` and `components`. `cv2.watershed` is the
function parameter `watershed`. `findContours` on a label mask, `moments` and
the filled-contour rasteriser `drawContours(..., -1)` are the fields of
`Counting.Vision`. The Canny edge contours are the sequence `edgeContours`.
`getTextSize` is the function parameter `textSize`.

## Model

| member | source | states |
|---|---|---|
| `Masks.SatSub` | rice_detector_cli.py:76 | `cv2.subtract` on one pixel saturates into 0..255: the plain difference when it fits, 0 when it is negative, 255 when it exceeds 255 |
| `Masks.Subtract` | rice_detector_cli.py:76 | `cv2.subtract(sure_bg, sure_fg)` has the operands' shape and only 8-bit pixels (the same line is rice_detector.py:56) |
| `Masks.UnknownBand` | rice_detector_cli.py:66-76 | with 0/255 inputs the unknown band is a 0/255 mask set exactly where `sure_bg` is set and `sure_fg` is not |
| `Masks.BitAnd` | rice_detector_cli.py:146 | the bitwise AND of two pixel values is at most either operand |
| `Masks.MaskBitAnd` | rice_detector_cli.py:146 | on 0/255 values the AND is 255 exactly when both are 255 |
| `Masks.AndBelow` | rice_detector_cli.py:146 | `cv2.bitwise_and(mask, opening_img)` is pointwise below both operands, so the overlap never exceeds the contour mask |
| `Masks.AndOfMasks` | rice_detector_cli.py:146 | the AND of two masks is the mask of the pixels set in both |
| `Masks.AndGrid` | rice_detector_cli.py:146 | `cv2.bitwise_and(mask, opening_img)` pixel by pixel; its shape, byte range and bounds are stated by `Masks.AndBelow`, its mask meaning by `Masks.AndOfMasks` |
| `Masks.RegionMask` | rice_detector_cli.py:110-111 | the mask of one marker id is 0/255 and set exactly on the pixels carrying that id |
| `Masks.OverlapRatio` | rice_detector_cli.py:149 | `np.sum(overlap) / np.sum(mask)` when the mask sum is positive, else 0; it lies in [0, 1] (`Masks.OverlapRatioBounds`) |
| `Masks.IsCandidate` | rice_detector_cli.py:152 | `overlap_ratio < 0.55`; `Masks.CandidateBySums` and `Masks.CandidateByCounts` restate it exactly in integers |
| `Grids.BinarySum` | rice_detector_cli.py:149 | `np.sum` of a 0/255 mask is 255 times its number of set pixels |
| `Masks.OverlapRatioBounds` | rice_detector_cli.py:149 | the overlap ratio is 0 when the filled mask sums to 0 and otherwise lies in [0, 1] |
| `Masks.RatioBelowCutoff` | rice_detector_cli.py:152 | for a positive denominator, `a / b < 0.55` holds iff `20 * a < 11 * b` |
| `Masks.CandidateBySums` | rice_detector_cli.py:149-152 | a contour passes the `< 0.55` test iff its mask sum is 0 or 20 × overlap sum < 11 × mask sum, so an empty mask always passes |
| `Masks.CandidateByCounts` | rice_detector_cli.py:149-152 | for 0/255 masks the same decision holds in pixel counts: empty, or 20 × overlapping pixels < 11 × mask pixels |
| `Masks.CoveredAnd` | rice_detector_cli.py:146 | ANDing a mask with an `opening_img` that covers all its set pixels gives the mask back |
| `Masks.CoveredIsNotCandidate` | rice_detector_cli.py:146-152 | a non-empty contour mask lying inside `opening_img` has ratio exactly 1 and is rejected as a duplicate |
| `Markers.ShiftLabels` | rice_detector_cli.py:82 | `markers + 1` is a new h×w array holding every component label plus one |
| `Markers.ClearUnknown` | rice_detector_cli.py:85 | `markers[unknown == 255] = 0` zeroes exactly the unknown pixels in place and leaves every other pixel unchanged (rice_detector.py:61) |
| `Markers.Prepared` | rice_detector_cli.py:79-85 | the seed map as a value, of the labels' shape: label + 1, or 0 where `unknown` is 255; its meaning is `Markers.PreparedMeaning` and `Markers.PreparedDistinct` |
| `Markers.PrepareMarkers` | rice_detector_cli.py:79-85 | the two steps produce a fresh seed map equal to the pixelwise rule "0 on the unknown band, label + 1 elsewhere" |
| `Markers.PreparedMeaning` | rice_detector_cli.py:66-85 | with 0/255 masks and component labels positive exactly on `sure_fg`, a seed is 0 exactly on sure background minus sure foreground. It is 1 on the background, and label + 1 ≥ 2 on every sure-foreground pixel, which is never zeroed (rice_detector.py:46-61) |
| `Markers.PreparedDistinct` | rice_detector_cli.py:79-85 | two sure-foreground pixels get the same seed iff they had the same component label, so distinct components keep distinct seeds |
| `Boundaries.CopyImage` | rice_detector_cli.py:95 | `img.copy()` is a fresh array equal to the input pixel by pixel |
| `Boundaries.PaintBoundaries` | rice_detector_cli.py:98 | exactly the pixels whose marker is −1 become (0, 255, 0) in place; every other pixel keeps its colour (rice_detector.py:69) |
| `Boundaries.Painted` | rice_detector_cli.py:95-98 | the painted copy as a value, of the image's shape: green where the marker is −1, the input pixel elsewhere; `Boundaries.PaintIdempotent` and `Boundaries.NoBoundaryNoPaint` hold of it |
| `Boundaries.CombinedResult` | rice_detector_cli.py:95-98 | the result image is a fresh array equal to the input with only the −1 pixels painted green (rice_detector.py:68-69) |
| `Boundaries.PaintIdempotent` | rice_detector_cli.py:98 | painting the boundaries twice gives the same image as painting once |
| `Boundaries.NoBoundaryNoPaint` | rice_detector_cli.py:95-98 | a marker map without −1 leaves the result equal to the input image |
| `Labels.Insert` | rice_detector_cli.py:105 | inserting a value into an ascending duplicate-free list keeps it ascending and adds exactly that value |
| `Labels.Unique` | rice_detector_cli.py:105 | `np.unique` is strictly ascending and holds exactly the values of its input |
| `Labels.AscendingUnique` | rice_detector_cli.py:105 | two strictly ascending lists with the same elements are equal, so the contract of `Unique` determines its result |
| `Labels.ValidMarkers` | rice_detector_cli.py:106 | the comprehension keeps exactly the values > 1, keeps ascending order, and is no longer than its input |
| `Labels.RegionLabels` | rice_detector_cli.py:105-106 | `valid_markers` is strictly ascending and duplicate-free. It holds exactly the labels > 1 present in the grown map, so −1, 0 and 1 never occur (rice_detector.py:77-78) |
| `Counting.Trunc` | rice_detector_cli.py:123-124 | `int()` of a moment quotient truncates: for x ≥ 0 it is the largest integer ≤ x, for x < 0 the smallest integer ≥ x |
| `Counting.TruncOdd` | rice_detector_cli.py:123-124 | truncation is symmetric around 0: `int(-x) == -int(x)` |
| `Counting.Centroid` | rice_detector_cli.py:123-124 | `(int(m10 / m00), int(m01 / m00))`, each coordinate truncated toward zero as `Counting.Trunc` states |
| `Counting.CountedMarkers` | rice_detector_cli.py:108-127 | the counted markers are a subsequence of `valid_markers`. They are exactly those whose contour list is non-empty and whose first contour has `m00 != 0`, in ascending order |
| `Counting.IsCounted` | rice_detector_cli.py:114-122 | a label is counted when its mask has a contour and the first contour's `m00` is non-zero; `Counting.CountedMarkers` selects exactly these |
| `Counting.ConsiderMarker` | rice_detector_cli.py:109-131 | one pass of the primary loop takes the count, centroids and tags of the first i labels to those of the first i+1. It adds label i exactly when its first contour exists and has non-zero `m00`. |
| `Counting.CountWatershed` | rice_detector_cli.py:101-131 | the primary loop's count is the number of counted markers, at most `len(valid_markers)`. `len(watershed_centroids) == watershed_count`, the k-th centroid belongs to the k-th counted marker, and the drawn numbers run 1..count at those centroids (rice_detector.py:73-103) |
| `Counting.AscendingCard` | rice_detector_cli.py:105 | a strictly ascending list has as many elements as its set, so `np.unique` output has no repeats |
| `Counting.WatershedCountIsCardinality` | rice_detector_cli.py:108-127 | `watershed_count` equals the size of the set of region labels whose first contour exists and has non-zero area |
| `Counting.PromotedContours` | rice_detector_cli.py:140-162 | the contours the supplementary loop counts are edge contours with `m00 != 0`, at most `len(contours)` of them |
| `Counting.PromotedArePromoted` | rice_detector_cli.py:149-158 | every counted edge contour passed the dedup: overlap ratio below 0.55 and non-zero area |
| `Counting.PromotedComplete` | rice_detector_cli.py:152-162 | conversely, every edge contour with overlap ratio below 0.55 and non-zero `m00` is counted |
| `Counting.IsPromoted` | rice_detector_cli.py:152-158 | an edge contour is promoted when its fill passes `overlap_ratio < 0.55` and its `m00` is non-zero; `Counting.PromotedArePromoted` and `Counting.PromotedComplete` show the loop counts exactly these |
| `Counting.TagPosition` | rice_detector_cli.py:165-166 | a supplementary grain's number is drawn at its centroid shifted by (20, 20); `Counting.CountContourOnly` places every tag there |
| `Counting.ConsiderContour` | rice_detector_cli.py:141-166 | one pass of the supplementary loop takes the count and tags of the first i contours to those of the first i+1. It adds contour i exactly when its ratio is below 0.55 and its `m00` is non-zero. |
| `Counting.CountContourOnly` | rice_detector_cli.py:134-166 | `contour_only_count` is the number of promoted contours and never exceeds `len(contours)`. The k-th drawn number is `watershed_count + k + 1`, placed 20 pixels right and down of that contour's centroid (rice_detector.py:107-134) |
| `Counting.FullCoverageAddsNothing` | rice_detector_cli.py:140-152 | when every edge contour is a non-empty region inside `opening_img`, the supplementary pass adds no grain |
| `Counting.EmptyMaskPromoted` | rice_detector_cli.py:149-158 | a contour whose filled mask is empty has ratio 0 and is counted whenever its `m00` is non-zero |
| `Pipeline.Detect` | rice_detector_cli.py:76-169 | the pipeline feeds the prepared seeds to the watershed and paints the −1 pixels of its output. Both loops run over the labels and edge contours. The primary tags are numbered 1..count at the region centroids. The supplementary tags are numbered from `watershed_count + 1` at each promoted contour's centroid + (20, 20). `total_count = watershed_count + contour_only_count` (rice_detector.py:56-138) |
| `Pipeline.RegionIds` | rice_detector_cli.py:105-106 | `valid_markers` holds each label above 1 occurring in the grown map, once, strictly ascending |
| `Pipeline.RiceDetectionCli` | rice_detector_cli.py:235 | the returned triple is `len(contours)` (before dedup), `watershed_count` and `total_count`. `watershed_count ≤ total_count ≤ watershed_count + len(contours)`, and `watershed_count ≤ len(valid_markers)` |
| `Pipeline.RiceDetectionApp` | rice_detector.py:56-169 | the web app returns the painted image, the caption text for the total, and the caption's placement |
| `Pipeline.BlankSceneCountsZero` | rice_detector_cli.py:105-169 | with no label above 1 in the grown map and no edge contour, the total is 0 |
| `Overlay.DecimalString` | rice_detector.py:144 | `str(n)` is a non-empty string of decimal digits without a leading zero |
| `Overlay.DecimalRoundTrip` | rice_detector.py:144 | reading the decimal text of n back gives n |
| `Overlay.DecimalInjective` | rice_detector.py:144 | different totals give different caption numbers |
| `Overlay.TotalText` | rice_detector.py:144 | the caption starts with exactly "Total Rice Grains: " and continues past it |
| `Overlay.TotalTextStatesTotal` | rice_detector.py:138-144 | what follows the caption prefix reads back as `total_count` |
| `Overlay.Place` | rice_detector.py:151-161 | `text_x` is the floor of half the slack (`2·x ≤ width − text_w < 2·x + 2`) and `text_y = 50 + text_h`; `Overlay.PlaceCentres` and `Overlay.PlaceBox` state the centring and the box |
| `Overlay.PlaceCentres` | rice_detector.py:151 | `text_x = (width - text_w) // 2` centres the text: the right margin equals the left one, or exceeds it by 1 when the slack is odd, also for text wider than the image |
| `Overlay.PlaceBox` | rice_detector.py:152-161 | the text's top edge is 50 pixels from the top of the image (`text_y = 50 + text_h`), and the background box extends the text box by exactly 10 on every side |

## Left out

- OpenCV internals are not re-implemented. These are `addWeighted`, `threshold`, `cvtColor`, `morphologyEx`, `distanceTransform`, `connectedComponents`, `watershed`, `Canny`, `findContours`, `moments`, `drawContours` and `getTextSize`. Their results are inputs: stage grids, function parameters, or the `Counting.Vision` record. Connectivity of components, immersion flooding and contour tracing are therefore not modelled.
- Floating-point steps before the unknown band are not modelled: the 0.60 contrast, the luma weights, and the `0.4 * dist_transform.max()` threshold. They only shape `sure_fg` and `opening_img`, which are inputs here.
- `Grids.Sum` is an unbounded integer. `np.sum` of a uint8 mask accumulates in the platform's unsigned integer, which is 32 bits under NumPy 1.x on Windows. That accumulator wraps above 16,843,009 set pixels (4,294,967,295 / 255) in one contour mask, and the wrap is not modelled. `Masks.OverlapRatioBounds` and `Masks.CandidateBySums` therefore hold only for masks below that size on such a platform.
- `Masks.OverlapRatio` and `Counting.Centroid` compute in exact rationals, not float64. The `< 0.55` test can differ from double rounding only when a ratio lies within one unit in the last place of 0.55. That needs mask sums far beyond any image size.
- `font_scale = width / 1000` is left out. The font scale enters `getTextSize`, which is the parameter `textSize`, and the caption's `putText`, which is not rasterised.
- Drawing into the result array is not modelled. The `putText` numbers and positions are recorded as `Counting.Tag`, and the caption's text and placement as `Overlay.Placement`. The `drawContours` outlines (rice_detector_cli.py:118 and 154, rice_detector.py:91 and 123) are neither drawn nor recorded. These include the outlines of a region's contours beyond the first, and of edge contours that pass the 0.55 test but have `m00 == 0`.
- The padded background box (rice_detector.py:154-161) is computed by the source but never drawn. The model computes it the same way and draws nothing.
- The matplotlib step-by-step figure, `cv2.imread`, the `__main__` printing and the Gradio interface are I/O and presentation, and are not modelled.
- The source reads image height and width from the arrays; the model takes them as parameters `h` and `w`.
