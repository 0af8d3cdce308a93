/** The two counting loops. The primary loop numbers every watershed region
    whose first external contour has a non-zero area; the supplementary loop
    numbers every Canny edge contour that the opened mask does not already
    cover (overlap ratio below 0.55) and that has a non-zero area, continuing
    the numbering after the primary count. */
module Counting {
  import opened Grids
  import opened Masks
  import opened Labels

  datatype Point = Point(x: int, y: int)

  /** An OpenCV contour: its points, in order. */
  type Contour = seq<Point>

  /** The three entries of `cv2.moments` the source reads. */
  datatype Moments = Moments(m00: real, m10: real, m01: real)

  /** The library calls the counting relies on, as functions:
      `findContours` of a binary mask (external contours only), `moments` of
      a contour, and `fill`, the mask `drawContours(zeros, [c], -1, 255, -1)`
      paints for a contour. */
  datatype Vision = Vision(
    findContours: Grid -> seq<Contour>,
    moments: Contour -> Moments,
    fill: Contour -> Grid)

  /** A number written on the result image at a position (`putText`). */
  datatype Tag = Tag(number: nat, at: Point)

  /** Python's `int(x)` on a float: truncation toward zero. */
  function Trunc(x: real): (n: int)
    ensures x >= 0.0 ==> n as real <= x < n as real + 1.0
    ensures x < 0.0 ==> n as real - 1.0 < x <= n as real
  {
    if x >= 0.0 then x.Floor else -((-x).Floor)
  }

  /** Truncation is symmetric around zero, unlike Dafny's `Floor`. */
  lemma TruncOdd(x: real)
    ensures Trunc(-x) == -Trunc(x)
  {
    if x > 0.0 {
      assert -x < 0.0;
    }
  }

  /** `(int(m10 / m00), int(m01 / m00))`, defined when the area is non-zero. */
  function Centroid(m: Moments): Point
    requires m.m00 != 0.0
  {
    Point(Trunc(m.m10 / m.m00), Trunc(m.m01 / m.m00))
  }

  // ---------------------------------------------------------------------
  // Primary count over the watershed regions

  /** The contours of the region labelled `id`. */
  function RegionContours(grown: Grid, id: int, cv: Vision): seq<Contour> {
    cv.findContours(RegionMask(grown, id))
  }

  /** A region is counted when it has a contour and the first one has a
      non-zero area. */
  predicate IsCounted(grown: Grid, id: int, cv: Vision) {
    var cs := RegionContours(grown, id, cv);
    |cs| > 0 && cv.moments(cs[0]).m00 != 0.0
  }

  /** The centroid of a counted region's first contour. */
  function RegionCentroid(grown: Grid, id: int, cv: Vision): Point
    requires IsCounted(grown, id, cv)
  {
    Centroid(cv.moments(RegionContours(grown, id, cv)[0]))
  }

  /** The labels the primary loop counts, in the order it meets them. */
  function CountedMarkers(ms: seq<int>, grown: Grid, cv: Vision): (r: seq<int>)
    ensures |r| <= |ms|
    ensures forall v :: v in r <==> v in ms && IsCounted(grown, v, cv)
    ensures StrictlyIncreasing(ms) ==> StrictlyIncreasing(r)
  {
    if ms == [] then []
    else
      var prev := CountedMarkers(ms[..|ms| - 1], grown, cv);
      var id := ms[|ms| - 1];
      assert ms == ms[..|ms| - 1] + [id];
      if IsCounted(grown, id, cv) then
        if StrictlyIncreasing(ms) then
          assert forall v :: v in prev ==> v < id by {
            forall v | v in prev ensures v < id {
              var k :| 0 <= k < |ms| - 1 && ms[k] == v;
            }
          }
          SnocIncreasing(prev, id);
          prev + [id]
        else
          prev + [id]
      else
        prev
  }

  /** Appending a value above every element keeps a sequence ascending. */
  lemma SnocIncreasing(t: seq<int>, a: int)
    requires StrictlyIncreasing(t) && forall v :: v in t ==> v < a
    ensures StrictlyIncreasing(t + [a])
  {
    forall i, j | 0 <= i < j < |t + [a]| ensures (t + [a])[i] < (t + [a])[j] {
      if j == |t| {
        var x := t[i];
        assert x in t;
      }
    }
  }

  /** The centroids of the counted regions, in the same order. */
  function RegionCentroids(counted: seq<int>, grown: Grid, cv: Vision): (r: seq<Point>)
    requires forall k :: 0 <= k < |counted| ==> IsCounted(grown, counted[k], cv)
    ensures |r| == |counted|
  {
    seq(|counted|, k requires 0 <= k < |counted| => RegionCentroid(grown, counted[k], cv))
  }

  /** One more label extends the counted list by itself or by nothing. */
  lemma CountedStep(ms: seq<int>, i: nat, grown: Grid, cv: Vision)
    requires i < |ms|
    ensures CountedMarkers(ms[..i + 1], grown, cv) ==
      CountedMarkers(ms[..i], grown, cv) + (if IsCounted(grown, ms[i], cv) then [ms[i]] else [])
  {
    assert ms[..i + 1][..i] == ms[..i];
  }

  /** A counted label appended to the list appends its centroid. */
  lemma RegionCentroidsSnoc(counted: seq<int>, id: int, grown: Grid, cv: Vision)
    requires forall k :: 0 <= k < |counted| ==> IsCounted(grown, counted[k], cv)
    requires IsCounted(grown, id, cv)
    ensures RegionCentroids(counted + [id], grown, cv) ==
      RegionCentroids(counted, grown, cv) + [RegionCentroid(grown, id, cv)]
  {
    var longer := counted + [id];
    assert forall k :: 0 <= k < |counted| ==> longer[k] == counted[k];
  }

  /** The body of the primary loop for the label at index `i`: the label's
      mask, its contours, the area test on the first one, and when it passes,
      one more count, the centroid and a tag numbered `count`. It takes the
      count, centroids and tags of the first `i` labels to those of the first
      `i + 1`. */
  method ConsiderMarker(validMarkers: seq<int>, i: nat, grown: Grid, cv: Vision,
                        count: nat, centroids: seq<Point>, tags: seq<Tag>)
    returns (count': nat, centroids': seq<Point>, tags': seq<Tag>)
    requires i < |validMarkers|
    requires count == |CountedMarkers(validMarkers[..i], grown, cv)|
    requires centroids == RegionCentroids(CountedMarkers(validMarkers[..i], grown, cv), grown, cv)
    requires |tags| == count && forall k :: 0 <= k < count ==> tags[k] == Tag(k + 1, centroids[k])
    ensures count' == |CountedMarkers(validMarkers[..i + 1], grown, cv)|
    ensures centroids' == RegionCentroids(CountedMarkers(validMarkers[..i + 1], grown, cv), grown, cv)
    ensures |tags'| == count' && forall k :: 0 <= k < count' ==> tags'[k] == Tag(k + 1, centroids'[k])
  {
    CountedStep(validMarkers, i, grown, cv);
    var id := validMarkers[i];
    count', centroids', tags' := count, centroids, tags;
    var contours := cv.findContours(RegionMask(grown, id));
    if |contours| > 0 {
      var m := cv.moments(contours[0]);
      if m.m00 != 0.0 {
        RegionCentroidsSnoc(CountedMarkers(validMarkers[..i], grown, cv), id, grown, cv);
        var c := Centroid(m);
        centroids' := centroids + [c];
        count' := count + 1;
        tags' := tags + [Tag(count', c)];
      }
    }
  }

  /** The primary loop (`for marker_id in valid_markers`): the count, the
      centroid list, and the numbers 1..count drawn at the centroids. The
      count is the number of counted regions, the i-th centroid belongs to the
      i-th counted label, and the tags number them consecutively from 1. */
  method CountWatershed(validMarkers: seq<int>, grown: Grid, cv: Vision)
    returns (count: nat, centroids: seq<Point>, tags: seq<Tag>)
    ensures count == |CountedMarkers(validMarkers, grown, cv)| <= |validMarkers|
    ensures centroids == RegionCentroids(CountedMarkers(validMarkers, grown, cv), grown, cv)
    ensures |centroids| == count && |tags| == count
    ensures forall k :: 0 <= k < count ==> tags[k] == Tag(k + 1, centroids[k])
  {
    count, centroids, tags := 0, [], [];
    var i := 0;
    while i < |validMarkers|
      invariant 0 <= i <= |validMarkers|
      invariant count == |CountedMarkers(validMarkers[..i], grown, cv)|
      invariant centroids == RegionCentroids(CountedMarkers(validMarkers[..i], grown, cv), grown, cv)
      invariant |tags| == count
      invariant forall k :: 0 <= k < count ==> tags[k] == Tag(k + 1, centroids[k])
    {
      count, centroids, tags := ConsiderMarker(validMarkers, i, grown, cv, count, centroids, tags);
      i := i + 1;
    }
    assert validMarkers[..i] == validMarkers;
  }

  /** An ascending sequence has as many elements as its set. */
  lemma {:induction false} AscendingCard(s: seq<int>)
    requires StrictlyIncreasing(s)
    ensures |set v | v in s| == |s|
  {
    if s != [] {
      var init := s[..|s| - 1];
      var last := s[|s| - 1];
      assert StrictlyIncreasing(init);
      AscendingCard(init);
      forall k | 0 <= k < |init| ensures init[k] != last {
        assert s[k] < s[|s| - 1];
      }
      var before := set v | v in init;
      assert last !in before;
      assert s == init + [last];
      assert (set v | v in s) == before + {last};
    }
  }

  /** The primary count is the number of distinct region labels whose first
      contour has a non-zero area. */
  lemma WatershedCountIsCardinality(validMarkers: seq<int>, grown: Grid, cv: Vision)
    requires StrictlyIncreasing(validMarkers)
    ensures |CountedMarkers(validMarkers, grown, cv)|
      == |set v | v in validMarkers && IsCounted(grown, v, cv)|
  {
    var cm := CountedMarkers(validMarkers, grown, cv);
    AscendingCard(cm);
    assert (set v | v in cm) == (set v | v in validMarkers && IsCounted(grown, v, cv));
  }

  // ---------------------------------------------------------------------
  // Supplementary count over the edge contours

  /** The filled masks are 0/255 grids the shape of the opened mask, so the
      AND and the sums of the overlap test are defined. */
  predicate FillsFit(contours: seq<Contour>, opening: Grid, cv: Vision) {
    IsByteGrid(opening) &&
    forall k :: 0 <= k < |contours| ==>
      SameShape(cv.fill(contours[k]), opening) && IsBinary(cv.fill(contours[k]))
  }

  /** An edge contour becomes a grain of its own when the opened mask covers
      less than 55% of it and its area is non-zero. */
  predicate IsPromoted(c: Contour, opening: Grid, cv: Vision)
    requires IsByteGrid(opening) && SameShape(cv.fill(c), opening) && IsBinary(cv.fill(c))
  {
    IsCandidate(cv.fill(c), opening) && cv.moments(c).m00 != 0.0
  }

  /** The edge contours the supplementary loop counts, in order. */
  function PromotedContours(contours: seq<Contour>, opening: Grid, cv: Vision): (r: seq<Contour>)
    requires FillsFit(contours, opening, cv)
    ensures |r| <= |contours|
    ensures forall k :: 0 <= k < |r| ==> r[k] in contours && cv.moments(r[k]).m00 != 0.0
  {
    if contours == [] then []
    else
      var init := contours[..|contours| - 1];
      var c := contours[|contours| - 1];
      assert FillsFit(init, opening, cv);
      var prev := PromotedContours(init, opening, cv);
      if IsPromoted(c, opening, cv) then prev + [c] else prev
  }

  /** Every contour the supplementary loop counts passed the dedup: its
      overlap ratio is below 0.55 and its area is non-zero. */
  lemma {:induction false} PromotedArePromoted(contours: seq<Contour>, opening: Grid, cv: Vision)
    requires FillsFit(contours, opening, cv)
    ensures var r := PromotedContours(contours, opening, cv);
      FillsFit(r, opening, cv) && forall k :: 0 <= k < |r| ==> IsPromoted(r[k], opening, cv)
  {
    if contours != [] {
      var init := contours[..|contours| - 1];
      assert FillsFit(init, opening, cv);
      PromotedArePromoted(init, opening, cv);
    }
  }

  /** Every edge contour that passes both tests is counted. */
  lemma {:induction false} PromotedComplete(contours: seq<Contour>, opening: Grid, cv: Vision, k: nat)
    requires FillsFit(contours, opening, cv) && k < |contours|
    requires IsPromoted(contours[k], opening, cv)
    ensures contours[k] in PromotedContours(contours, opening, cv)
  {
    var init := contours[..|contours| - 1];
    assert FillsFit(init, opening, cv);
    if k < |contours| - 1 {
      assert init[k] == contours[k];
      PromotedComplete(init, opening, cv, k);
    }
  }

  /** The label of a supplementary grain sits 20 pixels right and down of
      its centroid. */
  function TagPosition(c: Contour, cv: Vision): Point
    requires cv.moments(c).m00 != 0.0
  {
    var p := Centroid(cv.moments(c));
    Point(p.x + 20, p.y + 20)
  }

  /** The tags of the promoted contours, numbered on from `base`. */
  function ContourTags(promoted: seq<Contour>, base: nat, cv: Vision): (r: seq<Tag>)
    requires forall k :: 0 <= k < |promoted| ==> cv.moments(promoted[k]).m00 != 0.0
    ensures |r| == |promoted|
  {
    seq(|promoted|, k requires 0 <= k < |promoted| => Tag(base + k + 1, TagPosition(promoted[k], cv)))
  }

  /** A promoted contour appended to the list appends its tag. */
  lemma ContourTagsSnoc(promoted: seq<Contour>, c: Contour, base: nat, cv: Vision)
    requires forall k :: 0 <= k < |promoted| ==> cv.moments(promoted[k]).m00 != 0.0
    requires cv.moments(c).m00 != 0.0
    ensures ContourTags(promoted + [c], base, cv) ==
      ContourTags(promoted, base, cv) + [Tag(base + |promoted| + 1, TagPosition(c, cv))]
  {
    var longer := promoted + [c];
    assert forall k :: 0 <= k < |promoted| ==> longer[k] == promoted[k];
  }

  /** One more contour extends the promoted list by itself or by nothing. */
  lemma PromotedStep(contours: seq<Contour>, i: nat, opening: Grid, cv: Vision)
    requires FillsFit(contours, opening, cv) && i < |contours|
    ensures FillsFit(contours[..i], opening, cv) && FillsFit(contours[..i + 1], opening, cv)
    ensures PromotedContours(contours[..i + 1], opening, cv) ==
      PromotedContours(contours[..i], opening, cv) +
      (if IsPromoted(contours[i], opening, cv) then [contours[i]] else [])
  {
    assert contours[..i + 1][..i] == contours[..i];
  }

  /** The body of the supplementary loop for the contour at index `i`: the
      overlap test against 0.55, the area test, and when both pass, one more
      count and a tag numbered `watershedCount + count` at the shifted
      centroid. It takes the count and tags of the first `i` contours to
      those of the first `i + 1`. */
  method ConsiderContour(contours: seq<Contour>, i: nat, opening: Grid, cv: Vision, watershedCount: nat,
                         count: nat, tags: seq<Tag>)
    returns (count': nat, tags': seq<Tag>)
    requires FillsFit(contours, opening, cv) && i < |contours| && FillsFit(contours[..i], opening, cv)
    requires count == |PromotedContours(contours[..i], opening, cv)|
    requires tags == ContourTags(PromotedContours(contours[..i], opening, cv), watershedCount, cv)
    ensures FillsFit(contours[..i + 1], opening, cv)
    ensures count' == |PromotedContours(contours[..i + 1], opening, cv)|
    ensures tags' == ContourTags(PromotedContours(contours[..i + 1], opening, cv), watershedCount, cv)
  {
    PromotedStep(contours, i, opening, cv);
    ghost var prev := PromotedContours(contours[..i], opening, cv);
    var contour := contours[i];
    count', tags' := count, tags;
    var mask := cv.fill(contour);
    var ratio := OverlapRatio(mask, opening);
    if ratio < DedupThreshold {
      var m := cv.moments(contour);
      if m.m00 != 0.0 {
        ContourTagsSnoc(prev, contour, watershedCount, cv);
        count' := count + 1;
        var p := Centroid(m);
        tags' := tags + [Tag(watershedCount + count', Point(p.x + 20, p.y + 20))];
      }
    }
  }

  /** The supplementary loop (`for contour in contours`): the number of
      promoted contours, which never exceeds the number of edge contours,
      and their tags, numbered on from `watershedCount`. */
  method CountContourOnly(contours: seq<Contour>, opening: Grid, cv: Vision, watershedCount: nat)
    returns (count: nat, tags: seq<Tag>)
    requires FillsFit(contours, opening, cv)
    ensures count == |PromotedContours(contours, opening, cv)| <= |contours|
    ensures tags == ContourTags(PromotedContours(contours, opening, cv), watershedCount, cv)
    ensures |tags| == count
    ensures forall k :: 0 <= k < count ==> tags[k].number == watershedCount + k + 1
  {
    count, tags := 0, [];
    var i := 0;
    while i < |contours|
      invariant 0 <= i <= |contours|
      invariant FillsFit(contours[..i], opening, cv)
      invariant count == |PromotedContours(contours[..i], opening, cv)|
      invariant tags == ContourTags(PromotedContours(contours[..i], opening, cv), watershedCount, cv)
    {
      count, tags := ConsiderContour(contours, i, opening, cv, watershedCount, count, tags);
      i := i + 1;
    }
    assert contours[..i] == contours;
  }

  /** Full coverage: when every edge contour is a non-empty region lying
      inside the opened mask, the dedup rejects them all and nothing is added. */
  lemma {:induction false} FullCoverageAddsNothing(contours: seq<Contour>, opening: Grid, cv: Vision)
    requires FillsFit(contours, opening, cv) && IsBinary(opening)
    requires forall k :: 0 <= k < |contours| ==> Count(cv.fill(contours[k])) > 0
    requires forall k, i, j ::
      (0 <= k < |contours| && 0 <= i < |opening| && 0 <= j < |opening[i]| && cv.fill(contours[k])[i][j] == Full)
      ==> opening[i][j] == Full
    ensures PromotedContours(contours, opening, cv) == []
  {
    if contours != [] {
      var init := contours[..|contours| - 1];
      var c := contours[|contours| - 1];
      assert FillsFit(init, opening, cv);
      FullCoverageAddsNothing(init, opening, cv);
      var mask := cv.fill(c);
      assert forall i, j :: 0 <= i < |mask| && 0 <= j < |mask[i]| && mask[i][j] == Full ==> opening[i][j] == Full;
      CoveredIsNotCandidate(mask, opening);
    }
  }

  /** An empty filled mask has ratio 0, so a contour with an empty mask and
      a non-zero area is always promoted. */
  lemma EmptyMaskPromoted(c: Contour, opening: Grid, cv: Vision)
    requires IsByteGrid(opening) && SameShape(cv.fill(c), opening) && IsBinary(cv.fill(c))
    requires Count(cv.fill(c)) == 0 && cv.moments(c).m00 != 0.0
    ensures IsPromoted(c, opening, cv)
  {
    BinarySum(cv.fill(c));
  }
}
