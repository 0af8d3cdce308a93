/** The combined detection pipeline shared by both entry points
    (`rice_detection_combined` in the command-line script and in the web
    app), from the outputs of the morphology and thresholding stages to the
    counts, the painted result image and the total-count overlay. */
module Pipeline {
  import opened Grids
  import opened Masks
  import opened Markers
  import opened Boundaries
  import opened Labels
  import opened Counting
  import opened Overlay

  /** What the pipeline computes besides the result image. */
  datatype Detection = Detection(
    contourCount: nat,
    watershedCount: nat,
    watershedCentroids: seq<Point>,
    watershedTags: seq<Tag>,
    contourOnlyCount: nat,
    contourTags: seq<Tag>,
    totalCount: nat)

  /** The stage outputs the pipeline starts from, all `h` by `w`: the opened
      mask, the sure background and foreground masks, and the component
      labels of the sure foreground. */
  predicate StagesFit(h: nat, w: nat, opening: Grid, sureBg: Grid, sureFg: Grid, components: Grid) {
    IsRect(opening, h, w) && IsRect(sureBg, h, w) && IsRect(sureFg, h, w) && IsRect(components, h, w)
  }

  /** The seed map handed to the watershed. */
  function Seeds(sureBg: Grid, sureFg: Grid, components: Grid): Grid
    requires SameShape(sureBg, sureFg) && SameShape(components, sureFg)
  {
    Prepared(components, Subtract(sureBg, sureFg))
  }

  /** The region labels the primary loop walks over: each label above 1
      that occurs in the grown map, once, in ascending order. */
  function RegionIds(grown: Grid): (ids: seq<int>)
    ensures StrictlyIncreasing(ids)
    ensures forall v :: v in ids <==>
      v > 1 && exists i, j :: 0 <= i < |grown| && 0 <= j < |grown[i]| && grown[i][j] == v
  {
    RegionLabels(grown);
    ValidMarkers(Unique(Flatten(grown)))
  }

  /** The primary count of a grown map. */
  function WatershedCountOf(grown: Grid, cv: Vision): nat {
    |CountedMarkers(RegionIds(grown), grown, cv)|
  }

  /** The supplementary count. */
  function ContourOnlyCountOf(edgeContours: seq<Contour>, opening: Grid, cv: Vision): nat
    requires FillsFit(edgeContours, opening, cv)
  {
    |PromotedContours(edgeContours, opening, cv)|
  }

  /** From the unknown band to the total, in both entry points: seed map,
      watershed (`watershed`, which stands for `cv2.watershed(img, .)`), the
      painted copy of the image, both counting loops and the total. */
  method Detect(img: Image, h: nat, w: nat, opening: Grid, sureBg: Grid, sureFg: Grid, components: Grid,
                watershed: Grid -> Grid, cv: Vision, edgeContours: seq<Contour>)
    returns (d: Detection, combined: array2<Rgb>)
    requires IsRect(img, h, w) && StagesFit(h, w, opening, sureBg, sureFg, components)
    requires IsRect(watershed(Seeds(sureBg, sureFg, components)), h, w)
    requires FillsFit(edgeContours, opening, cv)
    ensures var grown := watershed(Seeds(sureBg, sureFg, components));
      && d.watershedCount == WatershedCountOf(grown, cv)
      && d.watershedCentroids == RegionCentroids(CountedMarkers(RegionIds(grown), grown, cv), grown, cv)
      && fresh(combined) && Contents(combined) == Painted(img, grown)
    ensures |d.watershedTags| == d.watershedCount
    ensures forall k :: 0 <= k < d.watershedCount ==> d.watershedTags[k] == Tag(k + 1, d.watershedCentroids[k])
    ensures d.contourCount == |edgeContours|
    ensures d.contourOnlyCount == ContourOnlyCountOf(edgeContours, opening, cv)
    ensures |d.contourTags| == d.contourOnlyCount
    ensures d.contourTags == ContourTags(PromotedContours(edgeContours, opening, cv), d.watershedCount, cv)
    ensures forall k :: 0 <= k < d.contourOnlyCount ==>
      d.contourTags[k].number == d.watershedCount + k + 1
    ensures d.totalCount == d.watershedCount + d.contourOnlyCount
  {
    var unknown := Subtract(sureBg, sureFg);
    var markers := PrepareMarkers(components, unknown, h, w);
    var grown := watershed(Contents(markers));
    combined := CombinedResult(img, grown, h, w);
    var valid := RegionIds(grown);
    var watershedCount, centroids, watershedTags := CountWatershed(valid, grown, cv);
    var contourOnlyCount, contourTags := CountContourOnly(edgeContours, opening, cv, watershedCount);
    var totalCount := watershedCount + contourOnlyCount;
    d := Detection(|edgeContours|, watershedCount, centroids, watershedTags,
                   contourOnlyCount, contourTags, totalCount);
  }

  /** The command-line entry point: `(len(contours), watershed_count,
      total_count)`. The first value counts every edge contour before the
      dedup, so it bounds the supplementary count; the total is the sum of the
      two loop counts and never exceeds the number of region labels plus the
      number of edge contours. */
  method RiceDetectionCli(img: Image, h: nat, w: nat, opening: Grid, sureBg: Grid, sureFg: Grid, components: Grid,
                          watershed: Grid -> Grid, cv: Vision, edgeContours: seq<Contour>)
    returns (contourCount: nat, watershedCount: nat, totalCount: nat)
    requires IsRect(img, h, w) && StagesFit(h, w, opening, sureBg, sureFg, components)
    requires IsRect(watershed(Seeds(sureBg, sureFg, components)), h, w)
    requires FillsFit(edgeContours, opening, cv)
    ensures var grown := watershed(Seeds(sureBg, sureFg, components));
      && watershedCount == WatershedCountOf(grown, cv)
      && watershedCount <= |RegionIds(grown)|
      && totalCount <= |RegionIds(grown)| + contourCount
    ensures contourCount == |edgeContours|
    ensures totalCount == watershedCount + ContourOnlyCountOf(edgeContours, opening, cv)
    ensures watershedCount <= totalCount <= watershedCount + contourCount
  {
    var d, _ := Detect(img, h, w, opening, sureBg, sureFg, components, watershed, cv, edgeContours);
    contourCount, watershedCount, totalCount := d.contourCount, d.watershedCount, d.totalCount;
  }

  /** The web-app entry point: the painted result image, the overlay text and
      where it goes. `textSize` stands for `cv2.getTextSize` at the font scale
      `width / 1000`. */
  method RiceDetectionApp(img: Image, h: nat, w: nat, opening: Grid, sureBg: Grid, sureFg: Grid, components: Grid,
                          watershed: Grid -> Grid, cv: Vision, edgeContours: seq<Contour>, textSize: string -> Size)
    returns (combined: array2<Rgb>, text: string, placement: Placement)
    requires IsRect(img, h, w) && StagesFit(h, w, opening, sureBg, sureFg, components)
    requires IsRect(watershed(Seeds(sureBg, sureFg, components)), h, w)
    requires FillsFit(edgeContours, opening, cv)
    ensures var grown := watershed(Seeds(sureBg, sureFg, components));
      var total := WatershedCountOf(grown, cv) + ContourOnlyCountOf(edgeContours, opening, cv);
      && fresh(combined) && Contents(combined) == Painted(img, grown)
      && text == TotalText(total)
      && placement == Place(w, textSize(text))
  {
    var d;
    d, combined := Detect(img, h, w, opening, sureBg, sureFg, components, watershed, cv, edgeContours);
    text := TotalText(d.totalCount);
    placement := Place(w, textSize(text));
  }

  /** A blank scene: with no region label above 1 in the grown map and no
      edge contour, both loops count nothing and the total is 0. */
  lemma BlankSceneCountsZero(grown: Grid, opening: Grid, cv: Vision)
    requires IsByteGrid(opening)
    requires forall i, j :: 0 <= i < |grown| && 0 <= j < |grown[i]| ==> grown[i][j] <= 1
    ensures WatershedCountOf(grown, cv) + ContourOnlyCountOf([], opening, cv) == 0
  {
    RegionLabels(grown);
    var ids := RegionIds(grown);
    assert forall k :: 0 <= k < |ids| ==> ids[k] in ids;
  }
}
