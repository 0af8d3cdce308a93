/** Preparation of the watershed seed map: the connected-component labels
    shifted up by one (`markers + 1`, a new array), then every pixel of the
    unknown band overwritten with 0 in place (`markers[unknown == 255] = 0`). */
module Markers {
  import opened Grids
  import opened Masks

  /** The value a prepared seed pixel holds: 0 in the unknown band, the
      component label plus one elsewhere. */
  function PreparedPixel(component: int, unknown: int): int {
    if unknown == Full then 0 else component + 1
  }

  /** The seed map the two steps produce, as a value. */
  function Prepared(labels: Grid, unknown: Grid): (r: Grid)
    requires SameShape(labels, unknown)
    ensures SameShape(r, labels)
  {
    seq(|labels|, i requires 0 <= i < |labels| =>
      seq(|labels[i]|, j requires 0 <= j < |labels[i]| => PreparedPixel(labels[i][j], unknown[i][j])))
  }

  /** `markers = markers + 1`: a new array holding every label plus one. */
  method ShiftLabels(labels: Grid, h: nat, w: nat) returns (markers: array2<int>)
    requires IsRect(labels, h, w)
    ensures fresh(markers) && markers.Length0 == h && markers.Length1 == w
    ensures forall i, j :: 0 <= i < h && 0 <= j < w ==> markers[i, j] == labels[i][j] + 1
  {
    markers := new int[h, w];
    var i := 0;
    while i < h
      invariant 0 <= i <= h
      invariant forall r, c :: 0 <= r < i && 0 <= c < w ==> markers[r, c] == labels[r][c] + 1
    {
      var j := 0;
      while j < w
        invariant 0 <= j <= w
        invariant forall r, c :: 0 <= r < i && 0 <= c < w ==> markers[r, c] == labels[r][c] + 1
        invariant forall c :: 0 <= c < j ==> markers[i, c] == labels[i][c] + 1
      {
        markers[i, j] := labels[i][j] + 1;
        j := j + 1;
      }
      i := i + 1;
    }
  }

  /** `markers[unknown == 255] = 0`: zero the unknown band in place and
      leave every other pixel as it was. */
  method ClearUnknown(markers: array2<int>, unknown: Grid)
    requires IsRect(unknown, markers.Length0, markers.Length1)
    modifies markers
    ensures forall i, j :: 0 <= i < markers.Length0 && 0 <= j < markers.Length1 ==>
      markers[i, j] == if unknown[i][j] == Full then 0 else old(markers[i, j])
  {
    var i := 0;
    while i < markers.Length0
      invariant 0 <= i <= markers.Length0
      invariant forall r, c :: 0 <= r < i && 0 <= c < markers.Length1 ==>
        markers[r, c] == if unknown[r][c] == Full then 0 else old(markers[r, c])
      invariant forall r, c :: i <= r < markers.Length0 && 0 <= c < markers.Length1 ==>
        markers[r, c] == old(markers[r, c])
    {
      var j := 0;
      while j < markers.Length1
        invariant 0 <= j <= markers.Length1
        invariant forall r, c :: 0 <= r < i && 0 <= c < markers.Length1 ==>
          markers[r, c] == if unknown[r][c] == Full then 0 else old(markers[r, c])
        invariant forall c :: 0 <= c < j ==>
          markers[i, c] == if unknown[i][c] == Full then 0 else old(markers[i, c])
        invariant forall r, c :: 0 <= r < markers.Length0 && 0 <= c < markers.Length1 && (r > i || (r == i && c >= j)) ==>
          markers[r, c] == old(markers[r, c])
      {
        if unknown[i][j] == Full {
          markers[i, j] := 0;
        }
        j := j + 1;
      }
      i := i + 1;
    }
  }

  /** Both steps together: a new seed map equal to `Prepared(labels, unknown)`. */
  method PrepareMarkers(labels: Grid, unknown: Grid, h: nat, w: nat) returns (markers: array2<int>)
    requires IsRect(labels, h, w) && IsRect(unknown, h, w)
    ensures fresh(markers) && Contents(markers) == Prepared(labels, unknown)
  {
    markers := ShiftLabels(labels, h, w);
    ClearUnknown(markers, unknown);
    var g := Contents(markers);
    var p := Prepared(labels, unknown);
    assert |g| == |p|;
    forall i | 0 <= i < h ensures g[i] == p[i] {
      assert |g[i]| == |p[i]|;
    }
  }

  /** `connectedComponents(sureFg)` labels: 0 off the sure foreground and a
      positive component number on it. */
  predicate LabelsMatch(labels: Grid, fg: Grid)
    requires SameShape(labels, fg)
  {
    forall i, j :: 0 <= i < |labels| && 0 <= j < |labels[i]| ==>
      labels[i][j] >= 0 && (labels[i][j] > 0 <==> fg[i][j] == Full)
  }

  /** What the prepared seed map means, pixel by pixel: 0 exactly on the
      unknown band (sure background but not sure foreground), 1 on the
      background, the component label plus one (so at least 2) on every sure
      foreground pixel, which is never zeroed. */
  lemma PreparedMeaning(bg: Grid, fg: Grid, labels: Grid)
    requires SameShape(bg, fg) && SameShape(labels, fg)
    requires IsBinary(bg) && IsBinary(fg) && LabelsMatch(labels, fg)
    ensures forall i, j :: 0 <= i < |labels| && 0 <= j < |labels[i]| ==>
      var p := Prepared(labels, Subtract(bg, fg))[i][j];
      && (p == 0 <==> bg[i][j] == Full && fg[i][j] == 0)
      && (bg[i][j] == 0 && fg[i][j] == 0 ==> p == 1)
      && (fg[i][j] == Full ==> p == labels[i][j] + 1 && p >= 2)
      && p >= 0
  {
    UnknownBand(bg, fg);
  }

  /** Distinct components keep distinct seeds: two sure-foreground pixels
      hold the same seed exactly when they had the same component label. */
  lemma PreparedDistinct(bg: Grid, fg: Grid, labels: Grid)
    requires SameShape(bg, fg) && SameShape(labels, fg)
    requires IsBinary(bg) && IsBinary(fg) && LabelsMatch(labels, fg)
    ensures forall i, j, k, l ::
      0 <= i < |labels| && 0 <= j < |labels[i]| && fg[i][j] == Full &&
      0 <= k < |labels| && 0 <= l < |labels[k]| && fg[k][l] == Full ==>
      var p := Prepared(labels, Subtract(bg, fg));
      (p[i][j] == p[k][l] <==> labels[i][j] == labels[k][l])
  {
    PreparedMeaning(bg, fg, labels);
  }
}
