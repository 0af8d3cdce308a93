/** The result image: a copy of the input (`img.copy()`) on which every
    watershed boundary pixel (label -1) is painted green in place. */
module Boundaries {
  import opened Grids

  /** One colour pixel, channels in the order the source writes them. */
  datatype Rgb = Rgb(r: int, g: int, b: int)

  type Image = seq<seq<Rgb>>

  /** The colour boundaries are painted with, `[0, 255, 0]`. */
  const Green := Rgb(0, 255, 0)

  /** The label watershed writes on pixels between two regions. */
  const BoundaryLabel := -1

  /** The painted image as a value: green where the marker is -1, the input
      pixel everywhere else. */
  function Painted(img: Image, markers: Grid): (r: Image)
    requires |markers| == |img| && forall i :: 0 <= i < |img| ==> |markers[i]| == |img[i]|
    ensures |r| == |img| && forall i :: 0 <= i < |img| ==> |r[i]| == |img[i]|
  {
    seq(|img|, i requires 0 <= i < |img| =>
      seq(|img[i]|, j requires 0 <= j < |img[i]| => if markers[i][j] == BoundaryLabel then Green else img[i][j]))
  }

  /** `combined_result = img.copy()`. */
  method CopyImage(img: Image, h: nat, w: nat) returns (out: array2<Rgb>)
    requires IsRect(img, h, w)
    ensures fresh(out) && out.Length0 == h && out.Length1 == w
    ensures forall i, j :: 0 <= i < h && 0 <= j < w ==> out[i, j] == img[i][j]
  {
    out := new Rgb[h, w];
    var i := 0;
    while i < h
      invariant 0 <= i <= h
      invariant forall r, c :: 0 <= r < i && 0 <= c < w ==> out[r, c] == img[r][c]
    {
      var j := 0;
      while j < w
        invariant 0 <= j <= w
        invariant forall r, c :: 0 <= r < i && 0 <= c < w ==> out[r, c] == img[r][c]
        invariant forall c :: 0 <= c < j ==> out[i, c] == img[i][c]
      {
        out[i, j] := img[i][j];
        j := j + 1;
      }
      i := i + 1;
    }
  }

  /** `combined_result[markers == -1] = [0, 255, 0]`: paint the boundary
      pixels green in place; every other pixel keeps its colour. */
  method PaintBoundaries(out: array2<Rgb>, markers: Grid)
    requires IsRect(markers, out.Length0, out.Length1)
    modifies out
    ensures forall i, j :: 0 <= i < out.Length0 && 0 <= j < out.Length1 ==>
      out[i, j] == if markers[i][j] == BoundaryLabel then Green else old(out[i, j])
  {
    var i := 0;
    while i < out.Length0
      invariant 0 <= i <= out.Length0
      invariant forall r, c :: 0 <= r < i && 0 <= c < out.Length1 ==>
        out[r, c] == if markers[r][c] == BoundaryLabel then Green else old(out[r, c])
      invariant forall r, c :: i <= r < out.Length0 && 0 <= c < out.Length1 ==> out[r, c] == old(out[r, c])
    {
      var j := 0;
      while j < out.Length1
        invariant 0 <= j <= out.Length1
        invariant forall r, c :: 0 <= r < i && 0 <= c < out.Length1 ==>
          out[r, c] == if markers[r][c] == BoundaryLabel then Green else old(out[r, c])
        invariant forall c :: 0 <= c < j ==>
          out[i, c] == if markers[i][c] == BoundaryLabel then Green else old(out[i, c])
        invariant forall r, c :: 0 <= r < out.Length0 && 0 <= c < out.Length1 && (r > i || (r == i && c >= j)) ==>
          out[r, c] == old(out[r, c])
      {
        if markers[i][j] == BoundaryLabel {
          out[i, j] := Green;
        }
        j := j + 1;
      }
      i := i + 1;
    }
  }

  /** Copy and paint: a new image equal to `Painted(img, markers)`; the input
      is left as it was. */
  method CombinedResult(img: Image, markers: Grid, h: nat, w: nat) returns (out: array2<Rgb>)
    requires IsRect(img, h, w) && IsRect(markers, h, w)
    ensures fresh(out) && Contents(out) == Painted(img, markers)
  {
    out := CopyImage(img, h, w);
    PaintBoundaries(out, markers);
    var got := Contents(out);
    var want := Painted(img, markers);
    assert |got| == |want|;
    forall i | 0 <= i < h ensures got[i] == want[i] {
      assert |got[i]| == |want[i]|;
    }
  }

  /** Painting the boundaries a second time changes nothing. */
  lemma PaintIdempotent(img: Image, markers: Grid)
    requires |markers| == |img| && forall i :: 0 <= i < |img| ==> |markers[i]| == |img[i]|
    ensures Painted(Painted(img, markers), markers) == Painted(img, markers)
  {
    var once := Painted(img, markers);
    var twice := Painted(once, markers);
    forall i | 0 <= i < |img| ensures twice[i] == once[i] {
      assert |twice[i]| == |once[i]|;
    }
  }

  /** A map without boundary pixels leaves the image unchanged. */
  lemma NoBoundaryNoPaint(img: Image, markers: Grid)
    requires |markers| == |img| && forall i :: 0 <= i < |img| ==> |markers[i]| == |img[i]|
    requires forall i, j :: 0 <= i < |markers| && 0 <= j < |markers[i]| ==> markers[i][j] != BoundaryLabel
    ensures Painted(img, markers) == img
  {
    var p := Painted(img, markers);
    forall i | 0 <= i < |img| ensures p[i] == img[i] {
      assert |p[i]| == |img[i]|;
    }
  }
}
