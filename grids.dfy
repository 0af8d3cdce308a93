/** Rasters as nested sequences: a grid is a sequence of rows, each row a
    sequence of pixel values. A mask is a grid whose pixels are 0 or 255,
    the value OpenCV's thresholds and drawing calls write for "set". */
module Grids {

  type Grid = seq<seq<int>>

  /** The value a set mask pixel holds (the `maxval` of the thresholds). */
  const Full := 255

  /** `g` has `h` rows of `w` pixels each. */
  predicate IsRect<T>(g: seq<seq<T>>, h: nat, w: nat) {
    |g| == h && forall i :: 0 <= i < h ==> |g[i]| == w
  }

  /** The contents of a 2-D array as rows of pixels. */
  function Contents<T>(a: array2<T>): (g: seq<seq<T>>)
    reads a
    ensures IsRect(g, a.Length0, a.Length1)
    ensures forall i, j :: 0 <= i < a.Length0 && 0 <= j < a.Length1 ==> g[i][j] == a[i, j]
  {
    seq(a.Length0, i requires 0 <= i < a.Length0 reads a =>
      seq(a.Length1, j requires 0 <= j < a.Length1 reads a => a[i, j]))
  }

  /** `a` and `b` have the same number of rows and equally long rows, as
      the per-pixel numpy and OpenCV operations demand of their operands. */
  predicate SameShape(a: Grid, b: Grid) {
    |a| == |b| && forall i :: 0 <= i < |a| ==> |a[i]| == |b[i]|
  }

  /** Every pixel is an 8-bit value, as in a `uint8` image. */
  predicate IsByteGrid(g: Grid) {
    forall i, j :: 0 <= i < |g| && 0 <= j < |g[i]| ==> 0 <= g[i][j] <= 255
  }

  /** Every pixel is 0 or 255. */
  predicate IsBinary(g: Grid) {
    forall i, j :: 0 <= i < |g| && 0 <= j < |g[i]| ==> g[i][j] == 0 || g[i][j] == Full
  }

  /** Sum of the pixel values of one row (`np.sum` restricted to a row). */
  function RowSum(r: seq<int>): int {
    if r == [] then 0 else r[0] + RowSum(r[1..])
  }

  /** Sum of all pixel values (`np.sum` of a whole grid). */
  function Sum(g: Grid): int {
    if g == [] then 0 else RowSum(g[0]) + Sum(g[1..])
  }

  /** Number of set (255) pixels in a row. */
  function RowCount(r: seq<int>): nat {
    if r == [] then 0 else (if r[0] == Full then 1 else 0) + RowCount(r[1..])
  }

  /** Number of set (255) pixels in a grid. */
  function Count(g: Grid): nat {
    if g == [] then 0 else RowCount(g[0]) + Count(g[1..])
  }

  /** Pixel sums are monotone: a row that is pointwise below another has the
      smaller sum. */
  lemma {:induction false} RowSumMonotone(r: seq<int>, s: seq<int>)
    requires |r| == |s| && forall j :: 0 <= j < |r| ==> r[j] <= s[j]
    ensures RowSum(r) <= RowSum(s)
  {
    if r != [] {
      RowSumMonotone(r[1..], s[1..]);
    }
  }

  /** A grid that is pointwise below another of the same shape has the
      smaller pixel sum. */
  lemma {:induction false} SumMonotone(a: Grid, b: Grid)
    requires SameShape(a, b)
    requires forall i, j :: 0 <= i < |a| && 0 <= j < |a[i]| ==> a[i][j] <= b[i][j]
    ensures Sum(a) <= Sum(b)
  {
    if a != [] {
      RowSumMonotone(a[0], b[0]);
      assert forall i, j :: 0 <= i < |a[1..]| && 0 <= j < |a[1..][i]| ==> a[1..][i][j] == a[i + 1][j];
      SumMonotone(a[1..], b[1..]);
    }
  }

  /** A grid of 8-bit values has a non-negative pixel sum. */
  lemma {:induction false} SumNonNegative(g: Grid)
    requires IsByteGrid(g)
    ensures Sum(g) >= 0
  {
    if g != [] {
      var zero := seq(|g[0]|, j => 0);
      RowSumMonotone(zero, g[0]);
      ZeroRowSum(zero);
      assert forall i, j :: 0 <= i < |g[1..]| && 0 <= j < |g[1..][i]| ==> g[1..][i][j] == g[i + 1][j];
      SumNonNegative(g[1..]);
    }
  }

  lemma {:induction false} ZeroRowSum(r: seq<int>)
    requires forall j :: 0 <= j < |r| ==> r[j] == 0
    ensures RowSum(r) == 0
  {
    if r != [] {
      ZeroRowSum(r[1..]);
    }
  }

  /** The pixels in row-major order, as `np.unique` sees a grid. */
  function Flatten(g: Grid): seq<int> {
    if g == [] then [] else g[0] + Flatten(g[1..])
  }

  /** On a binary row the pixel sum is 255 times the number of set pixels. */
  lemma {:induction false} BinaryRowSum(r: seq<int>)
    requires forall j :: 0 <= j < |r| ==> r[j] == 0 || r[j] == Full
    ensures RowSum(r) == Full * RowCount(r)
  {
    if r != [] {
      BinaryRowSum(r[1..]);
    }
  }

  /** On a mask the pixel sum is 255 times the number of set pixels, so a
      ratio of two mask sums is a ratio of two pixel counts. */
  lemma {:induction false} BinarySum(g: Grid)
    requires IsBinary(g)
    ensures Sum(g) == Full * Count(g)
  {
    if g != [] {
      BinaryRowSum(g[0]);
      BinarySum(g[1..]);
    }
  }

  /** A value occurs in the flattened grid exactly when some pixel holds it. */
  lemma {:induction false} FlattenHolds(g: Grid, v: int)
    ensures v in Flatten(g) <==> exists i, j :: 0 <= i < |g| && 0 <= j < |g[i]| && g[i][j] == v
  {
    if g != [] {
      FlattenHolds(g[1..], v);
      if v in g[0] {
        var j :| 0 <= j < |g[0]| && g[0][j] == v;
        assert g[0][j] == v;
      }
      if exists i, j :: 0 <= i < |g| && 0 <= j < |g[i]| && g[i][j] == v {
        var i, j :| 0 <= i < |g| && 0 <= j < |g[i]| && g[i][j] == v;
        if i > 0 {
          assert g[1..][i - 1][j] == v;
        }
      }
      if exists i, j :: 0 <= i < |g[1..]| && 0 <= j < |g[1..][i]| && g[1..][i][j] == v {
        var i, j :| 0 <= i < |g[1..]| && 0 <= j < |g[1..][i]| && g[1..][i][j] == v;
        assert g[i + 1][j] == v;
      }
    }
  }
}
