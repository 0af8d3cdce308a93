/** Per-pixel mask algebra of the pipeline: the saturating subtraction that
    yields the "unknown" band, the bitwise AND of two masks, the mask of one
    watershed label, and the overlap-ratio test that decides whether an edge
    contour is a grain of its own. */
module Masks {
  import opened Grids

  /** `cv2.subtract` on two `uint8` pixels: the difference saturated into
      the 8-bit range. */
  function SatSub(a: int, b: int): (r: int)
    ensures 0 <= r <= 255
    ensures 0 <= a - b <= 255 ==> r == a - b
    ensures a - b < 0 ==> r == 0
    ensures a - b > 255 ==> r == 255
  {
    if a - b < 0 then 0 else if a - b > 255 then 255 else a - b
  }

  /** `cv2.subtract(sureBg, sureFg)`: the "unknown" band. */
  function Subtract(a: Grid, b: Grid): (r: Grid)
    requires SameShape(a, b)
    ensures SameShape(r, a) && IsByteGrid(r)
  {
    seq(|a|, i requires 0 <= i < |a| =>
      seq(|a[i]|, j requires 0 <= j < |a[i]| => SatSub(a[i][j], b[i][j])))
  }

  /** With two masks, the unknown band is a mask that is set exactly where
      the sure background is set and the sure foreground is not. */
  lemma UnknownBand(bg: Grid, fg: Grid)
    requires SameShape(bg, fg) && IsBinary(bg) && IsBinary(fg)
    ensures IsBinary(Subtract(bg, fg))
    ensures forall i, j :: 0 <= i < |bg| && 0 <= j < |bg[i]| ==>
      (Subtract(bg, fg)[i][j] == Full <==> bg[i][j] == Full && fg[i][j] == 0)
  {
  }

  /** Bitwise AND of two natural numbers, bit by bit from the lowest. */
  function BitAnd(a: nat, b: nat): (r: nat)
    ensures r <= a && r <= b
  {
    if a == 0 || b == 0 then 0
    else 2 * BitAnd(a / 2, b / 2) + (if a % 2 == 1 && b % 2 == 1 then 1 else 0)
  }

  /** Every number ANDed with itself is itself; in particular 255 & 255 == 255. */
  lemma {:induction false} BitAndSelf(a: nat)
    ensures BitAnd(a, a) == a
  {
    if a != 0 {
      BitAndSelf(a / 2);
    }
  }

  /** On mask values the AND is set exactly when both operands are set. */
  lemma MaskBitAnd(a: nat, b: nat)
    requires (a == 0 || a == Full) && (b == 0 || b == Full)
    ensures BitAnd(a, b) == (if a == Full && b == Full then Full else 0)
  {
    BitAndSelf(Full);
  }

  /** `cv2.bitwise_and` of two 8-bit grids of the same shape. */
  function AndGrid(a: Grid, b: Grid): (r: Grid)
    requires SameShape(a, b) && IsByteGrid(a) && IsByteGrid(b)
  {
    seq(|a|, i requires 0 <= i < |a| =>
      seq(|a[i]|, j requires 0 <= j < |a[i]| => BitAnd(a[i][j], b[i][j])))
  }

  /** The AND of two 8-bit grids is an 8-bit grid of their shape, pointwise
      below both operands, so the overlap never exceeds the contour mask. */
  lemma AndBelow(a: Grid, b: Grid)
    requires SameShape(a, b) && IsByteGrid(a) && IsByteGrid(b)
    ensures var r := AndGrid(a, b);
      && SameShape(r, a) && IsByteGrid(r)
      && forall i, j :: 0 <= i < |a| && 0 <= j < |a[i]| ==> r[i][j] <= a[i][j] && r[i][j] <= b[i][j]
  {
  }

  /** The AND of two masks is the mask of the pixels set in both. */
  lemma AndOfMasks(a: Grid, b: Grid)
    requires SameShape(a, b) && IsBinary(a) && IsBinary(b)
    ensures IsBinary(AndGrid(a, b))
    ensures forall i, j :: 0 <= i < |a| && 0 <= j < |a[i]| ==>
      (AndGrid(a, b)[i][j] == Full <==> a[i][j] == Full && b[i][j] == Full)
  {
    forall i, j | 0 <= i < |a| && 0 <= j < |a[i]|
      ensures AndGrid(a, b)[i][j] == (if a[i][j] == Full && b[i][j] == Full then Full else 0)
    {
      MaskBitAnd(a[i][j], b[i][j]);
    }
  }

  /** `mask[markers == id] = 255` on a zero grid: the mask of one label. */
  function RegionMask(markers: Grid, id: int): (r: Grid)
    ensures SameShape(r, markers) && IsBinary(r)
    ensures forall i, j :: 0 <= i < |markers| && 0 <= j < |markers[i]| ==>
      (r[i][j] == Full <==> markers[i][j] == id)
  {
    seq(|markers|, i requires 0 <= i < |markers| =>
      seq(|markers[i]|, j requires 0 <= j < |markers[i]| => if markers[i][j] == id then Full else 0))
  }

  /** The duplicate-rejection cutoff of the supplementary pass. */
  const DedupThreshold: real := 0.55

  /** The fraction of a filled contour mask that `opening` also covers,
      by pixel sums; 0 when the mask is empty. */
  function OverlapRatio(mask: Grid, opening: Grid): real
    requires SameShape(mask, opening) && IsByteGrid(mask) && IsByteGrid(opening)
  {
    var total := Sum(mask);
    if total > 0 then Sum(AndGrid(mask, opening)) as real / total as real else 0.0
  }

  /** A contour is kept as a possible new grain when its overlap ratio is
      below the cutoff. */
  predicate IsCandidate(mask: Grid, opening: Grid)
    requires SameShape(mask, opening) && IsByteGrid(mask) && IsByteGrid(opening)
  {
    OverlapRatio(mask, opening) < DedupThreshold
  }

  /** The ratio is 0 for an empty mask and lies in [0, 1] otherwise. */
  lemma OverlapRatioBounds(mask: Grid, opening: Grid)
    requires SameShape(mask, opening) && IsByteGrid(mask) && IsByteGrid(opening)
    ensures Sum(mask) == 0 ==> OverlapRatio(mask, opening) == 0.0
    ensures 0.0 <= OverlapRatio(mask, opening) <= 1.0
  {
    var ov := AndGrid(mask, opening);
    AndBelow(mask, opening);
    SumMonotone(ov, mask);
    SumNonNegative(ov);
    if Sum(mask) > 0 {
      RatioInUnit(Sum(ov), Sum(mask));
    }
  }

  lemma RatioInUnit(a: int, b: int)
    requires 0 <= a <= b && b > 0
    ensures 0.0 <= a as real / b as real <= 1.0
  {
    assert a as real / b as real * b as real == a as real;
  }

  /** The real-valued test against 0.55 is an integer test on the sums. */
  lemma RatioBelowCutoff(a: int, b: int)
    requires b > 0
    ensures a as real / b as real < DedupThreshold <==> 20 * a < 11 * b
  {
    var q := a as real / b as real;
    var br := b as real;
    assert q * br == a as real;
    ScaleBelow(q, DedupThreshold, br);
    assert DedupThreshold * br == (11 * b) as real / 20.0;
  }

  /** Multiplying both sides by a positive number keeps a strict order. */
  lemma ScaleBelow(x: real, y: real, c: real)
    requires c > 0.0
    ensures x < y <==> x * c < y * c
  {
    if x < y {
      assert (y - x) * c > 0.0;
    } else {
      assert (x - y) * c >= 0.0;
    }
  }

  /** The dedup decision, exactly in integers: a contour is a candidate iff
      its mask is empty or 20 * overlap sum < 11 * mask sum. */
  lemma CandidateBySums(mask: Grid, opening: Grid)
    requires SameShape(mask, opening) && IsByteGrid(mask) && IsByteGrid(opening)
    ensures IsCandidate(mask, opening) <==>
      Sum(mask) == 0 || 20 * Sum(AndGrid(mask, opening)) < 11 * Sum(mask)
  {
    SumNonNegative(mask);
    if Sum(mask) > 0 {
      RatioBelowCutoff(Sum(AndGrid(mask, opening)), Sum(mask));
    }
  }

  /** For masks, the same decision in pixel counts: empty, or fewer than
      11/20 of the contour's pixels are also set in `opening`. */
  lemma CandidateByCounts(mask: Grid, opening: Grid)
    requires SameShape(mask, opening) && IsBinary(mask) && IsBinary(opening)
    ensures IsCandidate(mask, opening) <==>
      Count(mask) == 0 || 20 * Count(AndGrid(mask, opening)) < 11 * Count(mask)
  {
    CandidateBySums(mask, opening);
    AndOfMasks(mask, opening);
    BinarySum(mask);
    BinarySum(AndGrid(mask, opening));
  }

  /** ANDing a mask with a mask that covers it gives the mask back. */
  lemma CoveredAnd(mask: Grid, opening: Grid)
    requires SameShape(mask, opening) && IsBinary(mask) && IsBinary(opening)
    requires forall i, j :: 0 <= i < |mask| && 0 <= j < |mask[i]| && mask[i][j] == Full ==> opening[i][j] == Full
    ensures AndGrid(mask, opening) == mask
  {
    AndOfMasks(mask, opening);
    var ov := AndGrid(mask, opening);
    assert |ov| == |mask|;
    forall i | 0 <= i < |mask| ensures ov[i] == mask[i] {
      assert |ov[i]| == |mask[i]|;
      forall j | 0 <= j < |mask[i]| ensures ov[i][j] == mask[i][j] {
        if mask[i][j] == Full {
          assert opening[i][j] == Full;
        }
      }
    }
  }

  /** A non-empty contour mask lying entirely inside `opening` has ratio 1
      and is never a candidate: the dedup rejects it. */
  lemma CoveredIsNotCandidate(mask: Grid, opening: Grid)
    requires SameShape(mask, opening) && IsBinary(mask) && IsBinary(opening)
    requires forall i, j :: 0 <= i < |mask| && 0 <= j < |mask[i]| && mask[i][j] == Full ==> opening[i][j] == Full
    requires Count(mask) > 0
    ensures OverlapRatio(mask, opening) == 1.0
    ensures !IsCandidate(mask, opening)
  {
    CoveredAnd(mask, opening);
    BinarySum(mask);
    SelfRatio(Sum(mask));
  }

  lemma SelfRatio(t: int)
    requires t > 0
    ensures t as real / t as real == 1.0
  {
  }
}
