/** Label selection: `np.unique(markers)` (the distinct values of the grown
    map, ascending) filtered to the region labels, those greater than 1. */
module Labels {
  import opened Grids

  predicate StrictlyIncreasing(s: seq<int>) {
    forall i, j :: 0 <= i < j < |s| ==> s[i] < s[j]
  }

  /** Prepending a value below every element keeps a sequence ascending. */
  lemma ConsIncreasing(a: int, t: seq<int>)
    requires StrictlyIncreasing(t) && forall v :: v in t ==> a < v
    ensures StrictlyIncreasing([a] + t)
  {
    forall i, j | 0 <= i < j < |[a] + t| ensures ([a] + t)[i] < ([a] + t)[j] {
      assert t[j - 1] in t;
    }
  }

  /** Insert `x` into an ascending duplicate-free sequence. */
  function Insert(u: seq<int>, x: int): (r: seq<int>)
    requires StrictlyIncreasing(u)
    ensures StrictlyIncreasing(r)
    ensures forall v :: v in r <==> v in u || v == x
  {
    if u == [] then [x]
    else if x < u[0] then [x] + u
    else if x == u[0] then u
    else
      var rest := Insert(u[1..], x);
      assert forall v :: v in u[1..] ==> u[0] < v by {
        forall v | v in u[1..] ensures u[0] < v {
          var k :| 0 <= k < |u[1..]| && u[1..][k] == v;
          assert u[k + 1] == v;
        }
      }
      ConsIncreasing(u[0], rest);
      [u[0]] + rest
  }

  /** `np.unique`: the distinct values of `s` in ascending order. */
  function Unique(s: seq<int>): (r: seq<int>)
    ensures StrictlyIncreasing(r)
    ensures forall v :: v in r <==> v in s
  {
    if s == [] then [] else Insert(Unique(s[1..]), s[0])
  }

  /** Two ascending duplicate-free sequences with the same elements are
      equal, so the contract of `Unique` fixes its result. */
  lemma {:induction false} AscendingUnique(a: seq<int>, b: seq<int>)
    requires StrictlyIncreasing(a) && StrictlyIncreasing(b)
    requires forall v :: v in a <==> v in b
    ensures a == b
  {
    SameEmptiness(a, b);
    if a != [] {
      HeadIsLeast(a);
      HeadIsLeast(b);
      var x, y := a[0], b[0];
      assert x in a && x in b && y in b && y in a;
      assert x == y;
      forall v ensures v in a[1..] <==> v in b[1..] {
        assert a == [a[0]] + a[1..] && b == [b[0]] + b[1..];
        if v in a[1..] {
          var k :| 0 <= k < |a[1..]| && a[1..][k] == v;
          assert a[0] < a[k + 1] && a[k + 1] in a;
          assert v in b && v != b[0];
        }
        if v in b[1..] {
          var k :| 0 <= k < |b[1..]| && b[1..][k] == v;
          assert b[0] < b[k + 1] && b[k + 1] in b;
          assert v in a && v != a[0];
        }
      }
      AscendingUnique(a[1..], b[1..]);
    }
  }

  lemma SameEmptiness(a: seq<int>, b: seq<int>)
    requires forall v :: v in a <==> v in b
    ensures a == [] <==> b == []
  {
    if a != [] {
      var x := a[0];
      assert x in a && x in b;
    }
    if b != [] {
      var x := b[0];
      assert x in b && x in a;
    }
  }

  lemma HeadIsLeast(s: seq<int>)
    requires StrictlyIncreasing(s) && s != []
    ensures forall v :: v in s ==> s[0] <= v
  {
  }

  /** `[m for m in unique if m > 1]`. */
  function ValidMarkers(u: seq<int>): (r: seq<int>)
    ensures |r| <= |u|
    ensures forall v :: v in r <==> v in u && v > 1
    ensures StrictlyIncreasing(u) ==> StrictlyIncreasing(r)
  {
    if u == [] then []
    else if u[0] > 1 then
      var rest := ValidMarkers(u[1..]);
      if StrictlyIncreasing(u) then
        assert forall v :: v in u[1..] ==> u[0] < v by {
          forall v | v in u[1..] ensures u[0] < v {
            var k :| 0 <= k < |u[1..]| && u[1..][k] == v;
            assert u[k + 1] == v;
          }
        }
        ConsIncreasing(u[0], rest);
        [u[0]] + rest
      else
        [u[0]] + rest
    else ValidMarkers(u[1..])
  }

  /** The region labels of a grown map: ascending, duplicate-free, and holding
      exactly the values above 1 that some pixel carries; so neither the
      boundary label -1, nor 0, nor the background label 1 is among them. */
  lemma RegionLabels(grown: Grid)
    ensures StrictlyIncreasing(ValidMarkers(Unique(Flatten(grown))))
    ensures forall v :: v in ValidMarkers(Unique(Flatten(grown))) <==>
      v > 1 && exists i, j :: 0 <= i < |grown| && 0 <= j < |grown[i]| && grown[i][j] == v
    ensures -1 !in ValidMarkers(Unique(Flatten(grown)))
    ensures 0 !in ValidMarkers(Unique(Flatten(grown))) && 1 !in ValidMarkers(Unique(Flatten(grown)))
  {
    forall v ensures v in Flatten(grown) <==>
      exists i, j :: 0 <= i < |grown| && 0 <= j < |grown[i]| && grown[i][j] == v
    {
      FlattenHolds(grown, v);
    }
  }
}
