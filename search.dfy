/** `numpy.argmin(numpy.abs(volume - v))`: the index whose cumulative volume is nearest a storage
    budget, the lowest such index on ties. */
module Search {
  import opened Numeric

  function Dist(vol: int, v: real): real
  {
    if vol as real >= v then vol as real - v else v - vol as real
  }

  /** `i` is the first index at minimal distance from `v`. */
  ghost predicate IsFirstNearest(vol: seq<int>, v: real, i: int)
  {
    && 0 <= i < |vol|
    && (forall j :: 0 <= j < |vol| ==> Dist(vol[i], v) <= Dist(vol[j], v))
    && (forall j :: 0 <= j < i ==> Dist(vol[i], v) < Dist(vol[j], v))
  }

  /** At most one index is the first nearest. */
  lemma FirstNearestUnique(vol: seq<int>, v: real, i: int, k: int)
    requires IsFirstNearest(vol, v, i) && IsFirstNearest(vol, v, k)
    ensures i == k
  {
    var di, dk := Dist(vol[i], v), Dist(vol[k], v);
    assert i < k ==> dk < di;
    assert k < i ==> di < dk;
  }

  /** The argmin, scanning left to right and replacing the candidate only on a strictly smaller
      distance, as numpy does. */
  function Nearest(vol: seq<int>, v: real): (i: nat)
    requires |vol| > 0
    ensures IsFirstNearest(vol, v, i)
  {
    if |vol| == 1 then 0
    else
      var n := |vol| - 1;
      var k := Nearest(vol[..n], v);
      if Dist(vol[n], v) < Dist(vol[k], v) then n else k
  }

  ghost predicate Sorted(vol: seq<int>)
  {
    forall i, j :: 0 <= i <= j < |vol| ==> vol[i] <= vol[j]
  }

  /** First index whose value is at least `x` (|vol| if none). */
  method LowerBound(vol: seq<int>, x: real) returns (lo: nat)
    requires Sorted(vol)
    ensures lo <= |vol|
    ensures forall j :: 0 <= j < lo ==> (vol[j] as real) < x
    ensures forall j :: lo <= j < |vol| ==> x <= vol[j] as real
  {
    lo := 0;
    var hi := |vol|;
    while lo < hi
      invariant 0 <= lo <= hi <= |vol|
      invariant forall j :: 0 <= j < lo ==> (vol[j] as real) < x
      invariant forall j :: hi <= j < |vol| ==> x <= vol[j] as real
    {
      var mid := (lo + hi) / 2;
      if (vol[mid] as real) < x {
        lo := mid + 1;
      } else {
        hi := mid;
      }
    }
  }

  /** The nearest index found by binary search over the sorted volume array, equal to the argmin
      scan on every input. */
  method NearestIndex(vol: seq<int>, v: real) returns (i: nat)
    requires |vol| > 0 && Sorted(vol)
    ensures i == Nearest(vol, v)
  {
    var n := |vol|;
    var lo := LowerBound(vol, v);
    if lo == 0 {
      i := 0;
    } else if lo == n {
      i := LowerBound(vol, vol[n - 1] as real);
      assert vol[i] == vol[n - 1];
    } else if v - vol[lo - 1] as real <= vol[lo] as real - v {
      i := LowerBound(vol, vol[lo - 1] as real);
      assert vol[i] == vol[lo - 1];
    } else {
      i := lo;
    }
    assert IsFirstNearest(vol, v, i);
    FirstNearestUnique(vol, v, i, Nearest(vol, v));
  }

  /** On a sorted volume array a larger budget never selects an earlier index. */
  lemma NearestMonotone(vol: seq<int>, v1: real, v2: real)
    requires |vol| > 0 && Sorted(vol) && v1 <= v2
    ensures Nearest(vol, v1) <= Nearest(vol, v2)
  {
    var i, j := Nearest(vol, v1), Nearest(vol, v2);
    var di1, dj1, di2, dj2 := Dist(vol[i], v1), Dist(vol[j], v1), Dist(vol[i], v2), Dist(vol[j], v2);
    assert j < i ==> di1 < dj1 && dj2 <= di2;
  }

  /** A budget at or below the first volume selects index 0. */
  lemma NearestBelowFirst(vol: seq<int>, v: real)
    requires |vol| > 0 && Sorted(vol) && v <= vol[0] as real
    ensures Nearest(vol, v) == 0
  {
    assert IsFirstNearest(vol, v, 0);
    FirstNearestUnique(vol, v, 0, Nearest(vol, v));
  }

  /** On a strictly increasing volume array a budget at or beyond the last volume selects the last
      index. */
  lemma NearestBeyondLast(vol: seq<int>, v: real)
    requires |vol| > 0 && Increasing(vol) && vol[|vol| - 1] as real <= v
    ensures Nearest(vol, v) == |vol| - 1
  {
    assert IsFirstNearest(vol, v, |vol| - 1);
    FirstNearestUnique(vol, v, |vol| - 1, Nearest(vol, v));
  }
}
