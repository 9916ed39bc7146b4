/** Numeric helpers shared by every tier: Python's int() truncation, sums, prefix sums (numpy's
    cumsum) and division of a vector by its total. Probabilities are exact reals, sizes integers. */
module Numeric {

  /** Python's int() applied to a float: truncation toward zero (not floor). */
  function Trunc(x: real): (n: int)
    ensures 0.0 <= x ==> 0 <= n && n as real <= x < n as real + 1.0
    ensures x < 0.0 ==> n <= 0 && n as real - 1.0 < x <= n as real
  {
    if x >= 0.0 then x.Floor else -((-x).Floor)
  }

  /** Sum of a real vector (numpy.sum), accumulated from the last element. */
  function Sum(xs: seq<real>): real
  {
    if |xs| == 0 then 0.0 else Sum(xs[..|xs| - 1]) + xs[|xs| - 1]
  }

  /** Sum of an integer vector. */
  function SumInt(xs: seq<int>): int
  {
    if |xs| == 0 then 0 else SumInt(xs[..|xs| - 1]) + xs[|xs| - 1]
  }

  lemma {:induction false} SumConcat(a: seq<real>, b: seq<real>)
    ensures Sum(a + b) == Sum(a) + Sum(b)
    decreases |b|
  {
    if |b| == 0 {
      assert a + b == a;
    } else {
      assert (a + b)[..|a + b| - 1] == a + b[..|b| - 1];
      SumConcat(a, b[..|b| - 1]);
    }
  }

  lemma {:induction false} SumIntConcat(a: seq<int>, b: seq<int>)
    ensures SumInt(a + b) == SumInt(a) + SumInt(b)
    decreases |b|
  {
    if |b| == 0 {
      assert a + b == a;
    } else {
      assert (a + b)[..|a + b| - 1] == a + b[..|b| - 1];
      SumIntConcat(a, b[..|b| - 1]);
    }
  }

  /** A sum does not depend on the order of its terms. */
  lemma {:induction false} SumPermutation(a: seq<real>, b: seq<real>)
    requires multiset(a) == multiset(b)
    ensures Sum(a) == Sum(b)
    decreases |a|
  {
    if |a| == 0 {
      assert |b| == |multiset(b)| == 0;
    } else {
      var n := |a| - 1;
      assert a[n] in multiset(b);
      var k :| 0 <= k < |b| && b[k] == a[n];
      DropAt(a, n);
      DropAt(b, k);
      assert a[..n] + a[n + 1..] == a[..n];
      SumPermutation(a[..n], b[..k] + b[k + 1..]);
      SumDropAt(b, k);
    }
  }

  /** An integer sum does not depend on the order of its terms. */
  lemma {:induction false} SumIntPermutation(a: seq<int>, b: seq<int>)
    requires multiset(a) == multiset(b)
    ensures SumInt(a) == SumInt(b)
    decreases |a|
  {
    if |a| == 0 {
      assert |b| == |multiset(b)| == 0;
    } else {
      var n := |a| - 1;
      assert a[n] in multiset(b);
      var k :| 0 <= k < |b| && b[k] == a[n];
      DropAt(a, n);
      DropAt(b, k);
      assert a[..n] + a[n + 1..] == a[..n];
      SumIntPermutation(a[..n], b[..k] + b[k + 1..]);
      SumIntDropAt(b, k);
    }
  }

  /** Dropping the entry at `k` drops one copy of it from the multiset. */
  lemma DropAt<T>(b: seq<T>, k: nat)
    requires k < |b|
    ensures multiset(b[..k] + b[k + 1..]) == multiset(b) - multiset{b[k]}
  {
    Around(b, k);
  }

  /** A sequence is what comes before `k`, the entry at `k`, and what comes after. */
  lemma Around<T>(b: seq<T>, k: nat)
    requires k < |b|
    ensures b == b[..k] + [b[k]] + b[k + 1..]
  {
  }

  /** Dropping the entry at `k` takes it out of the sum. */
  lemma SumDropAt(b: seq<real>, k: nat)
    requires k < |b|
    ensures Sum(b) == Sum(b[..k] + b[k + 1..]) + b[k]
  {
    Around(b, k);
    SumAround(b[..k], b[k], b[k + 1..]);
  }

  lemma SumAround(pre: seq<real>, x: real, post: seq<real>)
    ensures Sum(pre + [x] + post) == Sum(pre + post) + x
  {
    SumConcat(pre + [x], post);
    SumConcat(pre, [x]);
    SumConcat(pre, post);
    assert Sum([x]) == x by { assert [x][..0] == []; }
  }

  lemma SumIntDropAt(b: seq<int>, k: nat)
    requires k < |b|
    ensures SumInt(b) == SumInt(b[..k] + b[k + 1..]) + b[k]
  {
    Around(b, k);
    SumIntAround(b[..k], b[k], b[k + 1..]);
  }

  lemma SumIntAround(pre: seq<int>, x: int, post: seq<int>)
    ensures SumInt(pre + [x] + post) == SumInt(pre + post) + x
  {
    SumIntConcat(pre + [x], post);
    SumIntConcat(pre, [x]);
    SumIntConcat(pre, post);
    assert SumInt([x]) == x by { assert [x][..0] == []; }
  }

  /** A sum of positive terms is positive. */
  lemma {:induction false} SumPositive(xs: seq<real>)
    requires |xs| > 0
    requires forall i :: 0 <= i < |xs| ==> xs[i] > 0.0
    ensures Sum(xs) > 0.0
    decreases |xs|
  {
    if |xs| > 1 {
      SumPositive(xs[..|xs| - 1]);
    }
  }

  /** A sum of positive integers is positive. */
  lemma {:induction false} SumIntPositive(xs: seq<int>)
    requires |xs| > 0
    requires forall i :: 0 <= i < |xs| ==> xs[i] > 0
    ensures SumInt(xs) > 0
    decreases |xs|
  {
    if |xs| > 1 {
      SumIntPositive(xs[..|xs| - 1]);
    }
  }

  /** With non-negative terms a prefix never sums to more than the whole. */
  lemma {:induction false} SumPrefixBound(xs: seq<real>, k: nat)
    requires k <= |xs|
    requires forall i :: 0 <= i < |xs| ==> xs[i] >= 0.0
    ensures 0.0 <= Sum(xs[..k]) <= Sum(xs)
    decreases |xs|
  {
    if k < |xs| {
      assert xs[..|xs| - 1][..k] == xs[..k];
      SumPrefixBound(xs[..|xs| - 1], k);
    } else {
      assert xs[..k] == xs;
      if |xs| > 0 {
        SumPrefixBound(xs[..|xs| - 1], |xs| - 1);
      }
    }
  }

  /** A prefix one longer adds its last entry. */
  lemma SumPrefixStep(xs: seq<real>, k: nat)
    requires k < |xs|
    ensures Sum(xs[..k + 1]) == Sum(xs[..k]) + xs[k]
  {
    assert xs[..k + 1][..k] == xs[..k];
  }

  /** With non-negative terms a longer prefix sums to at least as much. */
  lemma SumPrefixMonotone(xs: seq<real>, i: nat, j: nat)
    requires i <= j <= |xs|
    requires forall k :: 0 <= k < |xs| ==> xs[k] >= 0.0
    ensures Sum(xs[..i]) <= Sum(xs[..j])
  {
    assert xs[..j][..i] == xs[..i];
    SumPrefixBound(xs[..j], i);
  }

  /** With positive terms a longer prefix sums to strictly more. */
  lemma SumIntPrefixIncreasing(xs: seq<int>, i: nat, j: nat)
    requires i < j <= |xs|
    requires forall k :: 0 <= k < |xs| ==> xs[k] > 0
    ensures SumInt(xs[..i]) < SumInt(xs[..j])
  {
    assert xs[..j] == xs[..i] + xs[i..j];
    SumIntConcat(xs[..i], xs[i..j]);
    SumIntPositive(xs[i..j]);
  }

  /** numpy.cumsum: entry i is the sum of the first i + 1 terms. */
  function Cumsum(xs: seq<real>): (c: seq<real>)
    ensures |c| == |xs|
    ensures forall i :: 0 <= i < |xs| ==> c[i] == Sum(xs[..i + 1])
  {
    if |xs| == 0 then []
    else
      var n := |xs| - 1;
      assert xs[..n + 1] == xs;
      assert forall j :: 0 < j <= n ==> xs[..n][..j] == xs[..j];
      Cumsum(xs[..n]) + [Sum(xs)]
  }

  /** numpy.cumsum over integers. */
  function CumsumInt(xs: seq<int>): (c: seq<int>)
    ensures |c| == |xs|
    ensures forall i :: 0 <= i < |xs| ==> c[i] == SumInt(xs[..i + 1])
  {
    if |xs| == 0 then []
    else
      var n := |xs| - 1;
      assert xs[..n + 1] == xs;
      assert forall j :: 0 < j <= n ==> xs[..n][..j] == xs[..j];
      CumsumInt(xs[..n]) + [SumInt(xs)]
  }

  ghost predicate NonIncreasing(xs: seq<real>)
  {
    forall i, j :: 0 <= i < j < |xs| ==> xs[i] >= xs[j]
  }

  ghost predicate NonDecreasing(xs: seq<real>)
  {
    forall i, j :: 0 <= i < j < |xs| ==> xs[i] <= xs[j]
  }

  ghost predicate Increasing(xs: seq<int>)
  {
    forall i, j :: 0 <= i < j < |xs| ==> xs[i] < xs[j]
  }

  /** Prefix sums of non-negative terms never decrease. */
  lemma {:induction false} CumsumNonDecreasing(xs: seq<real>)
    requires forall i :: 0 <= i < |xs| ==> xs[i] >= 0.0
    ensures NonDecreasing(Cumsum(xs))
  {
    var c := Cumsum(xs);
    forall i, j | 0 <= i < j < |xs| ensures c[i] <= c[j] {
      SumPrefixMonotone(xs, i + 1, j + 1);
    }
  }

  /** Prefix sums of positive integers strictly increase. */
  lemma {:induction false} CumsumIntIncreasing(xs: seq<int>)
    requires forall i :: 0 <= i < |xs| ==> xs[i] > 0
    ensures Increasing(CumsumInt(xs))
  {
    var c := CumsumInt(xs);
    forall i, j | 0 <= i < j < |xs| ensures c[i] < c[j] {
      assert c[i] == SumInt(xs[..i + 1]) && c[j] == SumInt(xs[..j + 1]);
      SumIntPrefixIncreasing(xs, i + 1, j + 1);
    }
  }

  /** `xs / total` as numpy divides a vector by a scalar. A zero total is left undivided: numpy
      would produce NaN entries there, which this model does not represent. */
  function Normalise(xs: seq<real>, total: real): (r: seq<real>)
    ensures |r| == |xs|
    ensures total != 0.0 ==> forall i :: 0 <= i < |xs| ==> r[i] * total == xs[i]
    ensures total == 0.0 ==> r == xs
  {
    if total == 0.0 then xs else seq(|xs|, i requires 0 <= i < |xs| => xs[i] / total)
  }

  /** Dividing every term by the total divides the sum by it. */
  lemma {:induction false} SumNormalise(xs: seq<real>, total: real)
    requires total != 0.0
    ensures Sum(Normalise(xs, total)) == Sum(xs) / total
    decreases |xs|
  {
    if |xs| > 0 {
      var n := |xs| - 1;
      assert Normalise(xs, total)[..n] == Normalise(xs[..n], total);
      SumNormalise(xs[..n], total);
      assert Sum(xs[..n]) / total + xs[n] / total == (Sum(xs[..n]) + xs[n]) / total;
    }
  }

  /** A vector divided by its own non-zero sum sums to one. */
  lemma NormaliseSumsToOne(xs: seq<real>)
    requires Sum(xs) != 0.0
    ensures Sum(Normalise(xs, Sum(xs))) == 1.0
  {
    SumNormalise(xs, Sum(xs));
    assert Sum(xs) / Sum(xs) == 1.0;
  }

  /** Normalising twice is normalising once: the second division is by one, or by zero. */
  lemma NormaliseIdempotent(xs: seq<real>)
    ensures Normalise(Normalise(xs, Sum(xs)), Sum(Normalise(xs, Sum(xs)))) == Normalise(xs, Sum(xs))
  {
    if Sum(xs) != 0.0 {
      NormaliseSumsToOne(xs);
    }
  }

  /** Division by a positive total keeps positive terms positive and keeps their order. */
  lemma NormalisePositive(xs: seq<real>, total: real)
    requires total > 0.0
    ensures (forall i :: 0 <= i < |xs| ==> xs[i] > 0.0) ==>
              forall i :: 0 <= i < |xs| ==> Normalise(xs, total)[i] > 0.0
    ensures NonIncreasing(xs) ==> NonIncreasing(Normalise(xs, total))
  {
    var r := Normalise(xs, total);
    if NonIncreasing(xs) {
      forall i, j | 0 <= i < j < |xs| ensures r[i] >= r[j] {
        assert r[i] * total >= r[j] * total;
      }
    }
  }

  /** Probability-weighted sum of sizes (numpy.sum(numpy.multiply(pmf, size))). */
  function Dot(p: seq<real>, s: seq<int>): real
    requires |p| == |s|
  {
    if |p| == 0 then 0.0 else Dot(p[..|p| - 1], s[..|s| - 1]) + p[|p| - 1] * s[|s| - 1] as real
  }

  /** A weighted sum with positive weights and positive values is positive. */
  lemma {:induction false} DotPositive(p: seq<real>, s: seq<int>)
    requires |p| == |s| > 0
    requires forall i :: 0 <= i < |p| ==> p[i] > 0.0 && s[i] > 0
    ensures Dot(p, s) > 0.0
    decreases |p|
  {
    var n := |p| - 1;
    assert p[n] * s[n] as real > 0.0;
    if n > 0 {
      DotPositive(p[..n], s[..n]);
    }
  }

  /** A weighted sum with non-negative weights is at most the largest value times the weight. */
  lemma {:induction false} DotBound(p: seq<real>, s: seq<int>, m: int)
    requires |p| == |s|
    requires forall i :: 0 <= i < |p| ==> p[i] >= 0.0 && s[i] <= m
    ensures Dot(p, s) <= m as real * Sum(p)
    decreases |p|
  {
    if |p| > 0 {
      var n := |p| - 1;
      DotBound(p[..n], s[..n], m);
      assert p[n] * s[n] as real <= p[n] * m as real;
    }
  }

  /** Multiplying by a non-zero mean and by eight bits per byte, then dividing by both, is the
      identity. */
  lemma BitRateRoundTrip(x: real, m: real)
    requires m != 0.0
    ensures x * m * 8.0 / 8.0 / m == x
  {
    var y := x * m;
    assert y * 8.0 / 8.0 == y;
    assert y / m == x;
  }

  lemma TruncMonotone(x: real, y: real)
    requires x <= y
    ensures Trunc(x) <= Trunc(y)
  {
  }

  /** A share `a` in [0, 1] of a non-negative `x` lies in [0, x]. */
  lemma ShareBounds(a: real, x: real)
    requires 0.0 <= a <= 1.0 && 0.0 <= x
    ensures 0.0 <= a * x <= x
  {
    assert x - a * x == (1.0 - a) * x;
  }

  /** A larger share of a non-negative `x` is larger. */
  lemma ShareMonotone(a: real, b: real, x: real)
    requires a <= b && 0.0 <= x
    ensures a * x <= b * x
  {
    assert b * x - a * x == (b - a) * x;
  }

  lemma RatioBounds(a: real, b: real)
    requires 0.0 <= a <= b && 0.0 < b
    ensures 0.0 <= a / b <= 1.0
  {
    assert a / b * b == a;
  }

  /** `int(n * a)`: a share `a` of an integer amount, truncated toward zero. */
  function TruncShare(n: int, a: real): int
  {
    Trunc(n as real * a)
  }

  /** Truncating a larger share of a non-negative amount gives no less. */
  lemma TruncShareMonotone(n: int, a: real, b: real)
    requires 0 <= n && a <= b
    ensures TruncShare(n, a) <= TruncShare(n, b)
  {
    ShareMonotone(a, b, n as real);
    TruncMonotone(n as real * a, n as real * b);
  }

  /** Truncating a share in [0, 1] of a non-negative integer stays within [0, n]. */
  lemma TruncShareBounds(n: int, a: real)
    requires 0 <= n && 0.0 <= a <= 1.0
    ensures 0 <= TruncShare(n, a) <= n
  {
    ShareBounds(a, n as real);
  }

  /** `int(n * (1 - c))`: what a hit probability `c` leaves of an integer amount, truncated toward
      zero. */
  function Residual(n: int, c: real): int
  {
    TruncShare(n, 1.0 - c)
  }

  /** A larger hit probability leaves no more. */
  lemma ResidualAntitone(n: int, c1: real, c2: real)
    requires 0 <= n && c1 <= c2
    ensures Residual(n, c2) <= Residual(n, c1)
  {
    TruncShareMonotone(n, 1.0 - c2, 1.0 - c1);
  }

  /** A hit probability leaves between none and all of a non-negative amount. */
  lemma ResidualBounds(n: int, c: real)
    requires 0 <= n && 0.0 <= c <= 1.0
    ensures 0 <= Residual(n, c) <= n
  {
    TruncShareBounds(n, 1.0 - c);
  }

  /** Multiplying by a positive factor keeps a strict order. */
  lemma ShareStrict(a: real, b: real, x: real)
    requires a < b && 0.0 < x
    ensures a * x < b * x
  {
    assert b * x - a * x == (b - a) * x;
  }

  /** `int(a / b)` for `a >= 0` and `b > 0` is the largest whole number of `b`s within `a`. */
  lemma TruncQuotient(a: real, b: real)
    requires 0.0 <= a && 0.0 < b
    ensures 0 <= Trunc(a / b)
    ensures Trunc(a / b) as real * b <= a < Trunc(a / b) as real * b + b
  {
    QuotientNonNegative(a, b);
    QuotientTimes(a, b);
    WholeShares(a, b, a / b, Trunc(a / b));
  }

  lemma QuotientTimes(a: real, b: real)
    requires b != 0.0
    ensures a / b * b == a
  {
  }

  /** A whole number `q` with `q <= a / b < q + 1` counts the `b`s within `a`. */
  lemma WholeShares(a: real, b: real, x: real, q: int)
    requires 0.0 < b && x * b == a && q as real <= x < q as real + 1.0
    ensures q as real * b <= a < q as real * b + b
  {
    AtLeastShare(a, b, x, q as real);
    BelowNextShare(a, b, x, q as real);
  }

  lemma AtLeastShare(a: real, b: real, x: real, y: real)
    requires 0.0 < b && x * b == a && y <= x
    ensures y * b <= a
  {
    ShareMonotone(y, x, b);
  }

  lemma BelowNextShare(a: real, b: real, x: real, y: real)
    requires 0.0 < b && x * b == a && x < y + 1.0
    ensures a < y * b + b
  {
    ShareStrict(x, y + 1.0, b);
    assert (y + 1.0) * b == y * b + b;
  }

  /** `int(a / b)` for `a >= 0` and `b > 0` is zero exactly when `a < b`. */
  lemma TruncQuotientZero(a: real, b: real)
    requires 0.0 <= a && 0.0 < b
    ensures Trunc(a / b) == 0 <==> a < b
  {
    TruncQuotient(a, b);
    var q := Trunc(a / b);
    if q >= 1 {
      WholeShare(a, b, q as real);
    } else {
      NoShare(a, b, q as real);
    }
  }

  lemma WholeShare(a: real, b: real, y: real)
    requires 0.0 < b && 1.0 <= y && y * b <= a
    ensures b <= a
  {
    ShareMonotone(1.0, y, b);
  }

  lemma NoShare(a: real, b: real, y: real)
    requires y == 0.0 && a < y * b + b
    ensures a < b
  {
  }

  lemma QuotientNonNegative(a: real, b: real)
    requires 0.0 <= a && 0.0 < b
    ensures 0.0 <= a / b
  {
    assert a / b * b == a;
  }
}
