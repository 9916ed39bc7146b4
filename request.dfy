/** The content-popularity profile of cdn/request.py: an immutable catalog of (size, probability)
    pairs ranked by decreasing probability, with its cumulative distribution over the cumulative
    volume, the split into cached ("hit") and residual ("miss") sub-profiles, the sharding done by
    consistent hashing, and the request-rate/bit-rate conversions. */
module Profiles {
  import opened Wrappers
  import opened Numeric
  import opened Ranking
  import opened Search
  import opened Strides

  /** The conditions under which the source raises. */
  datatype Error =
    | ShapeMismatch             // sizes and probabilities of different length
    | NonPositiveContentBase    // a non-empty catalog whose sizes do not sum to a positive value
    | ReplicationNotBelowNodes  // consistent hashing with replication >= nodes
    | NothingToConcatenate      // numpy.concatenate of an empty list (replication <= 0)
    | EmptyArgmin               // numpy.argmin of an empty array
    | DivisionByZero            // Python's ZeroDivisionError

  /** A constructed profile: `size` and `pmf` in rank order. The cumulative arrays are derived. */
  datatype Request = Request(size: seq<int>, pmf: seq<real>)
  {
    predicate Shaped()
    {
      |size| == |pmf|
    }
  }

  const Empty: Request := Request([], [])

  /** `Request(size, probability)`: validate, then rank and normalise. */
  function Make(size: seq<int>, probability: seq<real>): (r: Result<Request, Error>)
    ensures r.Success? ==> r.value.Shaped() && |r.value.size| == |size|
    ensures r.Failure? <==> |size| != |probability| || (|size| > 0 && SumInt(size) <= 0)
    ensures r.Failure? ==> r.error == if |size| != |probability| then ShapeMismatch else NonPositiveContentBase
  {
    if |size| != |probability| then Failure(ShapeMismatch)
    else if |probability| == 0 then Success(Empty)
    else if SumInt(size) <= 0 then Failure(NonPositiveContentBase)
    else Success(RankAndNormalise(size, probability))
  }

  /** The pairs in decreasing order of probability, each probability divided by the total. */
  function RankAndNormalise(size: seq<int>, probability: seq<real>): (r: Request)
    requires |size| == |probability|
    ensures r.Shaped() && |r.size| == |size|
  {
    var ranked := Rank(Zip(size, probability));
    Request(Sizes(ranked), Normalise(Probs(ranked), Sum(probability)))
  }

  /** `contentbase`: the total size of the catalog, which is the last cumulative volume. */
  function ContentBase(r: Request): (c: int)
    ensures |r.size| == 0 ==> c == 0
    ensures |r.size| > 0 ==> c == Volume(r)[|r.size| - 1]
  {
    assert r.size[..|r.size|] == r.size;
    SumInt(r.size)
  }

  /** `_volume`: cumulative size in rank order; entry `i` is the size of ranks `0 .. i` together. */
  function Volume(r: Request): (v: seq<int>)
    ensures |v| == |r.size|
    ensures forall i :: 0 <= i < |r.size| ==> v[i] == SumInt(r.size[..i + 1])
  {
    CumsumInt(r.size)
  }

  /** `_cdf`: cumulative probability in rank order. */
  function CdfVector(r: Request): seq<real>
  {
    Cumsum(r.pmf)
  }

  /** The rank whose cumulative volume is nearest the budget `v`, the lowest on ties. */
  function NearestRank(r: Request, v: real): (i: nat)
    requires r.Shaped() && |r.size| > 0
    ensures IsFirstNearest(Volume(r), v, i)
  {
    Nearest(Volume(r), v)
  }

  /** `pmf(v)`: the probability of the rank nearest the budget. */
  function Pmf(r: Request, v: real): (res: Result<real, Error>)
    requires r.Shaped()
    ensures res.Failure? <==> |r.size| == 0
    ensures res.Failure? ==> res.error == EmptyArgmin
    ensures res.Success? ==> res.value == r.pmf[NearestRank(r, v)]
  {
    if |r.pmf| == 0 then Failure(EmptyArgmin) else Success(r.pmf[NearestRank(r, v)])
  }

  /** `cdf(v)`: the probability mass of every rank up to and including the one nearest the budget;
      1 for an empty profile. */
  function Cdf(r: Request, v: real): (c: real)
    requires r.Shaped()
    ensures |r.size| == 0 ==> c == 1.0
    ensures |r.size| > 0 ==> c == Sum(r.pmf[..NearestRank(r, v) + 1])
  {
    if |r.pmf| == 0 then 1.0 else CdfVector(r)[NearestRank(r, v)]
  }

  /** `int(rps * (1 - cdf(v)))`: the requests a storage budget `v` does not serve, truncated
      toward zero. */
  function Missed(r: Request, rps: int, v: real): int
    requires r.Shaped()
  {
    Residual(rps, Cdf(r, v))
  }

  /** `Request(size[lo:hi], pmf[lo:hi] / sum(pmf[lo:hi]))`: a slice of the ranked catalog,
      renormalised and re-constructed. */
  function Slice(r: Request, lo: nat, hi: nat): (res: Result<Request, Error>)
    requires r.Shaped() && lo <= hi <= |r.size|
    ensures res.Success? ==> res.value.Shaped() && |res.value.size| == hi - lo
    ensures res.Failure? ==> res.error == NonPositiveContentBase
  {
    Make(r.size[lo..hi], Normalise(r.pmf[lo..hi], Sum(r.pmf[lo..hi])))
  }

  /** `hit(v)`: the ranks strictly before the nearest one. */
  function Hit(r: Request, v: real): (res: Result<Request, Error>)
    requires r.Shaped()
    ensures res == Failure(EmptyArgmin) <==> |r.size| == 0
  {
    if |r.pmf| == 0 then Failure(EmptyArgmin) else Slice(r, 0, NearestRank(r, v))
  }

  /** `miss(v)`: the ranks strictly after the nearest one; empty for an empty profile. */
  function Miss(r: Request, v: real): (res: Result<Request, Error>)
    requires r.Shaped()
    ensures |r.size| == 0 ==> res == Success(Empty)
    ensures res.Success? ==> res.value.Shaped() && (|res.value.size| < |r.size| || |r.size| == 0)
  {
    if |r.pmf| == 0 then Success(Empty) else Slice(r, NearestRank(r, v) + 1, |r.size|)
  }

  /** `hit` as the cumulative distribution counts it: the ranks up to and including the nearest. */
  function HitInclusive(r: Request, v: real): (res: Result<Request, Error>)
    requires r.Shaped()
    ensures res == Failure(EmptyArgmin) <==> |r.size| == 0
  {
    if |r.pmf| == 0 then Failure(EmptyArgmin) else Slice(r, 0, NearestRank(r, v) + 1)
  }

  /** `meanrequestsize`: the probability-weighted mean size. */
  function MeanRequestSize(r: Request): real
    requires r.Shaped()
  {
    Dot(r.pmf, r.size)
  }

  /** `rps2bps`: requests per second to bits per second. */
  function Rps2Bps(r: Request, rps: real): real
    requires r.Shaped()
  {
    rps * MeanRequestSize(r) * 8.0
  }

  /** `bps2rps`: bits per second to requests per second; `None` where the source divides by a zero
      mean size (an infinite or NaN float). */
  function Bps2Rps(r: Request, bps: real): Option<real>
    requires r.Shaped()
  {
    if MeanRequestSize(r) == 0.0 then None else Some(bps / 8.0 / MeanRequestSize(r))
  }

  /** The probabilities of one shard: each stride divided by its own sum, concatenated. */
  function ShardPmf(pmf: seq<real>, nodes: nat, n: nat, count: nat): seq<real>
    requires nodes > 0
  {
    if count == 0 then []
    else
      var stride := Stride(pmf, (n + count - 1) % nodes, nodes);
      ShardPmf(pmf, nodes, n, count - 1) + Normalise(stride, Sum(stride))
  }

  /** The profile held by node `n` of a consistent-hashing cluster. */
  function ShardRequest(r: Request, nodes: nat, n: nat, replication: nat): Result<Request, Error>
    requires r.Shaped() && nodes > 0
  {
    Make(Shard(r.size, nodes, n, replication), ShardPmf(r.pmf, nodes, n, replication))
  }

  /** The profiles of nodes `0 .. count - 1`, failing at the first node whose profile fails. */
  function BuildShards(r: Request, nodes: nat, replication: nat, count: nat): (res: Result<seq<Request>, Error>)
    requires r.Shaped() && nodes > 0
    ensures res.Success? <==> forall n :: 0 <= n < count ==> ShardRequest(r, nodes, n, replication).Success?
    ensures res.Success? ==> |res.value| == count
    ensures res.Success? ==> forall n :: 0 <= n < count ==> ShardRequest(r, nodes, n, replication) == Success(res.value[n])
  {
    if count == 0 then Success([])
    else
      var front :- BuildShards(r, nodes, replication, count - 1);
      var last :- ShardRequest(r, nodes, count - 1, replication);
      Success(front + [last])
  }

  /** `consistenthashing(nodes, replication)`. */
  function ConsistentHashing(r: Request, nodes: int, replication: int): (res: Result<seq<Request>, Error>)
    requires r.Shaped()
    ensures replication >= nodes ==> res == Failure(ReplicationNotBelowNodes)
    ensures nodes <= 0 && replication < nodes ==> res == Success([])
    ensures 0 < nodes && replication <= 0 ==> res == Failure(NothingToConcatenate)
    ensures 0 < replication < nodes ==>
      (res.Success? <==> forall n :: 0 <= n < nodes ==> ShardRequest(r, nodes, n, replication).Success?)
    ensures 0 < replication < nodes && res.Success? ==>
      |res.value| == nodes &&
      forall n :: 0 <= n < nodes ==> ShardRequest(r, nodes, n, replication) == Success(res.value[n])
  {
    if replication >= nodes then Failure(ReplicationNotBelowNodes)
    else if nodes <= 0 then Success([])
    else if replication <= 0 then Failure(NothingToConcatenate)
    else BuildShards(r, nodes, replication, nodes)
  }

  /** The invariant of every profile built from positive sizes and probabilities: positive
      entries, probabilities ranked non-increasing and summing to one. */
  ghost predicate WellFormed(r: Request)
  {
    && r.Shaped()
    && (forall i :: 0 <= i < |r.size| ==> r.size[i] > 0)
    && (forall i :: 0 <= i < |r.pmf| ==> r.pmf[i] > 0.0)
    && NonIncreasing(r.pmf)
    && (|r.pmf| > 0 ==> Sum(r.pmf) == 1.0)
  }

  lemma RankAndNormalisePairs(size: seq<int>, probability: seq<real>)
    requires |size| == |probability|
    ensures multiset(Zip(RankAndNormalise(size, probability).size, RankAndNormalise(size, probability).pmf))
         == multiset(Zip(size, Normalise(probability, Sum(probability))))
    ensures multiset(RankAndNormalise(size, probability).size) == multiset(size)
    ensures SumInt(RankAndNormalise(size, probability).size) == SumInt(size)
  {
    var items := Zip(size, probability);
    RankScaled(size, probability, Sum(probability));
    RankKeepsColumns(items);
    SizesProbsZip(size, probability);
  }

  lemma RankAndNormaliseNormalised(size: seq<int>, probability: seq<real>)
    requires |size| == |probability|
    ensures Sum(probability) > 0.0 ==> NonIncreasing(RankAndNormalise(size, probability).pmf)
    ensures Sum(probability) != 0.0 ==> Sum(RankAndNormalise(size, probability).pmf) == 1.0
  {
    var t := Sum(probability);
    var ranked := Rank(Zip(size, probability));
    var p := Probs(ranked);
    assert RankAndNormalise(size, probability).pmf == Normalise(p, t);
    if t > 0.0 {
      RankedProbs(ranked);
      NormalisePositive(p, t);
    }
    if t != 0.0 {
      RankKeepsColumns(Zip(size, probability));
      SizesProbsZip(size, probability);
      assert Sum(p) == t;
      NormaliseSumsToOne(p);
    }
  }

  /** Construction keeps every (size, probability) pair, the probability divided by the total, in
      ranked order; it keeps the content base and normalises the probabilities. */
  lemma MakeSpec(size: seq<int>, probability: seq<real>)
    requires Make(size, probability).Success?
    ensures multiset(Zip(Make(size, probability).value.size, Make(size, probability).value.pmf))
         == multiset(Zip(size, Normalise(probability, Sum(probability))))
    ensures multiset(Make(size, probability).value.size) == multiset(size)
    ensures ContentBase(Make(size, probability).value) == SumInt(size)
    ensures |size| > 0 ==> ContentBase(Make(size, probability).value) > 0
    ensures Sum(probability) > 0.0 ==> NonIncreasing(Make(size, probability).value.pmf)
    ensures Sum(probability) != 0.0 ==> Sum(Make(size, probability).value.pmf) == 1.0
  {
    if |size| > 0 {
      RankAndNormalisePairs(size, probability);
      RankAndNormaliseNormalised(size, probability);
    }
  }

  /** Positive sizes and probabilities always construct, into a well-formed profile. */
  lemma MakeWellFormed(size: seq<int>, probability: seq<real>)
    requires |size| == |probability|
    requires forall i :: 0 <= i < |size| ==> size[i] > 0 && probability[i] > 0.0
    ensures Make(size, probability).Success?
    ensures WellFormed(Make(size, probability).value)
  {
    if |size| > 0 {
      SumIntPositive(size);
      SumPositive(probability);
      MakeSpec(size, probability);
      var np := Normalise(probability, Sum(probability));
      NormalisePositive(probability, Sum(probability));
      var r := Make(size, probability).value;
      PairsPositive(r.size, r.pmf, size, np);
    }
  }

  /** Pairs rearranged from positive pairs are positive. */
  lemma PairsPositive(s: seq<int>, p: seq<real>, s0: seq<int>, p0: seq<real>)
    requires |s| == |p| && |s0| == |p0|
    requires multiset(Zip(s, p)) == multiset(Zip(s0, p0))
    requires forall i :: 0 <= i < |s0| ==> s0[i] > 0 && p0[i] > 0.0
    ensures forall i :: 0 <= i < |s| ==> s[i] > 0 && p[i] > 0.0
  {
    var z, z0 := Zip(s, p), Zip(s0, p0);
    forall i | 0 <= i < |s|
      ensures s[i] > 0 && p[i] > 0.0
    {
      assert z[i] in multiset(z0);
      var k :| 0 <= k < |z0| && z0[k] == z[i];
    }
  }

  lemma VolumeIncreasing(r: Request)
    requires WellFormed(r)
    ensures Increasing(Volume(r)) && Sorted(Volume(r))
  {
    CumsumIntIncreasing(r.size);
  }

  /** The cumulative distribution is a probability. */
  lemma CdfBounds(r: Request, v: real)
    requires WellFormed(r)
    ensures 0.0 <= Cdf(r, v) <= 1.0
  {
    if |r.size| > 0 {
      SumPrefixBound(r.pmf, NearestRank(r, v) + 1);
    }
  }

  /** More storage never lowers the hit ratio. */
  lemma CdfMonotone(r: Request, v1: real, v2: real)
    requires WellFormed(r) && v1 <= v2
    ensures Cdf(r, v1) <= Cdf(r, v2)
  {
    if |r.size| > 0 {
      var i1, i2 := NearestRank(r, v1), NearestRank(r, v2);
      assert i1 <= i2 by {
        VolumeIncreasing(r);
        NearestMonotone(Volume(r), v1, v2);
      }
      CumsumNonDecreasing(r.pmf);
      assert CdfVector(r)[i1] <= CdfVector(r)[i2];
    }
  }

  /** Storage for the whole content base serves every request. */
  lemma CdfFull(r: Request, v: real)
    requires WellFormed(r) && ContentBase(r) as real <= v
    ensures Cdf(r, v) == 1.0
  {
    var n := |r.size|;
    if n > 0 {
      VolumeIncreasing(r);
      assert r.size[..n] == r.size;
      NearestBeyondLast(Volume(r), v);
      assert r.pmf[..n] == r.pmf;
    }
  }

  /** A budget no larger than the most popular content is nearest the first rank. */
  lemma FirstRank(r: Request, v: real)
    requires WellFormed(r) && |r.size| > 0 && v <= r.size[0] as real
    ensures NearestRank(r, v) == 0
  {
    VolumeIncreasing(r);
    assert r.size[..1][..0] == [];
    assert Volume(r)[0] == SumInt(r.size[..1]) == r.size[0];
    NearestBelowFirst(Volume(r), v);
  }

  /** A budget no larger than the most popular content still counts that content as a hit: the
      distribution is read at the nearest volume, so `cdf(0)` is the first probability. */
  lemma CdfBelowFirst(r: Request, v: real)
    requires WellFormed(r) && |r.size| > 0 && v <= r.size[0] as real
    ensures Cdf(r, v) == r.pmf[0]
  {
    FirstRank(r, v);
    SumPrefixStep(r.pmf, 0);
    assert r.pmf[..0] == [];
  }

  /** The probability read at a budget is the last term of the distribution read there. */
  lemma PmfBelowCdf(r: Request, v: real)
    requires WellFormed(r) && |r.size| > 0
    ensures 0.0 < Pmf(r, v).value <= Cdf(r, v)
  {
    var i := NearestRank(r, v);
    assert r.pmf[..i + 1][..i] == r.pmf[..i];
    SumPrefixBound(r.pmf, i);
  }

  /** Positive sizes with positive weights, the weights divided by their sum, construct a
      well-formed profile of exactly those pairs. */
  lemma RenormaliseSpec(s: seq<int>, p: seq<real>)
    requires |s| == |p|
    requires forall i :: 0 <= i < |s| ==> s[i] > 0 && p[i] > 0.0
    ensures Make(s, Normalise(p, Sum(p))).Success?
    ensures WellFormed(Make(s, Normalise(p, Sum(p))).value)
    ensures multiset(Zip(Make(s, Normalise(p, Sum(p))).value.size, Make(s, Normalise(p, Sum(p))).value.pmf))
         == multiset(Zip(s, Normalise(p, Sum(p))))
    ensures multiset(Make(s, Normalise(p, Sum(p))).value.size) == multiset(s)
    ensures ContentBase(Make(s, Normalise(p, Sum(p))).value) == SumInt(s)
  {
    var q := Normalise(p, Sum(p));
    if |s| > 0 {
      SumPositive(p);
      NormalisePositive(p, Sum(p));
      NormaliseIdempotent(p);
    }
    MakeWellFormed(s, q);
    MakeSpec(s, q);
  }

  /** A slice of a well-formed profile re-constructs: it holds exactly the slice's pairs with the
      probabilities renormalised, and is well formed again. */
  lemma SliceSpec(r: Request, lo: nat, hi: nat)
    requires WellFormed(r) && lo <= hi <= |r.size|
    ensures Slice(r, lo, hi).Success?
    ensures WellFormed(Slice(r, lo, hi).value)
    ensures multiset(Zip(Slice(r, lo, hi).value.size, Slice(r, lo, hi).value.pmf))
         == multiset(Zip(r.size[lo..hi], Normalise(r.pmf[lo..hi], Sum(r.pmf[lo..hi]))))
    ensures multiset(Slice(r, lo, hi).value.size) == multiset(r.size[lo..hi])
    ensures ContentBase(Slice(r, lo, hi).value) == SumInt(r.size[lo..hi])
  {
    var s, p := r.size[lo..hi], r.pmf[lo..hi];
    assert forall i :: 0 <= i < |s| ==> s[i] > 0 && p[i] > 0.0 by {
      forall i | 0 <= i < |s| ensures s[i] > 0 && p[i] > 0.0 {
        assert s[i] == r.size[lo + i] && p[i] == r.pmf[lo + i];
      }
    }
    RenormaliseSpec(s, p);
  }

  /** The size facts of a slice, without its pairs. */
  lemma SliceSizes(r: Request, lo: nat, hi: nat)
    requires WellFormed(r) && lo <= hi <= |r.size|
    ensures Slice(r, lo, hi).Success? && WellFormed(Slice(r, lo, hi).value)
    ensures |Slice(r, lo, hi).value.size| == hi - lo
    ensures multiset(Slice(r, lo, hi).value.size) == multiset(r.size[lo..hi])
    ensures ContentBase(Slice(r, lo, hi).value) == SumInt(r.size[lo..hi])
  {
    SliceSpec(r, lo, hi);
  }

  lemma SplitAt(xs: seq<int>, k: nat)
    requires k <= |xs|
    ensures multiset(xs[0..k]) + multiset(xs[k..|xs|]) == multiset(xs)
    ensures SumInt(xs[0..k]) + SumInt(xs[k..|xs|]) == SumInt(xs)
  {
    assert xs == xs[0..k] + xs[k..|xs|];
    SumIntConcat(xs[0..k], xs[k..|xs|]);
  }

  lemma SumSplit(xs: seq<real>, k: nat)
    requires k <= |xs|
    ensures Sum(xs[..k]) + Sum(xs[k..]) == Sum(xs)
  {
    assert xs == xs[..k] + xs[k..];
    SumConcat(xs[..k], xs[k..]);
  }

  lemma SplitAround(xs: seq<int>, k: nat)
    requires k < |xs|
    ensures multiset(xs[0..k]) + multiset{xs[k]} + multiset(xs[k + 1..|xs|]) == multiset(xs)
    ensures SumInt(xs[0..k]) + xs[k] + SumInt(xs[k + 1..|xs|]) == SumInt(xs)
  {
    var post := xs[k + 1..|xs|];
    DropHead(xs, k);
    SplitAt(xs, k);
    SumIntCons(xs[k], post);
    UnionRegroup(multiset(xs[0..k]), multiset{xs[k]}, multiset(post), multiset(xs[k..|xs|]), multiset(xs));
  }

  lemma DropHead<T>(xs: seq<T>, k: nat)
    requires k < |xs|
    ensures xs[k..|xs|] == [xs[k]] + xs[k + 1..|xs|]
  {
  }

  lemma SumIntCons(x: int, xs: seq<int>)
    ensures SumInt([x] + xs) == x + SumInt(xs)
  {
    SumIntConcat([x], xs);
    assert SumInt([x]) == x;
  }

  lemma UnionRegroup<T>(a: multiset<T>, b: multiset<T>, c: multiset<T>, bc: multiset<T>, m: multiset<T>)
    requires bc == b + c && a + bc == m
    ensures a + b + c == m
  {
  }

  /** The slices before and from rank `k` partition a well-formed profile. */
  lemma SliceSplit(r: Request, k: nat)
    requires WellFormed(r) && k <= |r.size|
    ensures Slice(r, 0, k).Success? && Slice(r, k, |r.size|).Success?
    ensures WellFormed(Slice(r, 0, k).value) && WellFormed(Slice(r, k, |r.size|).value)
    ensures |Slice(r, 0, k).value.size| == k && |Slice(r, k, |r.size|).value.size| == |r.size| - k
    ensures multiset(Slice(r, 0, k).value.size) + multiset(Slice(r, k, |r.size|).value.size) == multiset(r.size)
    ensures ContentBase(Slice(r, 0, k).value) + ContentBase(Slice(r, k, |r.size|).value) == ContentBase(r)
  {
    SliceSizes(r, 0, k);
    SliceSizes(r, k, |r.size|);
    SplitAt(r.size, k);
  }

  /** The slices before and after rank `k` hold everything but the entry at `k`. */
  lemma SliceSplitAround(r: Request, k: nat)
    requires WellFormed(r) && k < |r.size|
    ensures Slice(r, 0, k).Success? && Slice(r, k + 1, |r.size|).Success?
    ensures WellFormed(Slice(r, 0, k).value) && WellFormed(Slice(r, k + 1, |r.size|).value)
    ensures |Slice(r, 0, k).value.size| == k && |Slice(r, k + 1, |r.size|).value.size| == |r.size| - k - 1
    ensures multiset(Slice(r, 0, k).value.size) + multiset{r.size[k]} + multiset(Slice(r, k + 1, |r.size|).value.size)
         == multiset(r.size)
    ensures ContentBase(Slice(r, 0, k).value) + r.size[k] + ContentBase(Slice(r, k + 1, |r.size|).value) == ContentBase(r)
  {
    SliceSizes(r, 0, k);
    SliceSizes(r, k + 1, |r.size|);
    SplitAround(r.size, k);
  }

  /** What one part of a union leaves is contained in the union. */
  lemma PartOfUnion<T>(a: multiset<T>, b: multiset<T>, m: multiset<T>)
    requires a + b == m
    ensures b <= m
  {
  }

  /** On a non-empty profile `hit`, its corrected form and `miss` are the slices around the
      nearest rank. */
  lemma HitMissSlices(r: Request, v: real)
    requires r.Shaped() && |r.size| > 0
    ensures Hit(r, v) == Slice(r, 0, NearestRank(r, v))
    ensures HitInclusive(r, v) == Slice(r, 0, NearestRank(r, v) + 1)
    ensures Miss(r, v) == Slice(r, NearestRank(r, v) + 1, |r.size|)
  {
  }

  /** The slice of no ranks is the empty profile. */
  lemma EmptySlice(r: Request)
    requires r.Shaped()
    ensures Slice(r, 0, 0) == Success(Empty)
  {
    assert r.size[0..0] == [] && r.pmf[0..0] == [];
  }

  /** The slice of the first rank holds the first size alone. */
  lemma FirstSlice(r: Request)
    requires WellFormed(r) && |r.size| > 0
    ensures Slice(r, 0, 1).Success? && Slice(r, 0, 1).value.size == [r.size[0]]
  {
    SliceSizes(r, 0, 1);
    SingletonBag(Slice(r, 0, 1).value.size, r.size[0..1]);
  }

  /** A sequence with the multiset of a one-entry sequence is that sequence. */
  lemma SingletonBag<T>(s: seq<T>, t: seq<T>)
    requires |t| == 1 && multiset(s) == multiset(t)
    ensures s == [t[0]]
  {
    assert |s| == |multiset(t)| == 1;
    assert s[0] in multiset(t);
    assert t == [t[0]];
    assert s == [s[0]];
  }

  /** When the nearest rank is the first, `hit` slices no ranks and its corrected form one. */
  lemma FirstSlices(r: Request, v: real)
    requires r.Shaped() && |r.size| > 0 && NearestRank(r, v) == 0
    ensures Hit(r, v) == Slice(r, 0, 0) && HitInclusive(r, v) == Slice(r, 0, 1)
  {
  }

  /** `hit` and `miss` as written: the nearest rank is in neither, so the cached profile misses
      the probability that `cdf` counts as hit. */
  lemma HitMissSplit(r: Request, v: real)
    requires WellFormed(r) && |r.size| > 0
    ensures Hit(r, v).Success? && Miss(r, v).Success?
    ensures WellFormed(Hit(r, v).value) && WellFormed(Miss(r, v).value)
    ensures |Hit(r, v).value.size| + 1 + |Miss(r, v).value.size| == |r.size|
    ensures multiset(Hit(r, v).value.size) + multiset{r.size[NearestRank(r, v)]} + multiset(Miss(r, v).value.size)
         == multiset(r.size)
    ensures ContentBase(Hit(r, v).value) + r.size[NearestRank(r, v)] + ContentBase(Miss(r, v).value)
         == ContentBase(r)
    ensures |Hit(r, v).value.size| == NearestRank(r, v)
  {
    HitMissSlices(r, v);
    SliceSplitAround(r, NearestRank(r, v));
  }

  /** `miss` of a well-formed profile always constructs: a well-formed profile of some of the
      contents, strictly fewer unless the profile is empty. */
  lemma MissSpec(r: Request, v: real)
    requires WellFormed(r)
    ensures Miss(r, v).Success?
    ensures WellFormed(Miss(r, v).value)
    ensures multiset(Miss(r, v).value.size) <= multiset(r.size)
  {
    if |r.size| > 0 {
      var i := NearestRank(r, v);
      HitMissSlices(r, v);
      SliceSplit(r, i + 1);
      PartOfUnion(multiset(Slice(r, 0, i + 1).value.size), multiset(Miss(r, v).value.size), multiset(r.size));
    }
  }

  /** The probability `cdf` reports exceeds the probability of the ranks `hit` keeps by that of
      the nearest rank. */
  lemma HitMass(r: Request, v: real)
    requires WellFormed(r) && |r.size| > 0
    ensures Sum(r.pmf[..NearestRank(r, v)]) + r.pmf[NearestRank(r, v)] == Cdf(r, v)
    ensures Sum(r.pmf[..NearestRank(r, v)]) < Cdf(r, v)
  {
    var i := NearestRank(r, v);
    SumPrefixStep(r.pmf, i);
    assert r.pmf[i] > 0.0;
  }

  /** The corrected `hit` and `miss` partition the catalog, and the cached profile carries exactly
      the probability that `cdf` reports. */
  lemma HitInclusiveSplit(r: Request, v: real)
    requires WellFormed(r) && |r.size| > 0
    ensures HitInclusive(r, v).Success? && Miss(r, v).Success?
    ensures WellFormed(HitInclusive(r, v).value) && WellFormed(Miss(r, v).value)
    ensures |HitInclusive(r, v).value.size| + |Miss(r, v).value.size| == |r.size|
    ensures multiset(HitInclusive(r, v).value.size) + multiset(Miss(r, v).value.size) == multiset(r.size)
    ensures ContentBase(HitInclusive(r, v).value) + ContentBase(Miss(r, v).value) == ContentBase(r)
    ensures |HitInclusive(r, v).value.size| == NearestRank(r, v) + 1
  {
    HitMissSlices(r, v);
    SliceSplit(r, NearestRank(r, v) + 1);
  }

  /** The ranks up to the nearest one carry the probability `cdf` reports; the ranks after it, the
      rest. */
  lemma CdfComplement(r: Request, v: real)
    requires WellFormed(r) && |r.size| > 0
    ensures Sum(r.pmf[..NearestRank(r, v) + 1]) == Cdf(r, v)
    ensures Cdf(r, v) + Sum(r.pmf[NearestRank(r, v) + 1..]) == 1.0
  {
    SumSplit(r.pmf, NearestRank(r, v) + 1);
  }

  lemma ExampleSum()
    ensures Sum([0.5, 0.3, 0.2]) == 1.0
  {
    var prob := [0.5, 0.3, 0.2];
    assert prob[..2][..1] == [0.5] && prob[..2] == [0.5, 0.3] && prob[..3] == prob;
    assert Sum([0.5]) == 0.5;
  }

  lemma ExampleRank()
    ensures Rank(Zip([100, 50, 50], [0.5, 0.3, 0.2])) == [Item(100, 0.5), Item(50, 0.3), Item(50, 0.2)]
  {
    var a, b, c := Item(100, 0.5), Item(50, 0.3), Item(50, 0.2);
    assert Zip([100, 50, 50], [0.5, 0.3, 0.2]) == [a, b, c];
    assert [c][1..] == [];
    RankFront([c], []);
    assert [b, c][1..] == [c];
    RankFront([b, c], [c]);
    assert [a, b, c][1..] == [b, c];
    RankFront([a, b, c], [b, c]);
  }

  /** The most popular title is counted as hit by `cdf` at any budget up to its size, while `hit`
      caches nothing there. */
  lemma HitEmptyAtFirst(r: Request, v: real)
    requires WellFormed(r) && |r.size| > 0 && v <= r.size[0] as real
    ensures Hit(r, v) == Success(Empty)
    ensures Cdf(r, v) == r.pmf[0] > 0.0
    ensures HitInclusive(r, v).Success? && HitInclusive(r, v).value.size == [r.size[0]]
  {
    CdfBelowFirst(r, v);
    FirstRank(r, v);
    FirstSlices(r, v);
    EmptySlice(r);
    FirstSlice(r);
  }

  lemma ExampleColumns()
    ensures Sizes([Item(100, 0.5), Item(50, 0.3), Item(50, 0.2)]) == [100, 50, 50]
    ensures Probs([Item(100, 0.5), Item(50, 0.3), Item(50, 0.2)]) == [0.5, 0.3, 0.2]
    ensures Normalise([0.5, 0.3, 0.2], 1.0) == [0.5, 0.3, 0.2]
  {
  }

  lemma ExampleRanked()
    ensures RankAndNormalise([100, 50, 50], [0.5, 0.3, 0.2]) == Request([100, 50, 50], [0.5, 0.3, 0.2])
  {
    ExampleSum();
    ExampleRank();
    ExampleColumns();
  }

  lemma ExampleConstructs()
    ensures Make([100, 50, 50], [0.5, 0.3, 0.2]) == Success(Request([100, 50, 50], [0.5, 0.3, 0.2]))
  {
    ExampleRanked();
    ExampleContentBase();
  }

  lemma ExampleContentBase()
    ensures SumInt([100, 50, 50]) == 200
  {
    var size := [100, 50, 50];
    assert size[..2][..1] == [100] && size[..2] == [100, 50] && size[..3] == size;
    assert SumInt([100]) == 100;
  }

  lemma ExampleWellFormed()
    ensures WellFormed(Request([100, 50, 50], [0.5, 0.3, 0.2]))
  {
    ExampleSum();
  }

  /** A three-title catalog of sizes 100, 50, 50 requested with probabilities 0.5, 0.3, 0.2: with
      storage 100 `cdf` reports half the requests as hits while `hit` caches nothing. */
  lemma HitExcludesNearest()
    ensures Make([100, 50, 50], [0.5, 0.3, 0.2]) == Success(Request([100, 50, 50], [0.5, 0.3, 0.2]))
    ensures Cdf(Request([100, 50, 50], [0.5, 0.3, 0.2]), 100.0) == 0.5
    ensures Hit(Request([100, 50, 50], [0.5, 0.3, 0.2]), 100.0) == Success(Empty)
    ensures HitInclusive(Request([100, 50, 50], [0.5, 0.3, 0.2]), 100.0).value.size == [100]
  {
    ExampleConstructs();
    ExampleWellFormed();
    HitEmptyAtFirst(Request([100, 50, 50], [0.5, 0.3, 0.2]), 100.0);
  }

  /** Converting a request rate to a bit rate and back is the identity. */
  lemma RateRoundTrip(r: Request, rps: real)
    requires r.Shaped() && MeanRequestSize(r) != 0.0
    ensures Bps2Rps(r, Rps2Bps(r, rps)) == Some(rps)
  {
    var m := MeanRequestSize(r);
    BitRateRoundTrip(rps, m);
    assert Rps2Bps(r, rps) == rps * m * 8.0;
    assert Bps2Rps(r, rps * m * 8.0) == Some(rps * m * 8.0 / 8.0 / m);
  }

  /** The mean request size of a non-empty well-formed profile is positive and at most its
      largest size. */
  lemma MeanRequestSizeBounds(r: Request, m: int)
    requires WellFormed(r) && |r.size| > 0
    requires forall i :: 0 <= i < |r.size| ==> r.size[i] <= m
    ensures 0.0 < MeanRequestSize(r) <= m as real
    ensures Bps2Rps(r, 0.0) == Some(0.0)
  {
    DotPositive(r.pmf, r.size);
    DotBound(r.pmf, r.size, m);
  }

  /** A storage budget misses between none and all of a non-negative request rate. */
  lemma MissedBounds(r: Request, rps: int, v: real)
    requires WellFormed(r) && rps >= 0
    ensures 0 <= Missed(r, rps, v) <= rps
  {
    CdfBounds(r, v);
    ResidualBounds(rps, Cdf(r, v));
  }

  /** A larger storage budget misses no more requests. */
  lemma MissedMonotone(r: Request, rps: int, v1: real, v2: real)
    requires WellFormed(r) && rps >= 0 && v1 <= v2
    ensures Missed(r, rps, v2) <= Missed(r, rps, v1)
  {
    CdfMonotone(r, v1, v2);
    ResidualAntitone(rps, Cdf(r, v1), Cdf(r, v2));
  }

  /** A non-negative request rate is a non-negative bit rate. */
  lemma BitRateNonNegative(r: Request, rps: real)
    requires WellFormed(r) && rps >= 0.0
    ensures 0.0 <= Rps2Bps(r, rps)
  {
    MeanRequestSizeNonNegative(r);
    assert 0.0 <= rps * MeanRequestSize(r);
  }

  lemma MeanRequestSizeNonNegative(r: Request)
    requires WellFormed(r)
    ensures 0.0 <= MeanRequestSize(r)
  {
    if |r.size| > 0 {
      DotPositive(r.pmf, r.size);
    }
  }

  lemma {:induction false} ShardPmfShape(pmf: seq<real>, size: seq<int>, nodes: nat, n: nat, count: nat)
    requires nodes > 0 && |pmf| == |size|
    ensures |ShardPmf(pmf, nodes, n, count)| == |Shard(size, nodes, n, count)|
  {
    if count > 0 {
      ShardPmfShape(pmf, size, nodes, n, count - 1);
      StrideLength(pmf, size, (n + count - 1) % nodes, nodes);
    }
  }

  lemma {:induction false} ShardPmfPositive(pmf: seq<real>, nodes: nat, n: nat, count: nat)
    requires nodes > 0 && forall i :: 0 <= i < |pmf| ==> pmf[i] > 0.0
    ensures forall i :: 0 <= i < |ShardPmf(pmf, nodes, n, count)| ==> ShardPmf(pmf, nodes, n, count)[i] > 0.0
  {
    if count > 0 {
      ShardPmfPositive(pmf, nodes, n, count - 1);
      var stride := Stride(pmf, (n + count - 1) % nodes, nodes);
      StrideSubset(pmf, (n + count - 1) % nodes, nodes);
      assert forall i :: 0 <= i < |stride| ==> stride[i] > 0.0 by {
        forall i | 0 <= i < |stride| ensures stride[i] > 0.0 {
          assert stride[i] in pmf;
        }
      }
      if |stride| > 0 {
        SumPositive(stride);
        NormalisePositive(stride, Sum(stride));
      }
    }
  }

  /** The (size, probability) pairs node `n` holds: the sizes of its strides, each paired with its
      probability divided by its stride's sum, then by the sum over all its strides. */
  ghost function ShardPairs(r: Request, nodes: nat, n: nat, replication: nat): multiset<Item>
    requires r.Shaped() && nodes > 0
  {
    var p := ShardPmf(r.pmf, nodes, n, replication);
    ShardPmfShape(r.pmf, r.size, nodes, n, replication);
    multiset(Zip(Shard(r.size, nodes, n, replication), Normalise(p, Sum(p))))
  }

  /** Every node of a well-formed profile receives a well-formed profile holding the sizes of its
      strides, each with its probability normalised per stride and then over the node. */
  lemma ShardWellFormed(r: Request, nodes: nat, n: nat, replication: nat)
    requires WellFormed(r) && nodes > 0
    ensures ShardRequest(r, nodes, n, replication).Success?
    ensures WellFormed(ShardRequest(r, nodes, n, replication).value)
    ensures multiset(ShardRequest(r, nodes, n, replication).value.size) == multiset(Shard(r.size, nodes, n, replication))
    ensures multiset(Zip(ShardRequest(r, nodes, n, replication).value.size, ShardRequest(r, nodes, n, replication).value.pmf))
         == ShardPairs(r, nodes, n, replication)
  {
    var s, p := Shard(r.size, nodes, n, replication), ShardPmf(r.pmf, nodes, n, replication);
    ShardPmfShape(r.pmf, r.size, nodes, n, replication);
    ShardPmfPositive(r.pmf, nodes, n, replication);
    ShardEntries(r.size, nodes, n, replication);
    assert forall i :: 0 <= i < |s| ==> s[i] > 0 by {
      forall i | 0 <= i < |s| ensures s[i] > 0 {
        assert s[i] in r.size;
      }
    }
    MakeWellFormed(s, p);
    MakeSpec(s, p);
  }

  /** The size multisets of a list of profiles, indexed by node. */
  function SizeBags(shards: seq<Request>): nat -> multiset<int>
  {
    (n: nat) => if n < |shards| then multiset(shards[n].size) else multiset{}
  }

  /** Consistent hashing of a well-formed profile succeeds and gives every node a well-formed
      profile holding the sizes of its strides, with their probabilities normalised per stride and
      then over the node. */
  lemma ConsistentHashingWellFormed(r: Request, nodes: nat, replication: nat)
    requires WellFormed(r) && 0 < replication < nodes
    ensures ConsistentHashing(r, nodes, replication).Success?
    ensures |ConsistentHashing(r, nodes, replication).value| == nodes
    ensures forall n :: 0 <= n < nodes ==> WellFormed(ConsistentHashing(r, nodes, replication).value[n])
    ensures forall n :: 0 <= n < nodes ==>
      multiset(ConsistentHashing(r, nodes, replication).value[n].size) == multiset(Shard(r.size, nodes, n, replication))
    ensures forall n :: 0 <= n < nodes ==>
      multiset(Zip(ConsistentHashing(r, nodes, replication).value[n].size, ConsistentHashing(r, nodes, replication).value[n].pmf))
      == ShardPairs(r, nodes, n, replication)
  {
    forall n | 0 <= n < nodes
      ensures ShardRequest(r, nodes, n, replication).Success?
      ensures WellFormed(ShardRequest(r, nodes, n, replication).value)
      ensures multiset(ShardRequest(r, nodes, n, replication).value.size)
           == multiset(Shard(r.size, nodes, n, replication))
      ensures multiset(Zip(ShardRequest(r, nodes, n, replication).value.size, ShardRequest(r, nodes, n, replication).value.pmf))
           == ShardPairs(r, nodes, n, replication)
    {
      ShardWellFormed(r, nodes, n, replication);
    }
  }

  lemma ConsistentHashingSizes(r: Request, nodes: nat, replication: nat)
    requires WellFormed(r) && 0 < replication < nodes
    ensures ConsistentHashing(r, nodes, replication).Success?
    ensures |ConsistentHashing(r, nodes, replication).value| == nodes
    ensures forall n :: 0 <= n < nodes ==>
      SizeBags(ConsistentHashing(r, nodes, replication).value)(n) == ShardBags(r.size, nodes, replication)(n)
  {
    ConsistentHashingWellFormed(r, nodes, replication);
  }

  lemma CoverFromBags(shards: seq<Request>, xs: seq<int>, nodes: nat, replication: nat)
    requires 0 < nodes && replication <= nodes
    requires forall n :: 0 <= n < nodes ==> SizeBags(shards)(n) == ShardBags(xs, nodes, replication)(n)
    ensures SumM(SizeBags(shards), 0, nodes) == Repeat(multiset(xs), replication)
  {
    SumMShift(SizeBags(shards), ShardBags(xs, nodes, replication), 0, nodes, 0);
    ShardsCover(xs, nodes, replication);
  }

  /** Consistent hashing places each content on exactly `replication` nodes. */
  lemma ConsistentHashingCover(r: Request, nodes: nat, replication: nat)
    requires WellFormed(r) && 0 < replication < nodes
    ensures ConsistentHashing(r, nodes, replication).Success?
    ensures SumM(SizeBags(ConsistentHashing(r, nodes, replication).value), 0, nodes)
         == Repeat(multiset(r.size), replication)
  {
    ConsistentHashingSizes(r, nodes, replication);
    CoverFromBags(ConsistentHashing(r, nodes, replication).value, r.size, nodes, replication);
  }
}
