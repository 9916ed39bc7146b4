/** The rank ordering done by `numpy.argsort(probability)[::-1]`: catalog entries are kept as
    (size, probability) pairs and sorted by decreasing probability. numpy's order among equal
    probabilities is unspecified; the insertion sort below is one admissible choice, and every
    contract states only "a permutation, probabilities non-increasing". */
module Ranking {
  import opened Numeric

  datatype Item = Item(size: int, p: real)

  function Zip(size: seq<int>, prob: seq<real>): (items: seq<Item>)
    requires |size| == |prob|
    ensures |items| == |size|
    ensures forall i :: 0 <= i < |items| ==> items[i] == Item(size[i], prob[i])
  {
    seq(|size|, i requires 0 <= i < |size| => Item(size[i], prob[i]))
  }

  /** `f` applied to every entry. */
  function MapItems<T>(f: Item -> T, items: seq<Item>): (r: seq<T>)
    ensures |r| == |items|
    ensures forall i :: 0 <= i < |items| ==> r[i] == f(items[i])
  {
    if |items| == 0 then [] else MapItems(f, items[..|items| - 1]) + [f(items[|items| - 1])]
  }

  function SizeOf(it: Item): int { it.size }

  function ProbOf(it: Item): real { it.p }

  function Sizes(items: seq<Item>): seq<int>
  {
    MapItems(SizeOf, items)
  }

  function Probs(items: seq<Item>): seq<real>
  {
    MapItems(ProbOf, items)
  }

  lemma ZipSizesProbs(items: seq<Item>)
    ensures Zip(Sizes(items), Probs(items)) == items
  {
  }

  lemma SizesProbsZip(size: seq<int>, prob: seq<real>)
    requires |size| == |prob|
    ensures Sizes(Zip(size, prob)) == size && Probs(Zip(size, prob)) == prob
  {
  }

  ghost predicate Ranked(items: seq<Item>)
  {
    forall i, j :: 0 <= i < j < |items| ==> items[i].p >= items[j].p
  }

  /** Places `x` before the first entry of smaller or equal probability: among equal
      probabilities the entry inserted later comes first. */
  function Insert(x: Item, s: seq<Item>): (r: seq<Item>)
    requires Ranked(s)
    ensures Ranked(r)
    ensures multiset(r) == multiset(s) + multiset{x}
    ensures |r| == |s| + 1
    ensures r[0] == x || (|s| > 0 && r[0] == s[0])
  {
    if |s| == 0 || x.p >= s[0].p then
      [x] + s
    else
      var rest := s[1..];
      var tail := Insert(x, rest);
      assert s == [s[0]] + rest;
      RankedCons(s[0], tail);
      [s[0]] + tail
  }

  /** An entry at least as likely as the head of a ranked catalog can go in front of it. */
  lemma RankedCons(y: Item, t: seq<Item>)
    requires Ranked(t) && (|t| > 0 ==> y.p >= t[0].p)
    ensures Ranked([y] + t)
  {
    var r := [y] + t;
    forall i, j | 0 <= i < j < |r| ensures r[i].p >= r[j].p {
      if i == 0 && j > 1 {
        assert r[j] == t[j - 1];
      }
    }
  }

  /** The catalog in decreasing order of probability; entries of equal probability keep their
      input order, since the earlier one is inserted later. */
  function Rank(items: seq<Item>): (r: seq<Item>)
    ensures Ranked(r)
    ensures multiset(r) == multiset(items)
    ensures |r| == |items|
  {
    if |items| == 0 then []
    else
      assert items == [items[0]] + items[1..];
      Insert(items[0], Rank(items[1..]))
  }

  /** Ranking a catalog whose head is at least as likely as everything after it keeps the head in
      front. */
  lemma RankFront(items: seq<Item>, rest: seq<Item>)
    requires |items| > 0 && Rank(items[1..]) == rest
    requires |rest| == 0 || items[0].p >= rest[0].p
    ensures Rank(items) == [items[0]] + rest
  {
  }

  lemma {:induction false} MapConcat<T>(f: Item -> T, a: seq<Item>, b: seq<Item>)
    ensures MapItems(f, a + b) == MapItems(f, a) + MapItems(f, b)
    decreases |b|
  {
    if |b| == 0 {
      assert a + b == a;
    } else {
      var m := |b| - 1;
      assert (a + b)[..|a + b| - 1] == a + b[..m];
      MapConcat(f, a, b[..m]);
    }
  }

  /** Mapping commutes with removing the entry at `k`. */
  lemma MapRemoveAt<T>(f: Item -> T, b: seq<Item>, k: nat)
    requires k < |b|
    ensures multiset(MapItems(f, b)) == multiset(MapItems(f, b[..k] + b[k + 1..])) + multiset{f(b[k])}
  {
    Around(b, k);
    var pre, x, post := b[..k], b[k], b[k + 1..];
    MapConcat(f, pre + [x], post);
    MapConcat(f, pre, [x]);
    MapConcat(f, pre, post);
    var mpre, mpost := MapItems(f, pre), MapItems(f, post);
    assert MapItems(f, [x]) == [f(x)];
    assert MapItems(f, b) == mpre + [f(x)] + mpost;
    assert MapItems(f, pre + post) == mpre + mpost;
  }

  /** Applying a function entrywise to two permutations of each other gives permutations of each
      other. */
  lemma {:induction false} MapPermutation<T>(f: Item -> T, a: seq<Item>, b: seq<Item>)
    requires multiset(a) == multiset(b)
    ensures multiset(MapItems(f, a)) == multiset(MapItems(f, b))
    decreases |a|
  {
    if |a| == 0 {
      assert |b| == |multiset(b)| == 0;
    } else {
      var n := |a| - 1;
      var x := a[n];
      assert x in multiset(b) by { assert a == a[..n] + [x]; }
      var k :| 0 <= k < |b| && b[k] == x;
      var rest := b[..k] + b[k + 1..];
      assert multiset(a[..n]) == multiset(rest) by {
        DropAt(a, n);
        DropAt(b, k);
        assert a[..n] + a[n + 1..] == a[..n];
      }
      MapPermutation(f, a[..n], rest);
      MapRemoveAt(f, a, n);
      MapRemoveAt(f, b, k);
      assert a[..n] + a[n + 1..] == a[..n];
    }
  }

  /** Ranking keeps the catalog's sizes, its probabilities and their totals. */
  lemma RankKeepsColumns(items: seq<Item>)
    ensures multiset(Sizes(Rank(items))) == multiset(Sizes(items))
    ensures multiset(Probs(Rank(items))) == multiset(Probs(items))
    ensures SumInt(Sizes(Rank(items))) == SumInt(Sizes(items))
    ensures Sum(Probs(Rank(items))) == Sum(Probs(items))
  {
    MapPermutation(SizeOf, Rank(items), items);
    MapPermutation(ProbOf, Rank(items), items);
    SumIntPermutation(Sizes(Rank(items)), Sizes(items));
    SumPermutation(Probs(Rank(items)), Probs(items));
  }

  /** The probabilities of a ranked catalog are non-increasing. */
  lemma RankedProbs(items: seq<Item>)
    requires Ranked(items)
    ensures NonIncreasing(Probs(items))
  {
  }

  /** Pairs whose probabilities were divided by a common total. */
  function Scaled(items: seq<Item>, total: real): seq<Item>
  {
    MapItems((it: Item) => Item(it.size, if total == 0.0 then it.p else it.p / total), items)
  }

  lemma ScaledZip(size: seq<int>, prob: seq<real>, total: real)
    requires |size| == |prob|
    ensures Scaled(Zip(size, prob), total) == Zip(size, Normalise(prob, total))
  {
  }

  /** Dividing the probabilities of two permutations of each other by one total gives permutations
      of each other. */
  lemma ScaledPermutation(a: seq<Item>, b: seq<Item>, total: real)
    requires multiset(a) == multiset(b)
    ensures multiset(Scaled(a, total)) == multiset(Scaled(b, total))
  {
    MapPermutation((it: Item) => Item(it.size, if total == 0.0 then it.p else it.p / total), a, b);
  }

  /** Permuted pairs have permuted size columns. */
  lemma ZipPermutationSizes(a: seq<int>, pa: seq<real>, b: seq<int>, pb: seq<real>)
    requires |a| == |pa| && |b| == |pb|
    requires multiset(Zip(a, pa)) == multiset(Zip(b, pb))
    ensures multiset(a) == multiset(b)
  {
    MapPermutation(SizeOf, Zip(a, pa), Zip(b, pb));
    SizesProbsZip(a, pa);
    SizesProbsZip(b, pb);
  }

  /** Ranking a catalog and then dividing its probabilities by a total gives the pairs of the
      catalog divided by that total, in another order. */
  lemma RankScaled(size: seq<int>, prob: seq<real>, total: real)
    requires |size| == |prob|
    ensures multiset(Zip(Sizes(Rank(Zip(size, prob))), Normalise(Probs(Rank(Zip(size, prob))), total)))
         == multiset(Zip(size, Normalise(prob, total)))
  {
    var ranked := Rank(Zip(size, prob));
    ZipSizesProbs(ranked);
    ScaledZip(Sizes(ranked), Probs(ranked), total);
    ScaledPermutation(ranked, Zip(size, prob), total);
    ScaledZip(size, prob, total);
  }
}
