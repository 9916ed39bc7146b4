/** Strided slices `xs[start::step]` and the shards that `consistenthashing` concatenates from
    them, with the counting facts behind "every entry lands in exactly `replication` shards". */
module Strides {

  /** Python's `xs[start::step]`. */
  function Stride<T>(xs: seq<T>, start: nat, step: nat): seq<T>
    requires step > 0
    decreases |xs| - start
  {
    if start >= |xs| then [] else [xs[start]] + Stride(xs, start + step, step)
  }

  /** One shard's catalog: the strides starting at `(n + k) % nodes` for `k < count`, concatenated
      in order of `k`. */
  function Shard<T>(xs: seq<T>, nodes: nat, n: nat, count: nat): seq<T>
    requires nodes > 0
  {
    if count == 0 then [] else Shard(xs, nodes, n, count - 1) + Stride(xs, (n + count - 1) % nodes, nodes)
  }

  /** The multiset union of `f(i)` for `lo <= i < hi`. */
  function SumM<T>(f: nat -> multiset<T>, lo: nat, hi: nat): multiset<T>
    decreases hi
  {
    if hi <= lo then multiset{} else SumM(f, lo, hi - 1) + f(hi - 1)
  }

  /** `k` copies of `m`. */
  function Repeat<T>(m: multiset<T>, k: nat): multiset<T>
  {
    if k == 0 then multiset{} else Repeat(m, k - 1) + m
  }

  function StrideBags<T>(xs: seq<T>, step: nat): nat -> multiset<T>
    requires step > 0
  {
    (s: nat) => multiset(Stride(xs, s, step))
  }

  function ShardBags<T>(xs: seq<T>, nodes: nat, count: nat): nat -> multiset<T>
    requires nodes > 0
  {
    (n: nat) => multiset(Shard(xs, nodes, n, count))
  }

  function Rotated<T>(f: nat -> multiset<T>, nodes: nat, k: nat): nat -> multiset<T>
    requires nodes > 0
  {
    (n: nat) => f((n + k) % nodes)
  }

  /** Strides of equally long sequences are equally long. */
  lemma {:induction false} StrideLength<T, U>(xs: seq<T>, ys: seq<U>, start: nat, step: nat)
    requires step > 0 && |xs| == |ys|
    ensures |Stride(xs, start, step)| == |Stride(ys, start, step)|
    decreases |xs| - start
  {
    if start < |xs| {
      StrideLength(xs, ys, start + step, step);
    }
  }

  /** Shards of equally long sequences are equally long. */
  lemma {:induction false} ShardLength<T, U>(xs: seq<T>, ys: seq<U>, nodes: nat, n: nat, count: nat)
    requires nodes > 0 && |xs| == |ys|
    ensures |Shard(xs, nodes, n, count)| == |Shard(ys, nodes, n, count)|
  {
    if count > 0 {
      ShardLength(xs, ys, nodes, n, count - 1);
      StrideLength(xs, ys, (n + count - 1) % nodes, nodes);
    }
  }

  /** Every entry of a stride is an entry of the sequence. */
  lemma {:induction false} StrideSubset<T>(xs: seq<T>, start: nat, step: nat)
    requires step > 0
    ensures forall x :: x in Stride(xs, start, step) ==> x in xs
    decreases |xs| - start
  {
    if start < |xs| {
      StrideSubset(xs, start + step, step);
    }
  }

  /** Every entry of a shard is an entry of the sequence. */
  lemma {:induction false} ShardEntries<T>(xs: seq<T>, nodes: nat, n: nat, count: nat)
    requires nodes > 0
    ensures forall x :: x in Shard(xs, nodes, n, count) ==> x in xs
  {
    if count > 0 {
      ShardEntries(xs, nodes, n, count - 1);
      var s := (n + count - 1) % nodes;
      StrideSubset(xs, s, nodes);
    }
  }

  /** Starting one full step later is starting at the same offset after the first `step` entries. */
  lemma {:induction false} StrideDrop<T>(xs: seq<T>, start: nat, step: nat)
    requires 0 < step <= |xs|
    ensures Stride(xs, start + step, step) == Stride(xs[step..], start, step)
    decreases |xs| - start
  {
    if start + step < |xs| {
      StrideDrop(xs, start + step, step);
    }
  }

  lemma {:induction false} SumMSplit<T>(f: nat -> multiset<T>, lo: nat, mid: nat, hi: nat)
    requires lo <= mid <= hi
    ensures SumM(f, lo, hi) == SumM(f, lo, mid) + SumM(f, mid, hi)
    decreases hi
  {
    if mid < hi {
      SumMSplit(f, lo, mid, hi - 1);
    }
  }

  /** Two unions whose terms agree after shifting the index agree. */
  lemma {:induction false} SumMShift<T>(f: nat -> multiset<T>, g: nat -> multiset<T>, lo: nat, hi: nat, lo2: nat)
    requires lo <= hi
    requires forall i :: lo <= i < hi ==> f(i) == g(i - lo + lo2)
    ensures SumM(f, lo, hi) == SumM(g, lo2, lo2 + hi - lo)
    decreases hi
  {
    if lo < hi {
      SumMShift(f, g, lo, hi - 1, lo2);
    }
  }

  /** The union of pointwise unions is the union of the two unions. */
  lemma {:induction false} SumMAdd<T>(f: nat -> multiset<T>, g: nat -> multiset<T>, h: nat -> multiset<T>, lo: nat, hi: nat)
    requires forall i :: lo <= i < hi ==> f(i) == g(i) + h(i)
    ensures SumM(f, lo, hi) == SumM(g, lo, hi) + SumM(h, lo, hi)
    decreases hi
  {
    if lo < hi {
      SumMAdd(f, g, h, lo, hi - 1);
    }
  }

  /** The union of the singletons `xs[i]`, `i < m`, is the multiset of the first `m` entries. */
  lemma {:induction false} SumMSingletons<T>(f: nat -> multiset<T>, xs: seq<T>, m: nat)
    requires m <= |xs|
    requires forall i :: 0 <= i < m ==> f(i) == multiset{xs[i]}
    ensures SumM(f, 0, m) == multiset(xs[..m])
  {
    if m > 0 {
      SumMSingletons(f, xs, m - 1);
      assert xs[..m] == xs[..m - 1] + [xs[m - 1]];
    }
  }

  /** A union of empty multisets is empty. */
  lemma {:induction false} SumMEmpty<T>(f: nat -> multiset<T>, lo: nat, hi: nat)
    requires forall i :: lo <= i < hi ==> f(i) == multiset{}
    ensures SumM(f, lo, hi) == multiset{}
    decreases hi
  {
    if lo < hi {
      SumMEmpty(f, lo, hi - 1);
    }
  }

  /** The singleton of entry `i`, empty beyond the end. */
  function Singles<T>(xs: seq<T>): nat -> multiset<T>
  {
    (i: nat) => if i < |xs| then multiset{xs[i]} else multiset{}
  }

  /** A sequence no longer than the step has one-entry strides, then empty ones. */
  lemma StridesShort<T>(xs: seq<T>, step: nat)
    requires 0 < step && |xs| <= step
    ensures SumM(StrideBags(xs, step), 0, step) == multiset(xs)
  {
    var f := StrideBags(xs, step);
    forall i | 0 <= i < |xs| ensures f(i) == multiset{xs[i]} {
      assert Stride(xs, i + step, step) == [];
    }
    forall i | |xs| <= i < step ensures f(i) == multiset{} {
    }
    SumMSplit(f, 0, |xs|, step);
    SumMSingletons(f, xs, |xs|);
    SumMEmpty(f, |xs|, step);
    assert xs[..|xs|] == xs;
  }

  /** The stride at offset `i < step` is its first entry followed by the stride of what lies past
      the first `step` entries. */
  lemma StrideHead<T>(xs: seq<T>, step: nat, i: nat)
    requires 0 < step <= |xs| && i < step
    ensures StrideBags(xs, step)(i) == Singles(xs)(i) + StrideBags(xs[step..], step)(i)
  {
    StrideDrop(xs, i, step);
    assert Stride(xs, i, step) == [xs[i]] + Stride(xs, i + step, step);
  }

  /** The strides at offsets `0 .. step - 1` partition the sequence. */
  lemma {:induction false} StridesPartition<T>(xs: seq<T>, step: nat)
    requires step > 0
    ensures SumM(StrideBags(xs, step), 0, step) == multiset(xs)
    decreases |xs|
  {
    if |xs| <= step {
      StridesShort(xs, step);
    } else {
      var rest := xs[step..];
      HeadsAndRest(xs, step);
      Heads(xs, step);
      StridesPartition(rest, step);
      BagOfConcat(xs, xs[..step], rest);
      Join(SumM(StrideBags(xs, step), 0, step), SumM(Singles(xs), 0, step), SumM(StrideBags(rest, step), 0, step),
           multiset(xs[..step]), multiset(rest), multiset(xs));
    }
  }

  /** Each stride is its head and the stride of the rest, so the union of strides splits the same way. */
  lemma HeadsAndRest<T>(xs: seq<T>, step: nat)
    requires 0 < step <= |xs|
    ensures SumM(StrideBags(xs, step), 0, step) == SumM(Singles(xs), 0, step) + SumM(StrideBags(xs[step..], step), 0, step)
  {
    var f, g, h := StrideBags(xs, step), Singles(xs), StrideBags(xs[step..], step);
    forall i | 0 <= i < step ensures f(i) == g(i) + h(i) {
      StrideHead(xs, step, i);
    }
    SumMAdd(f, g, h, 0, step);
  }

  /** The heads of the strides are the first `step` entries. */
  lemma Heads<T>(xs: seq<T>, step: nat)
    requires 0 < step <= |xs|
    ensures SumM(Singles(xs), 0, step) == multiset(xs[..step])
  {
    var g := Singles(xs);
    forall i | 0 <= i < step ensures g(i) == multiset{xs[i]} {
    }
    SumMSingletons(g, xs, step);
  }

  /** Rewriting both parts of a union. */
  lemma Join<T>(whole: multiset<T>, a: multiset<T>, b: multiset<T>, ra: multiset<T>, rb: multiset<T>, target: multiset<T>)
    requires whole == a + b && a == ra && b == rb && target == ra + rb
    ensures whole == target
  {
  }

  /** Python's `%` on `0 <= a < 2 * m`. */
  lemma ModWrap(a: nat, m: nat)
    requires 0 < m && a < 2 * m
    ensures a % m == if a < m then a else a - m
  {
    if a >= m {
      assert a == m + (a - m);
    }
  }

  /** The rotated index, written without `%`. */
  lemma RotatedAt<T>(f: nat -> multiset<T>, nodes: nat, k: nat, i: nat)
    requires k < nodes && i < nodes
    ensures Rotated(f, nodes, k)(i) == f(if i + k < nodes then i + k else i + k - nodes)
  {
    ModWrap(i + k, nodes);
  }

  /** Rotating the index by `k < nodes` modulo `nodes` does not change a union over all nodes. */
  lemma Rotation<T>(f: nat -> multiset<T>, nodes: nat, k: nat)
    requires 0 < nodes && k < nodes
    ensures SumM(Rotated(f, nodes, k), 0, nodes) == SumM(f, 0, nodes)
  {
    var cut := nodes - k;
    RotatedFront(f, nodes, k);
    RotatedBack(f, nodes, k);
    SumMSplit(Rotated(f, nodes, k), 0, cut, nodes);
    SumMSplit(f, 0, k, nodes);
    JoinSwapped(SumM(Rotated(f, nodes, k), 0, nodes), SumM(Rotated(f, nodes, k), 0, cut), SumM(Rotated(f, nodes, k), cut, nodes),
                SumM(f, k, nodes), SumM(f, 0, k), SumM(f, 0, nodes));
  }

  /** The first `nodes - k` rotated terms are the terms from `k` on. */
  lemma RotatedFront<T>(f: nat -> multiset<T>, nodes: nat, k: nat)
    requires 0 < nodes && k < nodes
    ensures SumM(Rotated(f, nodes, k), 0, nodes - k) == SumM(f, k, nodes)
  {
    var g, cut := Rotated(f, nodes, k), nodes - k;
    forall i | 0 <= i < cut ensures g(i) == f(i - 0 + k) {
      RotatedAt(f, nodes, k, i);
    }
    SumMShift(g, f, 0, cut, k);
    assert k + cut - 0 == nodes;
  }

  /** The last `k` rotated terms are the terms before `k`. */
  lemma RotatedBack<T>(f: nat -> multiset<T>, nodes: nat, k: nat)
    requires 0 < nodes && k < nodes
    ensures SumM(Rotated(f, nodes, k), nodes - k, nodes) == SumM(f, 0, k)
  {
    var g, cut := Rotated(f, nodes, k), nodes - k;
    forall i | cut <= i < nodes ensures g(i) == f(i - cut + 0) {
      RotatedAt(f, nodes, k, i);
    }
    SumMShift(g, f, cut, nodes, 0);
    assert 0 + nodes - cut == k;
  }

  /** Rewriting both parts of a union, taken in the other order. */
  lemma JoinSwapped<T>(whole: multiset<T>, a: multiset<T>, b: multiset<T>, ra: multiset<T>, rb: multiset<T>, target: multiset<T>)
    requires whole == a + b && a == ra && b == rb && target == rb + ra
    ensures whole == target
  {
  }

  /** Over all nodes, the shards built from `count <= nodes` strides each hold every entry exactly
      `count` times. */
  lemma {:induction false} ShardsCover<T>(xs: seq<T>, nodes: nat, count: nat)
    requires 0 < nodes && count <= nodes
    ensures SumM(ShardBags(xs, nodes, count), 0, nodes) == Repeat(multiset(xs), count)
  {
    if count == 0 {
      NoShards(xs, nodes);
    } else {
      var k := count - 1;
      ShardsCover(xs, nodes, k);
      ShardsAddStride(xs, nodes, k);
      RotatedStridesPartition(xs, nodes, k);
      AddCopy(SumM(ShardBags(xs, nodes, count), 0, nodes), SumM(ShardBags(xs, nodes, k), 0, nodes),
              SumM(Rotated(StrideBags(xs, nodes), nodes, k), 0, nodes), multiset(xs), k);
    }
  }

  /** One more copy: `k` copies plus one are `k + 1` copies. */
  lemma AddCopy<T>(all: multiset<T>, prev: multiset<T>, rot: multiset<T>, m: multiset<T>, k: nat)
    requires all == prev + rot && prev == Repeat(m, k) && rot == m
    ensures all == Repeat(m, k + 1)
  {
  }

  /** Shards of no stride are empty. */
  lemma NoShards<T>(xs: seq<T>, nodes: nat)
    requires 0 < nodes
    ensures SumM(ShardBags(xs, nodes, 0), 0, nodes) == multiset{}
  {
    var f := ShardBags(xs, nodes, 0);
    forall i | 0 <= i < nodes ensures f(i) == multiset{} {
    }
    SumMEmpty(f, 0, nodes);
  }

  /** A shard of `k + 1` strides is the shard of `k` strides and the stride at `(n + k) % nodes`. */
  lemma ShardStep<T>(xs: seq<T>, nodes: nat, k: nat, n: nat)
    requires 0 < nodes
    ensures ShardBags(xs, nodes, k + 1)(n) == ShardBags(xs, nodes, k)(n) + Rotated(StrideBags(xs, nodes), nodes, k)(n)
  {
    ShardGrow(xs, nodes, k, n);
  }

  /** The same step, on the shard sequences themselves. */
  lemma ShardGrow<T>(xs: seq<T>, nodes: nat, k: nat, n: nat)
    requires 0 < nodes
    ensures multiset(Shard(xs, nodes, n, k + 1)) == multiset(Shard(xs, nodes, n, k)) + multiset(Stride(xs, (n + k) % nodes, nodes))
  {
    assert n + (k + 1) - 1 == n + k;
    BagOfConcat(Shard(xs, nodes, n, k + 1), Shard(xs, nodes, n, k), Stride(xs, (n + k) % nodes, nodes));
  }

  /** The bag of a concatenation is the union of the bags. */
  lemma BagOfConcat<T>(whole: seq<T>, a: seq<T>, b: seq<T>)
    requires whole == a + b
    ensures multiset(whole) == multiset(a) + multiset(b)
  {
  }

  /** Over all nodes, adding one more stride to every shard adds the rotated strides. */
  lemma ShardsAddStride<T>(xs: seq<T>, nodes: nat, k: nat)
    requires 0 < nodes
    ensures SumM(ShardBags(xs, nodes, k + 1), 0, nodes)
            == SumM(ShardBags(xs, nodes, k), 0, nodes) + SumM(Rotated(StrideBags(xs, nodes), nodes, k), 0, nodes)
  {
    var f, g, h := ShardBags(xs, nodes, k + 1), ShardBags(xs, nodes, k), Rotated(StrideBags(xs, nodes), nodes, k);
    forall i | 0 <= i < nodes ensures f(i) == g(i) + h(i) {
      ShardStep(xs, nodes, k, i);
    }
    SumMAdd(f, g, h, 0, nodes);
  }

  /** The strides rotated by `k < nodes` still partition the sequence. */
  lemma RotatedStridesPartition<T>(xs: seq<T>, nodes: nat, k: nat)
    requires 0 < nodes && k < nodes
    ensures SumM(Rotated(StrideBags(xs, nodes), nodes, k), 0, nodes) == multiset(xs)
  {
    Rotation(StrideBags(xs, nodes), nodes, k);
    StridesPartition(xs, nodes);
  }
}
