/** The point of presence of cdn/pop.py: a cluster of identical edge caches whose storage is split
    into a part every cache holds alike (the most popular titles) and a part shared by consistent
    hashing with a replication factor. */
module PoPs {
  import opened Wrappers
  import opened Numeric
  import opened Profiles
  import opened Caches

  /** What a PoP passes upstream: the requests its caches miss, the profile of the content none of
      them holds, the utilisation of one cache, and the PoP's cache hit ratio. */
  datatype PopIngress = PopIngress(missRps: int, profile: Request, utilisation: real, hitRatio: real)

  /** The load on one cache of `numcache`: its share of the requests arriving, plus its share of the
      requests the dedicated stage passes on to the shared one, in bits per second over the capacity. */
  function Utilisation(rps: int, egress: Request, rps1: int, ingress1: Request, numcache: int, capacity: real): real
    requires egress.Shaped() && ingress1.Shaped() && numcache > 0 && capacity > 0.0
  {
    (Rps2Bps(egress, rps as real / numcache as real) + Rps2Bps(ingress1, rps1 as real) / numcache as real) / capacity
  }

  /** One less the misses of both stages over the requests reaching both. */
  function TwoStageHitRatio(rps: int, rps1: int, rps2: int): real
    requires rps + rps1 != 0
  {
    1.0 - (rps1 + rps2) as real / (rps + rps1) as real
  }

  class PoP {
    const cache: Cache
    var numcache: int
    var dedicatedRatio: real    // the share of each cache's storage holding the same titles
    var replication: int

    ghost predicate Valid()
      reads this, cache
    {
      cache.Valid() && numcache > 0 && replication > 0 && 0.0 <= dedicatedRatio <= 1.0
    }

    constructor (cache: Cache)
      requires cache.Valid()
      ensures Valid() && this.cache == cache
      ensures numcache == 1 && dedicatedRatio == 0.1 && replication == 1
    {
      this.cache := cache;
      numcache := 1;
      dedicatedRatio := 0.1;
      replication := 1;
    }

    /** The `replication` setter: accepted only when positive. */
    method SetReplication(val: int) returns (ok: bool)
      requires Valid()
      modifies this
      ensures Valid()
      ensures ok <==> val > 0
      ensures replication == if ok then val else old(replication)
      ensures numcache == old(numcache) && dedicatedRatio == old(dedicatedRatio)
    {
      ok := val > 0;
      if ok {
        replication := val;
      }
    }

    /** The `numcache` setter: accepted only when positive. */
    method SetNumCache(val: int) returns (ok: bool)
      requires Valid()
      modifies this
      ensures Valid()
      ensures ok <==> val > 0
      ensures numcache == if ok then val else old(numcache)
      ensures replication == old(replication) && dedicatedRatio == old(dedicatedRatio)
    {
      ok := val > 0;
      if ok {
        numcache := val;
      }
    }

    /** The `nummodules` setter, delegated to the cache. */
    method SetNumModules(val: int) returns (ok: bool)
      requires Valid()
      modifies cache
      ensures Valid()
      ensures ok <==> MinModules <= val <= cache.maxmodules
      ensures cache.nummodules == if ok then val else old(cache.nummodules)
    {
      ok := cache.SetNumModules(val);
    }

    /** The `storage1ec` setter: a share between 0 and 1. */
    method SetDedicatedRatio(percent: real) returns (ok: bool)
      requires Valid()
      modifies this
      ensures Valid()
      ensures ok <==> 0.0 <= percent <= 1.0
      ensures dedicatedRatio == if ok then percent else old(dedicatedRatio)
      ensures numcache == old(numcache) && replication == old(replication)
    {
      ok := 0.0 <= percent <= 1.0;
      if ok {
        dedicatedRatio := percent;
      }
    }

    /** `storage1ec`: the bytes of each cache that hold the same titles, truncated. */
    function Storage1ec(): int
      reads this, cache
    {
      TruncShare(cache.Storage(), dedicatedRatio)
    }

    /** The storage the PoP gives to each replica of the shared part:
        `numcache * (storage - storage1ec) / replication`. */
    function SharedBudget(): real
      reads this, cache
      requires Valid()
    {
      (numcache * (cache.Storage() - Storage1ec())) as real / replication as real
    }

    /** `ingress(rps, egress)`: the dedicated part serves the most popular titles, the shared part
        the next ones; the hit ratio is one less the misses of both stages over the requests that
        reach them. */
    function Ingress(rps: int, egress: Request): (res: Result<PopIngress, Error>)
      reads this, cache
      requires Valid() && egress.Shaped()
      ensures res.Success? ==> res.value.profile.Shaped()
      ensures res.Failure? ==> res.error == NonPositiveContentBase || res.error == DivisionByZero
    {
      var dedicated := Storage1ec() as real;
      var rps1 := Missed(egress, rps, dedicated);
      var ingress1 :- Miss(egress, dedicated);
      var budget := SharedBudget();
      var rps2 := Missed(ingress1, rps1, budget);
      var ingress2 :- Miss(ingress1, budget);
      var utilisation := Utilisation(rps, egress, rps1, ingress1, numcache, cache.capacity);
      if rps + rps1 == 0 then Failure(DivisionByZero)
      else Success(PopIngress(rps2, ingress2, utilisation, TwoStageHitRatio(rps, rps1, rps2)))
    }

    /** `cost`: the price of all caches. */
    function Cost(): real
      reads this, cache
    {
      numcache as real * cache.Cost()
    }
  }

  /** The dedicated part is a share of each cache's storage, and the shared budget is what is left
      on all caches, divided among the replicas. */
  lemma StorageSplit(p: PoP)
    requires p.Valid() && p.cache.modulesize >= 0
    ensures 0 <= p.Storage1ec() <= p.cache.Storage()
    ensures 0.0 <= p.SharedBudget()
    ensures p.SharedBudget() * p.replication as real == (p.numcache * (p.cache.Storage() - p.Storage1ec())) as real
  {
    TruncShareBounds(p.cache.Storage(), p.dedicatedRatio);
    var shared := p.numcache * (p.cache.Storage() - p.Storage1ec());
    assert 0 <= shared;
    QuotientNonNegative(shared as real, p.replication as real);
  }

  /** A PoP costs at least one of its caches, and more caches cost more. */
  lemma CostGrowsWithCaches(p: PoP, q: PoP)
    requires p.Valid() && q.Valid() && p.cache == q.cache && p.cache.Cost() >= 0.0
    requires p.numcache <= q.numcache
    ensures p.cache.Cost() <= p.Cost() <= q.Cost()
  {
    ShareMonotone(1.0, p.numcache as real, p.cache.Cost());
    ShareMonotone(p.numcache as real, q.numcache as real, p.cache.Cost());
  }

  /** The hit ratio of two stages in a row: one less the misses of both over the requests that reach
      both is the hits of both over those requests. */
  lemma TwoStageRatio(rps: int, rps1: int, rps2: int)
    requires 0 <= rps2 <= rps1 <= rps && 0 < rps
    ensures 0.0 <= TwoStageHitRatio(rps, rps1, rps2) <= 1.0
    ensures TwoStageHitRatio(rps, rps1, rps2) * (rps + rps1) as real == ((rps - rps1) + (rps1 - rps2)) as real
  {
    var total := (rps + rps1) as real;
    RatioBounds((rps1 + rps2) as real, total);
    assert (rps1 + rps2) as real / total * total == (rps1 + rps2) as real;
  }

  /** For a well-formed profile and a non-negative rate, the PoP fails only when no request arrives
      (the division by zero of the hit ratio); otherwise the shared stage misses no more than the
      dedicated one, which misses no more than arrives, the hit ratio is the share of requests either
      stage serves, and what is passed upstream is a well-formed part of the catalog: what the
      shared stage misses of what the dedicated stage misses. */
  lemma IngressSpec(p: PoP, rps: int, egress: Request)
    requires p.Valid() && WellFormed(egress) && rps >= 0
    ensures p.Ingress(rps, egress).Failure? <==> rps == 0
    ensures rps == 0 ==> p.Ingress(rps, egress).error == DivisionByZero
    ensures p.Ingress(rps, egress).Success? ==>
      var res := p.Ingress(rps, egress).value;
      var rps1 := Missed(egress, rps, p.Storage1ec() as real);
      && 0 <= res.missRps <= rps1 <= rps
      && WellFormed(res.profile)
      && multiset(res.profile.size) <= multiset(egress.size)
      && 0.0 <= res.hitRatio <= 1.0
      && res.hitRatio == TwoStageHitRatio(rps, rps1, res.missRps)
      && 0.0 <= res.utilisation
    ensures p.Ingress(rps, egress).Success? ==>
      var ingress1 := Miss(egress, p.Storage1ec() as real);
      && ingress1.Success?
      && Miss(ingress1.value, p.SharedBudget()) == Success(p.Ingress(rps, egress).value.profile)
      && p.Ingress(rps, egress).value.missRps
         == Missed(ingress1.value, Missed(egress, rps, p.Storage1ec() as real), p.SharedBudget())
  {
    IngressBounds(p, rps, egress);
    IngressStages(p, rps, egress);
  }

  lemma IngressBounds(p: PoP, rps: int, egress: Request)
    requires p.Valid() && WellFormed(egress) && rps >= 0
    ensures p.Ingress(rps, egress).Failure? <==> rps == 0
    ensures rps == 0 ==> p.Ingress(rps, egress).error == DivisionByZero
    ensures p.Ingress(rps, egress).Success? ==>
      var res := p.Ingress(rps, egress).value;
      var rps1 := Missed(egress, rps, p.Storage1ec() as real);
      && 0 <= res.missRps <= rps1 <= rps
      && WellFormed(res.profile)
      && multiset(res.profile.size) <= multiset(egress.size)
      && 0.0 <= res.hitRatio <= 1.0
      && res.hitRatio == TwoStageHitRatio(rps, rps1, res.missRps)
      && 0.0 <= res.utilisation
  {
    var dedicated := p.Storage1ec() as real;
    var rps1 := Missed(egress, rps, dedicated);
    MissedBounds(egress, rps, dedicated);
    MissSpec(egress, dedicated);
    var ingress1 := Miss(egress, dedicated).value;
    var budget := p.SharedBudget();
    var rps2 := Missed(ingress1, rps1, budget);
    MissedBounds(ingress1, rps1, budget);
    MissSpec(ingress1, budget);
    var ingress2 := Miss(ingress1, budget).value;
    var utilisation := Utilisation(rps, egress, rps1, ingress1, p.numcache, p.cache.capacity);
    UtilisationNonNegative(rps, egress, rps1, ingress1, p.numcache, p.cache.capacity);
    if rps == 0 {
      assert p.Ingress(rps, egress) == Failure(DivisionByZero);
    } else {
      TwoStageRatio(rps, rps1, rps2);
      assert p.Ingress(rps, egress) == Success(PopIngress(rps2, ingress2, utilisation, TwoStageHitRatio(rps, rps1, rps2)));
    }
  }

  lemma IngressStages(p: PoP, rps: int, egress: Request)
    requires p.Valid() && WellFormed(egress) && rps >= 0
    ensures p.Ingress(rps, egress).Success? ==>
      var ingress1 := Miss(egress, p.Storage1ec() as real);
      && ingress1.Success?
      && Miss(ingress1.value, p.SharedBudget()) == Success(p.Ingress(rps, egress).value.profile)
      && p.Ingress(rps, egress).value.missRps
         == Missed(ingress1.value, Missed(egress, rps, p.Storage1ec() as real), p.SharedBudget())
  {
    var dedicated := p.Storage1ec() as real;
    var rps1 := Missed(egress, rps, dedicated);
    MissSpec(egress, dedicated);
    var ingress1 := Miss(egress, dedicated).value;
    var budget := p.SharedBudget();
    var rps2 := Missed(ingress1, rps1, budget);
    MissSpec(ingress1, budget);
    var ingress2 := Miss(ingress1, budget).value;
    var utilisation := Utilisation(rps, egress, rps1, ingress1, p.numcache, p.cache.capacity);
    if rps + rps1 != 0 {
      assert p.Ingress(rps, egress) == Success(PopIngress(rps2, ingress2, utilisation, TwoStageHitRatio(rps, rps1, rps2)));
    }
  }

  /** With non-negative rates the utilisation is not negative. */
  lemma UtilisationNonNegative(rps: int, egress: Request, rps1: int, ingress1: Request, numcache: int, capacity: real)
    requires WellFormed(egress) && WellFormed(ingress1) && rps >= 0 && rps1 >= 0 && numcache > 0 && capacity > 0.0
    ensures 0.0 <= Utilisation(rps, egress, rps1, ingress1, numcache, capacity)
  {
    var n := numcache as real;
    QuotientNonNegative(rps as real, n);
    BitRateNonNegative(egress, rps as real / n);
    BitRateNonNegative(ingress1, rps1 as real);
    QuotientNonNegative(Rps2Bps(ingress1, rps1 as real), n);
    QuotientNonNegative(Rps2Bps(egress, rps as real / n) + Rps2Bps(ingress1, rps1 as real) / n, capacity);
  }
}
