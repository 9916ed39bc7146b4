/** The whole CDN of cdn/system.py: `numpops` identical points of presence in front of a cluster of
    `nummc` master caches. */
module Systems {
  import opened Wrappers
  import opened Numeric
  import opened Profiles
  import opened Caches
  import opened PoPs

  /** What the system passes to the origin, stage by stage: the PoP's tuple (requests it misses, their
      profile, edge cache utilisation, edge hit ratio), then the master cluster's (requests it misses,
      their profile, master cache utilisation, master hit ratio, undefined when no request reaches
      the cluster). */
  datatype SystemIngress = SystemIngress(
    popMissRps: int, popProfile: Request, utilisationEc: real, hitRatioEc: real,
    missRps: int, profile: Request, utilisationMc: real, hitRatioMc: Option<real>)

  /** `int(numrequests / numpops)`: the requests of one PoP, from a request rate that need not be
      whole. */
  function PerPop(numrequests: real, numpops: int): int
    requires numpops != 0
  {
    Trunc(numrequests / numpops as real)
  }

  /** The load on one master cache: its share of the requests all PoPs pass on, in bits per second
      over its capacity. */
  function MasterUtilisation(profile: Request, arriving: int, nummc: int, capacity: real): real
    requires profile.Shaped() && nummc > 0 && capacity > 0.0
  {
    Rps2Bps(profile, arriving as real / nummc as real) / capacity
  }

  /** The master hit ratio as the system computes it: one less the misses of the whole cluster over
      the requests of ONE PoP, undefined (NaN) when that PoP passes nothing on. */
  function MasterHitRatio(popMissRps: int, missRps: int): Option<real>
  {
    if popMissRps != 0 then Some(1.0 - missRps as real / popMissRps as real) else None
  }

  /** The hit ratio of the master cluster over the requests that actually reach it: those of all
      PoPs. */
  function ClusterHitRatio(arriving: int, missRps: int): real
    requires arriving != 0
  {
    1.0 - missRps as real / arriving as real
  }

  class System {
    const numpops: int
    const request: Request
    const pop: PoP
    const mc: Cache
    var nummc: int

    ghost predicate Valid()
      reads this, pop, pop.cache, mc
    {
      pop.Valid() && mc.Valid() && nummc > 0
    }

    /** A new PoP is built around the edge cache `ec`; one master cache. The edge and master cache
        may be the same object. */
    constructor (numpops: int, request: Request, ec: Cache, mc: Cache)
      requires ec.Valid() && mc.Valid()
      ensures Valid() && fresh(pop)
      ensures this.numpops == numpops && this.request == request && pop.cache == ec && this.mc == mc
      ensures nummc == 1 && pop.numcache == 1 && pop.replication == 1 && pop.dedicatedRatio == 0.1
    {
      this.numpops := numpops;
      this.request := request;
      this.pop := new PoP(ec);
      this.mc := mc;
      nummc := 1;
    }

    /** The `nummc` setter: accepted only when positive. */
    method SetNumMc(val: int) returns (ok: bool)
      requires Valid()
      modifies this
      ensures Valid()
      ensures ok <==> val > 0
      ensures nummc == if ok then val else old(nummc)
    {
      ok := val > 0;
      if ok {
        nummc := val;
      }
    }

    /** The `numecpop` setter, delegated to the PoP. */
    method SetNumEcPop(val: int) returns (ok: bool)
      requires Valid()
      modifies pop
      ensures Valid()
      ensures ok <==> val > 0
      ensures pop.numcache == if ok then val else old(pop.numcache)
      ensures pop.replication == old(pop.replication) && pop.dedicatedRatio == old(pop.dedicatedRatio)
    {
      ok := pop.SetNumCache(val);
    }

    /** The `replication` setter, delegated to the PoP. */
    method SetReplication(val: int) returns (ok: bool)
      requires Valid()
      modifies pop
      ensures Valid()
      ensures ok <==> val > 0
      ensures pop.replication == if ok then val else old(pop.replication)
      ensures pop.numcache == old(pop.numcache) && pop.dedicatedRatio == old(pop.dedicatedRatio)
    {
      ok := pop.SetReplication(val);
    }

    /** The `nummodulesec` setter, delegated to the PoP's cache; a master cache that is a different
        object keeps its modules. */
    method SetNumModulesEc(val: int) returns (ok: bool)
      requires Valid()
      modifies pop.cache
      ensures Valid()
      ensures ok <==> MinModules <= val <= pop.cache.maxmodules
      ensures pop.cache.nummodules == if ok then val else old(pop.cache.nummodules)
      ensures mc != pop.cache ==> mc.nummodules == old(mc.nummodules)
    {
      ok := pop.SetNumModules(val);
    }

    /** The `nummodulesmc` setter, delegated to the master cache; an edge cache that is a different
        object keeps its modules. */
    method SetNumModulesMc(val: int) returns (ok: bool)
      requires Valid()
      modifies mc
      ensures Valid()
      ensures ok <==> MinModules <= val <= mc.maxmodules
      ensures mc.nummodules == if ok then val else old(mc.nummodules)
      ensures mc != pop.cache ==> pop.cache.nummodules == old(pop.cache.nummodules)
    {
      ok := mc.SetNumModules(val);
    }

    /** The `storage1ec` setter, delegated to the PoP. */
    method SetStorage1ec(percent: real) returns (ok: bool)
      requires Valid()
      modifies pop
      ensures Valid()
      ensures ok <==> 0.0 <= percent <= 1.0
      ensures pop.dedicatedRatio == if ok then percent else old(pop.dedicatedRatio)
      ensures pop.numcache == old(pop.numcache) && pop.replication == old(pop.replication)
    {
      ok := pop.SetDedicatedRatio(percent);
    }

    /** `cost`: all PoPs and all master caches. */
    function Cost(): real
      reads this, pop, pop.cache, mc
    {
      numpops as real * pop.Cost() + nummc as real * mc.Cost()
    }

    /** `ingress(numrequests, egress)`: one PoP takes its share of the requests, and the master
        cluster serves what all PoPs miss, with the storage of all master caches together. */
    function Ingress(numrequests: real, egress: Request): (res: Result<SystemIngress, Error>)
      reads this, pop, pop.cache, mc
      requires Valid() && egress.Shaped()
      ensures numpops == 0 ==> res == Failure(DivisionByZero)
      ensures res.Success? ==> res.value.popProfile.Shaped() && res.value.profile.Shaped()
    {
      if numpops == 0 then Failure(DivisionByZero)
      else
        var popStage :- pop.Ingress(PerPop(numrequests, numpops), egress);
        var arriving := popStage.missRps * numpops;
        var storage := (nummc * mc.Storage()) as real;
        var missRps := Missed(popStage.profile, arriving, storage);
        var profile :- Miss(popStage.profile, storage);
        Success(SystemIngress(
          popStage.missRps, popStage.profile, popStage.utilisation, popStage.hitRatio,
          missRps, profile, MasterUtilisation(popStage.profile, arriving, nummc, mc.capacity),
          MasterHitRatio(popStage.missRps, missRps)))
    }
  }

  /** For a non-negative rate every PoP gets the largest whole share: together the PoPs get no more
      than the requests, and one more request each would be too many. A PoP gets none exactly when
      there are fewer requests than PoPs. */
  lemma PerPopShare(numrequests: real, numpops: int)
    requires numrequests >= 0.0 && numpops > 0
    ensures 0 <= PerPop(numrequests, numpops)
    ensures PerPop(numrequests, numpops) as real * numpops as real <= numrequests
    ensures numrequests < PerPop(numrequests, numpops) as real * numpops as real + numpops as real
    ensures PerPop(numrequests, numpops) == 0 <==> numrequests < numpops as real
  {
    TruncQuotient(numrequests, numpops as real);
    TruncQuotientZero(numrequests, numpops as real);
  }

  /** For a whole number of requests the requests of one PoP are the integer quotient. */
  lemma PerPopQuotient(numrequests: int, numpops: int)
    requires numrequests >= 0 && numpops > 0
    ensures PerPop(numrequests as real, numpops) == numrequests / numpops
  {
    var q := numrequests / numpops;
    var r := numrequests % numpops;
    var np := numpops as real;
    var x := numrequests as real / np;
    assert (q as real + r as real / np) * np == numrequests as real;
    assert x == q as real + r as real / np;
    RatioBounds(r as real, np);
    assert r as real / np < 1.0 by {
      assert r as real / np * np == r as real;
    }
  }

  /** Dividing by `a * n` and multiplying by `n` is dividing by `a`. */
  lemma QuotientScaled(m: real, a: real, n: real)
    requires a != 0.0 && n != 0.0
    ensures n * (m / (a * n)) == m / a
  {
    var q := m / (a * n);
    assert q * (a * n) == m;
    assert (n * q) * a == m;
  }

  /** The system's master hit ratio is the cluster's scaled up by the number of PoPs: it falls short
      of one by `numpops` times what the cluster's does. */
  lemma MasterHitRatioScaled(popMissRps: int, missRps: int, numpops: int)
    requires popMissRps != 0 && numpops != 0
    ensures MasterHitRatio(popMissRps, missRps).Some?
    ensures MasterHitRatio(popMissRps, missRps).value
            == 1.0 - numpops as real * (1.0 - ClusterHitRatio(popMissRps * numpops, missRps))
  {
    var a := popMissRps as real;
    var n := numpops as real;
    var m := missRps as real;
    assert (popMissRps * numpops) as real == a * n;
    var x := m / (a * n);
    assert 1.0 - ClusterHitRatio(popMissRps * numpops, missRps) == x;
    QuotientScaled(m, a, n);
  }

  /** When no more requests are missed than reach the cluster, its hit ratio lies between 0 and 1,
      while the system's can go down to `1 - numpops`. */
  lemma MasterHitRatioBounds(popMissRps: int, missRps: int, numpops: int)
    requires 0 < popMissRps && 0 < numpops && 0 <= missRps <= popMissRps * numpops
    ensures 0.0 <= ClusterHitRatio(popMissRps * numpops, missRps) <= 1.0
    ensures 1.0 - numpops as real <= MasterHitRatio(popMissRps, missRps).value <= 1.0
  {
    RatioBounds(missRps as real, (popMissRps * numpops) as real);
    MasterHitRatioScaled(popMissRps, missRps, numpops);
    var c := ClusterHitRatio(popMissRps * numpops, missRps);
    ShareBounds(1.0 - c, numpops as real);
  }

  /** A profile with two equally popular titles of one byte each. */
  function TwoTitles(): Request
  {
    Request([1, 1], [0.5, 0.5])
  }

  lemma TwoTitlesWellFormed()
    ensures WellFormed(TwoTitles())
  {
    assert TwoTitles().pmf[..1] == [0.5];
    assert TwoTitles().pmf[..1][..0] == [];
  }

  /** Three PoPs each passing on 10 requests for two equally popular one-byte titles to a master
      cluster of one byte: the cluster holds one title and misses 15 of the 30 requests reaching it,
      a hit ratio of one half, but the system reports minus one half. */
  lemma MasterHitRatioNegative()
    ensures Missed(TwoTitles(), 10 * 3, 1.0) == 15
    ensures ClusterHitRatio(10 * 3, 15) == 0.5
    ensures MasterHitRatio(10, 15) == Some(-0.5)
  {
    TwoTitlesWellFormed();
    CdfBelowFirst(TwoTitles(), 1.0);
    assert Cdf(TwoTitles(), 1.0) == 0.5;
    assert TruncShare(30, 0.5) == 15;
  }

  /** More edge caches in each PoP never make the system cheaper when an edge cache has a price. */
  lemma CostGrowsWithEdgeCaches(s: System, t: System)
    requires s.Valid() && t.Valid() && s.numpops == t.numpops && 0 <= s.numpops
    requires s.pop.cache == t.pop.cache && s.mc == t.mc && s.nummc == t.nummc
    requires s.pop.cache.Cost() >= 0.0 && s.pop.numcache <= t.pop.numcache
    ensures s.Cost() <= t.Cost()
  {
    PoPs.CostGrowsWithCaches(s.pop, t.pop);
    ShareMonotone(s.pop.Cost(), t.pop.Cost(), s.numpops as real);
    assert s.numpops as real * s.pop.Cost() <= s.numpops as real * t.pop.Cost();
  }

  /** More master caches never make the system cheaper when a master cache has a price. */
  lemma CostGrowsWithMasters(s: System, t: System)
    requires s.Valid() && t.Valid() && s.numpops == t.numpops && s.pop == t.pop && s.mc == t.mc
    requires s.mc.Cost() >= 0.0 && s.nummc <= t.nummc
    ensures s.Cost() <= t.Cost()
  {
    ShareMonotone(s.nummc as real, t.nummc as real, s.mc.Cost());
  }

  /** The master utilisation is not negative for non-negative rates and a well-formed profile. */
  lemma MasterUtilisationNonNegative(profile: Request, arriving: int, nummc: int, capacity: real)
    requires WellFormed(profile) && arriving >= 0 && nummc > 0 && capacity > 0.0
    ensures 0.0 <= MasterUtilisation(profile, arriving, nummc, capacity)
  {
    QuotientNonNegative(arriving as real, nummc as real);
    BitRateNonNegative(profile, arriving as real / nummc as real);
    QuotientNonNegative(Rps2Bps(profile, arriving as real / nummc as real), capacity);
  }

  /** The master cluster with the storage `storage` behind `numpops` PoPs that each pass on
      `popMissRps` requests of a well-formed profile: it misses no more than reaches it, passes on a
      well-formed part of the profile, and its hit ratio as the system reports it is undefined exactly
      when nothing reaches it and otherwise lies between `1 - numpops` and 1. */
  lemma MasterStageSpec(profile: Request, popMissRps: int, numpops: int, storage: real)
    requires WellFormed(profile) && popMissRps >= 0 && numpops > 0
    ensures 0 <= Missed(profile, popMissRps * numpops, storage) <= popMissRps * numpops
    ensures Miss(profile, storage).Success? && WellFormed(Miss(profile, storage).value)
    ensures multiset(Miss(profile, storage).value.size) <= multiset(profile.size)
    ensures MasterHitRatio(popMissRps, Missed(profile, popMissRps * numpops, storage)).None? <==> popMissRps == 0
    ensures popMissRps != 0 ==>
      1.0 - numpops as real <= MasterHitRatio(popMissRps, Missed(profile, popMissRps * numpops, storage)).value <= 1.0
  {
    var arriving := popMissRps * numpops;
    var missRps := Missed(profile, arriving, storage);
    MissedBounds(profile, arriving, storage);
    MissSpec(profile, storage);
    if popMissRps != 0 {
      MasterHitRatioBounds(popMissRps, missRps, numpops);
    }
  }

  /** For a positive number of PoPs, a well-formed profile and a non-negative request count, the
      system fails only when a PoP gets no request (the PoP's division by zero); otherwise its first
      four results are those of the PoP given its whole share of the requests, the cluster misses no more than reaches it, the profiles are well-formed and each a part of the
      one before, the utilisations are not negative, and the master hit ratio is undefined exactly
      when no request reaches the cluster and otherwise no lower than `1 - numpops` (see
      `MasterHitRatioScaled` for how it relates to the cluster's own hit ratio). */
  lemma IngressSpec(s: System, numrequests: real, egress: Request)
    requires s.Valid() && WellFormed(egress) && numrequests >= 0.0 && s.numpops > 0
    ensures s.Ingress(numrequests, egress).Failure? <==> numrequests < s.numpops as real
    ensures numrequests < s.numpops as real ==> s.Ingress(numrequests, egress).error == DivisionByZero
    ensures s.Ingress(numrequests, egress).Success? ==>
      var res := s.Ingress(numrequests, egress).value;
      && s.pop.Ingress(PerPop(numrequests, s.numpops), egress)
         == Success(PopIngress(res.popMissRps, res.popProfile, res.utilisationEc, res.hitRatioEc))
      && 0 <= res.popMissRps <= PerPop(numrequests, s.numpops)
      && 0 <= res.missRps <= res.popMissRps * s.numpops
      && WellFormed(res.popProfile) && WellFormed(res.profile)
      && multiset(res.profile.size) <= multiset(res.popProfile.size) <= multiset(egress.size)
      && 0.0 <= res.hitRatioEc <= 1.0
      && 0.0 <= res.utilisationEc && 0.0 <= res.utilisationMc
      && (res.hitRatioMc.None? <==> res.popMissRps == 0)
      && res.hitRatioMc == MasterHitRatio(res.popMissRps, res.missRps)
      && (res.hitRatioMc.Some? ==> 1.0 - s.numpops as real <= res.hitRatioMc.value <= 1.0)
  {
    var rps := PerPop(numrequests, s.numpops);
    PerPopShare(numrequests, s.numpops);
    PoPs.IngressSpec(s.pop, rps, egress);
    if rps == 0 {
      assert s.Ingress(numrequests, egress) == Failure(DivisionByZero);
    } else {
      var popStage := s.pop.Ingress(rps, egress).value;
      var storage := (s.nummc * s.mc.Storage()) as real;
      var arriving := popStage.missRps * s.numpops;
      MasterStageSpec(popStage.profile, popStage.missRps, s.numpops, storage);
      MasterUtilisationNonNegative(popStage.profile, arriving, s.nummc, s.mc.capacity);
      assert s.Ingress(numrequests, egress) == Success(SystemIngress(
        popStage.missRps, popStage.profile, popStage.utilisation, popStage.hitRatio,
        Missed(popStage.profile, arriving, storage), Miss(popStage.profile, storage).value,
        MasterUtilisation(popStage.profile, arriving, s.nummc, s.mc.capacity),
        MasterHitRatio(popStage.missRps, Missed(popStage.profile, arriving, storage))));
    }
  }

}
