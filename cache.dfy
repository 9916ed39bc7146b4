/** The cache server of cdn/cache.py: a box of identical storage modules with a throughput
    capacity, its storage and price, and what it passes upstream for a request profile. */
module Caches {
  import opened Wrappers
  import opened Numeric
  import opened Profiles

  /** A cache always holds at least this many modules. */
  const MinModules: int := 1

  /** What a cache passes upstream: the requests it misses, the profile of the content it does not
      hold, and its utilisation (throughput over capacity). */
  datatype CacheIngress = CacheIngress(missRps: int, profile: Request, utilisation: real)

  class Cache {
    const capacity: real     // bits per second
    const modulesize: int    // bytes per storage module
    const moduleprice: real
    const maxmodules: int
    const baseprice: real
    var nummodules: int

    /** The module count is at least the minimum and, once set, at most the maximum; the
        constructor starts at the minimum without comparing it with the maximum. */
    ghost predicate Valid()
      reads this
    {
      capacity > 0.0 && MinModules <= nummodules && (nummodules <= maxmodules || nummodules == MinModules)
    }

    constructor (capacity: real, modulesize: int, moduleprice: real, maxmodules: int, baseprice: real)
      requires capacity > 0.0
      ensures Valid()
      ensures this.capacity == capacity && this.modulesize == modulesize && this.moduleprice == moduleprice
      ensures this.maxmodules == maxmodules && this.baseprice == baseprice
      ensures nummodules == MinModules
    {
      this.capacity := capacity;
      this.modulesize := modulesize;
      this.moduleprice := moduleprice;
      this.maxmodules := maxmodules;
      this.baseprice := baseprice;
      nummodules := MinModules;
    }

    /** The Dell R750: 160 Gbit/s, modules of 256 GB at 28 per 8 GB, at most 16 of them, and a
        base price of 10000. */
    constructor DellR750()
      ensures Valid() && IsDellR750() && nummodules == MinModules
    {
      capacity := 160.0 * 1000.0 * 1000.0 * 1000.0;
      modulesize := 256 * 1000 * 1000 * 1000;
      moduleprice := 256.0 * 28.0;
      maxmodules := 16;
      baseprice := 10000.0;
      nummodules := MinModules;
    }

    ghost predicate IsDellR750()
      reads this
    {
      && capacity == 160000000000.0
      && modulesize == 256000000000
      && moduleprice == 7168.0
      && maxmodules == 16
      && baseprice == 10000.0
    }

    /** The `nummodules` setter: accepted only between the minimum and the maximum. */
    method SetNumModules(val: int) returns (ok: bool)
      requires Valid()
      modifies this
      ensures Valid()
      ensures ok <==> MinModules <= val <= maxmodules
      ensures nummodules == if ok then val else old(nummodules)
    {
      ok := MinModules <= val <= maxmodules;
      if ok {
        nummodules := val;
      }
    }

    /** `storage`: bytes held. */
    function Storage(): (s: int)
      reads this
      ensures Valid() && modulesize >= 0 ==> modulesize <= s
    {
      nummodules * modulesize
    }

    /** `cost`: the base price plus the price of the modules. */
    function Cost(): (c: real)
      reads this
      ensures Valid() && moduleprice >= 0.0 ==> baseprice + moduleprice <= c
    {
      baseprice + nummodules as real * moduleprice
    }

    /** `ingress(rps, egress)`: the requests the cache misses (truncated to an integer), the profile
        beyond its storage, and the throughput of all requests over the capacity. */
    function Ingress(rps: int, egress: Request): (res: Result<CacheIngress, Error>)
      reads this
      requires Valid() && egress.Shaped()
      ensures res.Success? ==> res.value.profile.Shaped()
      ensures res.Failure? ==> res.error == NonPositiveContentBase
    {
      var storage := Storage() as real;
      var missRps := Missed(egress, rps, storage);
      var profile :- Miss(egress, storage);
      Success(CacheIngress(missRps, profile, Rps2Bps(egress, rps as real) / capacity))
    }
  }

  /** Storage grows with the module count up to the maximum. */
  lemma StorageBounds(c: Cache)
    requires c.Valid() && c.modulesize >= 0 && c.maxmodules >= MinModules
    ensures c.modulesize <= c.Storage() <= c.maxmodules * c.modulesize
  {
    assert c.maxmodules * c.modulesize - c.Storage() == (c.maxmodules - c.nummodules) * c.modulesize;
  }

  /** The price of a cache lies between one module and a full box. */
  lemma CostBounds(c: Cache)
    requires c.Valid() && c.moduleprice >= 0.0 && c.maxmodules >= MinModules
    ensures c.baseprice + c.moduleprice <= c.Cost() <= c.baseprice + c.maxmodules as real * c.moduleprice
  {
    ShareMonotone(c.nummodules as real, c.maxmodules as real, c.moduleprice);
  }

  /** Of two caches at the same prices, the one with more modules costs no less. */
  lemma CostGrowsWithModules(c: Cache, d: Cache)
    requires c.baseprice == d.baseprice && c.moduleprice == d.moduleprice && c.moduleprice >= 0.0
    requires c.nummodules <= d.nummodules
    ensures c.Cost() <= d.Cost()
  {
    ShareMonotone(c.nummodules as real, d.nummodules as real, c.moduleprice);
  }

  /** A Dell R750 costs between 17168 and 124688 and stores between 256 GB and 4096 GB. */
  lemma DellR750Range(c: Cache)
    requires c.Valid() && c.IsDellR750()
    ensures 17168.0 <= c.Cost() <= 124688.0
    ensures 256000000000 <= c.Storage() <= 4096000000000
  {
    CostBounds(c);
    StorageBounds(c);
  }

  /** For a well-formed profile and a non-negative rate the cache never fails, misses at most the
      requests it receives, passes on a well-formed profile of the contents it does not hold (the
      miss profile at its storage) and has a non-negative utilisation. */
  lemma IngressSpec(c: Cache, rps: int, egress: Request)
    requires c.Valid() && WellFormed(egress) && rps >= 0
    ensures c.Ingress(rps, egress).Success?
    ensures 0 <= c.Ingress(rps, egress).value.missRps <= rps
    ensures WellFormed(c.Ingress(rps, egress).value.profile)
    ensures multiset(c.Ingress(rps, egress).value.profile.size) <= multiset(egress.size)
    ensures 0.0 <= c.Ingress(rps, egress).value.utilisation
    ensures Miss(egress, c.Storage() as real) == Success(c.Ingress(rps, egress).value.profile)
    ensures c.Ingress(rps, egress).value.missRps == Missed(egress, rps, c.Storage() as real)
  {
    var storage := c.Storage() as real;
    MissedBounds(egress, rps, storage);
    MissSpec(egress, storage);
    var bps := Rps2Bps(egress, rps as real);
    BitRateNonNegative(egress, rps as real);
    QuotientNonNegative(bps, c.capacity);
    assert c.Ingress(rps, egress) == Success(CacheIngress(Missed(egress, rps, storage), Miss(egress, storage).value, bps / c.capacity));
  }

  /** A cache with more storage misses no more requests. */
  lemma MissRpsMonotone(c1: Cache, c2: Cache, rps: int, egress: Request)
    requires c1.Valid() && c2.Valid() && WellFormed(egress) && rps >= 0
    requires c1.Storage() <= c2.Storage()
    ensures c1.Ingress(rps, egress).Success? && c2.Ingress(rps, egress).Success?
    ensures c2.Ingress(rps, egress).value.missRps <= c1.Ingress(rps, egress).value.missRps
  {
    MissSpec(egress, c1.Storage() as real);
    MissSpec(egress, c2.Storage() as real);
    MissedMonotone(egress, rps, c1.Storage() as real, c2.Storage() as real);
  }
}
