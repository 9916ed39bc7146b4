# cdncalc core in Dafny

A model of the dimensioning arithmetic of the `cdn` package of cdncalc. The package describes a
content delivery network in three tiers. Edge caches are grouped into points of presence (PoPs),
and a cluster of master caches sits behind all PoPs. A request profile (`Request`) says how
popular each title of the catalog is and how large it is. Each tier holds the most popular titles
that fit its storage. It passes the requests for everything else, and the profile of what it does
not hold, to the next tier.

Modules (one file each):

- `Wrappers` (wrappers.dfy): `Option` and `Result`. Python exceptions become `Failure` values.
- `Numeric` (numeric.dfy): Python's `int()` on a float (truncation toward zero), sums, prefix
  sums (`numpy.cumsum`), normalisation by a total, dot products, and the real-arithmetic facts
  the tiers need.
- `Ranking` (ranking.dfy): pairs of (size, probability) and the ranking by decreasing
  probability that `argsort(...)[::-1]` performs.
- `Search` (search.dfy): the nearest-volume index that `numpy.argmin(|volume - v|)` computes,
  specified as the first index of minimal distance. A binary-search method is proved equal to it.
- `Strides` (strides.dfy): the stride shards `x[k::nodes]` of consistent hashing and multiset
  bookkeeping over them.
- `Profiles` (request.dfy): `Request` as a datatype of ranked sizes and normalised
  probabilities, with construction, `pmf`, `cdf`, `hit`, `miss`, `consistenthashing`,
  `rps2bps`, `bps2rps`, `contentbase` and `meanrequestsize`.
- `Caches` (cache.dfy): the `Cache` class (a mutable module count behind a bounds check),
  `storage`, `cost`, `ingress`, and the Dell R750 constants.
- `PoPs` (pop.dfy): the `PoP` class, its setters, `storage1ec`, the two-stage `ingress`, and
  `cost`.
- `Systems` (system.dfy): the `System` class, its own and its delegating setters, `cost`, and the
  eight-valued `ingress`. Its request count is a real: the annotation at cdn/system.py:80 says
  `int`, but cdn/__main__.py passes a float, and `int(numrequests / numpops)` truncates the share
  of each PoP toward zero.

Probabilities, rates and prices are exact `real`s. Sizes, storage and request counts are `int`s.
Every `int(...)` of the source is `Numeric.Trunc`. A setter whose assertion would fail returns
`false` and leaves the state as it was. Caches are objects shared by reference: the edge cache of
a PoP may be the very object used as master cache, and the system's setters state what they leave
unchanged only when the two are distinct.

## Model

| member | source | states |
|---|---|---|
| Numeric.Trunc | cdn/cache.py:57 | `int()` of a float truncates toward zero: the result is within one below a non-negative argument and within one above a negative one |
| Numeric.CumsumNonDecreasing | cdn/request.py:30 | the cumulative pmf never decreases when the probabilities are non-negative |
| Numeric.NormaliseSumsToOne | cdn/request.py:29 | probabilities divided by their non-zero total sum to one |
| Ranking.Rank | cdn/request.py:26 | the catalog in decreasing order of probability is a permutation of the input |
| Ranking.RankKeepsColumns | cdn/request.py:26-32 | ranking keeps the multisets of sizes and probabilities and both totals |
| Search.Nearest | cdn/request.py:59 | the index of the volume nearest the budget, the first one on ties, as `argmin` picks it |
| Search.NearestIndex | cdn/request.py:59 | a binary search over the increasing volumes returns the same index as the argmin |
| Search.NearestMonotone | cdn/request.py:59 | a larger budget never gives an earlier nearest index |
| Search.NearestBelowFirst | cdn/request.py:59 | a budget at most the first volume gives index 0 |
| Search.NearestBeyondLast | cdn/request.py:59 | a budget at least the last volume gives the last index |
| Strides.ShardsCover | cdn/request.py:84-85 | the shards of all nodes together hold every item exactly `replication` times |
| Profiles.Make | cdn/request.py:12-34 | construction fails exactly when the arrays differ in length (`ShapeMismatch`) or a non-empty catalog has a non-positive size total (`NonPositiveContentBase`), and keeps the length otherwise |
| Profiles.RankAndNormalise | cdn/request.py:26-32 | ranking and normalising keeps the length |
| Profiles.RankAndNormalisePairs | cdn/request.py:26-32 | the stored (size, pmf) pairs are the input pairs, probabilities divided by their total, under one permutation; the sizes and their total are kept |
| Profiles.RankAndNormaliseNormalised | cdn/request.py:26-29 | the stored pmf is non-increasing for a positive total and sums to one for a non-zero total |
| Profiles.MakeSpec | cdn/request.py:26-34 | after construction the pairs are a permutation of the input pairs, `contentbase` is the input size total (positive for a non-empty catalog), and the pmf is non-increasing and sums to one |
| Profiles.MakeWellFormed | cdn/request.py:12-34 | positive sizes and probabilities always construct a profile with positive, ranked probabilities summing to one |
| Profiles.Volume | cdn/request.py:33 | entry i of the cumulative volume is the total size of ranks 0 to i; `Profiles.VolumeIncreasing` shows it strictly increases on a well-formed profile |
| Profiles.VolumeIncreasing | cdn/request.py:33 | with positive sizes the cumulative volume is strictly increasing |
| Profiles.NearestRank | cdn/request.py:59 | the rank whose cumulative volume is nearest the budget, the first one on ties |
| Profiles.Pmf | cdn/request.py:59-60 | fails (`EmptyArgmin`) exactly on an empty profile, and is otherwise the probability of the nearest rank |
| Profiles.PmfBelowCdf | cdn/request.py:59-66 | the probability of the nearest rank is positive and at most the cdf there |
| Profiles.Cdf | cdn/request.py:62-66 | one for an empty profile, otherwise the probability mass up to and including the nearest rank |
| Profiles.CdfBounds | cdn/request.py:62-66 | the cdf lies between 0 and 1 |
| Profiles.CdfMonotone | cdn/request.py:62-66 | the cdf never decreases as the budget grows |
| Profiles.CdfFull | cdn/request.py:62-66 | a budget of at least `contentbase` gives cdf one |
| Profiles.CdfBelowFirst | cdn/request.py:62-66 | a budget at most the first size gives the first probability, not zero |
| Profiles.CdfComplement | cdn/request.py:62-78 | the cdf and the mass beyond the nearest rank add up to one |
| Profiles.Slice | cdn/request.py:78 | a renormalised slice of the ranked arrays has the slice's length and can only fail on a non-positive size total |
| Profiles.SliceSpec | cdn/request.py:78 | a slice of a well-formed profile is well-formed and holds exactly the sliced pairs, sizes and size total |
| Profiles.Hit | cdn/request.py:68-71 | fails (`EmptyArgmin`) exactly on an empty profile |
| Profiles.Miss | cdn/request.py:73-78 | the empty profile misses into the empty profile; otherwise the result is strictly shorter |
| Profiles.MissSpec | cdn/request.py:73-78 | `miss` of a well-formed profile succeeds with a well-formed profile of a sub-multiset of the sizes |
| Profiles.HitMissSplit | cdn/request.py:68-78 | `hit` and `miss` both succeed; together they hold every item but the one at the nearest rank: n − 1 items, the same multiset of sizes and the same size total once that item is added |
| Profiles.HitMass | cdn/request.py:68-71 | the mass `hit` keeps falls short of the cdf by the nearest rank's probability, so it is strictly smaller |
| Profiles.HitEmptyAtFirst | cdn/request.py:68-71 | a budget at most the first size yields an empty `hit` while the cdf counts the first title |
| Profiles.HitExcludesNearest | cdn/request.py:68-71 | for sizes [100, 50, 50] with probabilities [0.5, 0.3, 0.2] and budget 100, the cdf is 0.5 but `hit` is empty |
| Profiles.HitInclusive | cdn/request.py:68-71 | the corrected `hit` fails exactly on an empty profile |
| Profiles.HitInclusiveSplit | cdn/request.py:68-78 | the corrected `hit` and `miss` partition the catalog: counts, size multisets and `contentbase` add up, and the corrected `hit` holds the nearest rank |
| Profiles.BuildShards | cdn/request.py:84-85 | the list of shards succeeds exactly when every shard does, with one entry per node, in order |
| Profiles.ConsistentHashing | cdn/request.py:80-85 | fails (`ReplicationNotBelowNodes`) when replication is not below nodes, fails (`NothingToConcatenate`) for positive nodes and non-positive replication, gives no shard for non-positive nodes, and otherwise gives the `nodes` shards |
| Profiles.ShardWellFormed | cdn/request.py:84-85 | each shard of a well-formed profile is well-formed and holds the sizes of its `replication` strides, each size paired with its probability divided by its stride's sum and then by the sum over the shard |
| Profiles.ConsistentHashingWellFormed | cdn/request.py:80-85 | for 0 < replication < nodes, exactly `nodes` well-formed shards, shard n holding the strides starting at `(n + k) mod nodes` for k < replication, with their probabilities normalised per stride and then over the shard |
| Profiles.ConsistentHashingSizes | cdn/request.py:84-85 | the sizes of shard n are those of its strides |
| Profiles.ConsistentHashingCover | cdn/request.py:80-85 | all shards together hold every size of the catalog exactly `replication` times |
| Profiles.RateRoundTrip | cdn/request.py:87-101 | `bps2rps(rps2bps(x)) == x` whenever the mean request size is non-zero |
| Profiles.Rps2Bps | cdn/request.py:87-93 | no contract of its own: `Profiles.RateRoundTrip` shows `Bps2Rps` undoes it whenever the mean request size is not zero, and `Profiles.BitRateNonNegative` that it keeps a non-negative rate non-negative |
| Profiles.Bps2Rps | cdn/request.py:95-101 | no contract of its own: undefined (`None`) exactly for a zero mean request size, where Python divides by zero; `Profiles.RateRoundTrip` shows it inverts `Rps2Bps` |
| Profiles.ContentBase | cdn/request.py:104-105 | the total size of the catalog is zero when it is empty and otherwise the last cumulative volume; `Profiles.MakeSpec` shows it is the total of the sizes given to the constructor and positive for a non-empty profile |
| Profiles.MeanRequestSize | cdn/request.py:107-109 | no contract of its own: `Profiles.MeanRequestSizeBounds` and `Profiles.MeanRequestSizeNonNegative` bound the probability-weighted mean size |
| Profiles.MeanRequestSizeBounds | cdn/request.py:107-109 | the mean request size of a non-empty well-formed profile is positive and at most its largest size |
| Profiles.MeanRequestSizeNonNegative | cdn/request.py:107-109 | the mean request size is never negative |
| Profiles.BitRateNonNegative | cdn/request.py:87-93 | a non-negative request rate gives a non-negative bit rate |
| Profiles.MissedBounds | cdn/cache.py:57 | the truncated miss count lies between 0 and the request rate |
| Profiles.MissedMonotone | cdn/cache.py:57 | more storage never misses more requests |
| Profiles.Missed | cdn/cache.py:57 | no contract of its own: `int(rps * (1 - cdf(v)))` as a residual share; `Profiles.MissedBounds` and `Profiles.MissedMonotone` state its bounds and monotonicity, and the PoP uses it at cdn/pop.py:68 and :71 |
| Caches.Cache.constructor | cdn/cache.py:6-12 | a new cache keeps the given parameters and starts at the minimum of one module |
| Caches.Cache.DellR750 | cdn/cache.py:61-71 | the Dell R750: 160e9 bit/s, modules of 256e9 bytes at 7168, at most 16, base price 10000 |
| Caches.Cache.SetNumModules | cdn/cache.py:34-37 | a module count is accepted exactly when between 1 and `maxmodules` and then stored; a rejected one changes nothing |
| Caches.Cache.Storage | cdn/cache.py:40-41 | storage holds at least one module |
| Caches.Cache.Cost | cdn/cache.py:44-45 | the price is at least the base price plus one module |
| Caches.Cache.Ingress | cdn/cache.py:47-59 | the residual profile is shaped, and the only failure is the construction of a slice with a non-positive size total |
| Caches.StorageBounds | cdn/cache.py:40-41 | storage lies between one module and a full box |
| Caches.CostBounds | cdn/cache.py:44-45 | the price lies between one module and a full box |
| Caches.CostGrowsWithModules | cdn/cache.py:44-45 | at equal prices more modules never cost less |
| Caches.DellR750Range | cdn/cache.py:61-71 | a Dell R750 costs between 17168 and 124688 and stores between 256e9 and 4096e9 bytes |
| Caches.IngressSpec | cdn/cache.py:47-59 | for a well-formed profile a cache never fails, passes on exactly `Miss(egress, storage)` and misses `Missed(egress, rps, storage)`; it misses between 0 and all requests, passes on a well-formed profile of a sub-multiset of the sizes, and has a non-negative utilisation |
| Caches.MissRpsMonotone | cdn/cache.py:57 | a cache with more storage misses no more requests |
| PoPs.PoP.constructor | cdn/pop.py:6-10 | a new PoP has one cache, dedicated ratio 0.1 and replication 1 |
| PoPs.PoP.SetReplication | cdn/pop.py:16-20 | replication is accepted exactly when positive; nothing else changes |
| PoPs.PoP.SetNumCache | cdn/pop.py:26-29 | the number of caches is accepted exactly when positive; nothing else changes |
| PoPs.PoP.SetNumModules | cdn/pop.py:43-45 | delegates to the cache and inherits its bounds |
| PoPs.PoP.SetDedicatedRatio | cdn/pop.py:55-58 | the dedicated ratio is accepted exactly when between 0 and 1; nothing else changes |
| PoPs.PoP.Ingress | cdn/pop.py:60-80 | the profile passed upstream is shaped, and the failures are a slice with a non-positive size total or the unguarded division by zero of the hit ratio |
| PoPs.PoP.Storage1ec | cdn/pop.py:51-53 | no contract of its own: `PoPs.StorageSplit` shows the truncated dedicated part lies between 0 and the cache's storage |
| PoPs.PoP.SharedBudget | cdn/pop.py:71-72 | no contract of its own: `PoPs.StorageSplit` shows it is non-negative and that, times the replication, it is the storage left on all caches |
| PoPs.PoP.Cost | cdn/pop.py:82-84 | no contract of its own: `PoPs.CostGrowsWithCaches` shows a PoP costs at least one cache and more caches never cost less |
| PoPs.Utilisation | cdn/pop.py:75 | no contract of its own: `PoPs.UtilisationNonNegative` shows it is non-negative for non-negative rates |
| PoPs.TwoStageHitRatio | cdn/pop.py:78 | no contract of its own: `PoPs.TwoStageRatio` shows it lies between 0 and 1 and is the share of requests either stage serves |
| PoPs.IngressStages | cdn/pop.py:67-72 | a successful PoP passes on what its shared stage misses of what its dedicated stage misses, with the miss count of that chain |
| PoPs.StorageSplit | cdn/pop.py:51-53 | `storage1ec` lies between 0 and the storage, and the shared budget is non-negative and is what is left on all caches over the replication |
| PoPs.TwoStageRatio | cdn/pop.py:78 | the hit ratio lies between 0 and 1 and equals the hits of both stages over the requests reaching both |
| PoPs.UtilisationNonNegative | cdn/pop.py:75 | the edge utilisation is non-negative for non-negative rates |
| PoPs.IngressSpec | cdn/pop.py:60-80 | for a well-formed profile the PoP fails exactly when no request arrives (the division by zero); otherwise 0 ≤ rps2 ≤ rps1 ≤ rps, the hit ratio lies between 0 and 1, and the profile passed on is well-formed, a sub-multiset of the sizes, and exactly what `Miss` at the shared budget leaves of what `Miss` at the dedicated storage leaves |
| PoPs.CostGrowsWithCaches | cdn/pop.py:82-84 | a PoP costs at least one cache, and more caches never cost less |
| Systems.System.constructor | cdn/system.py:8-13 | a new system builds a fresh PoP around the edge cache and starts with one master cache |
| Systems.System.SetNumMc | cdn/system.py:19-22 | the number of master caches is accepted exactly when positive |
| Systems.System.SetNumEcPop | cdn/system.py:28-30 | delegates to the PoP's cache count; the other PoP settings are kept |
| Systems.System.SetReplication | cdn/system.py:36-38 | delegates to the PoP's replication; the other PoP settings are kept |
| Systems.System.SetNumModulesEc | cdn/system.py:44-46 | delegates to the edge cache; a distinct master cache keeps its modules |
| Systems.System.SetNumModulesMc | cdn/system.py:52-54 | delegates to the master cache; a distinct edge cache keeps its modules |
| Systems.System.SetStorage1ec | cdn/system.py:64-66 | delegates to the PoP's dedicated ratio; the other PoP settings are kept |
| Systems.System.Ingress | cdn/system.py:80-97 | on a real request rate, truncated per PoP: no PoPs is a failure (reported as `DivisionByZero`); the profiles passed on are shaped |
| Systems.PerPopShare | cdn/system.py:88 | for a non-negative request rate a PoP gets the largest whole number q with q·numpops ≤ numrequests < (q + 1)·numpops, and none exactly when there are fewer requests than PoPs |
| Systems.PerPopQuotient | cdn/system.py:88 | for a whole number of requests a PoP's share is the integer quotient |
| Systems.PerPop | cdn/system.py:88 | no contract of its own: `Systems.PerPopShare` shows it is the largest whole share of the requests per PoP |
| Systems.MasterHitRatioScaled | cdn/system.py:94 | the reported master hit ratio falls short of one by `numpops` times what the cluster's own hit ratio does |
| Systems.MasterHitRatioBounds | cdn/system.py:94 | the cluster's own hit ratio lies between 0 and 1, while the reported one only lies between `1 - numpops` and 1 |
| Systems.MasterHitRatioNegative | cdn/system.py:91-94 | three PoPs passing on 10 requests each for two equally popular one-byte titles to one byte of master storage: the cluster serves half, yet the reported hit ratio is −0.5 |
| Systems.MasterUtilisationNonNegative | cdn/system.py:93 | the master utilisation is non-negative for non-negative rates |
| Systems.MasterUtilisation | cdn/system.py:93 | no contract of its own: `Systems.MasterUtilisationNonNegative` shows it is non-negative for non-negative rates |
| Systems.MasterHitRatio | cdn/system.py:94 | no contract of its own: undefined exactly when the PoP passes nothing on; `Systems.MasterHitRatioScaled`, `Systems.MasterHitRatioBounds` and `Systems.MasterHitRatioNegative` relate it to the cluster's own ratio and show it can be negative |
| Systems.MasterStageSpec | cdn/system.py:91-94 | the cluster misses between 0 and all requests reaching it, passes on a well-formed part of the profile, and its reported hit ratio is undefined exactly when nothing reaches it |
| Systems.IngressSpec | cdn/system.py:80-97 | with positive PoPs the system fails exactly when a PoP gets no request; otherwise the first four values are the PoP's result for its whole share of the requests, at most that share, rps3 ≤ rps2·numpops, the profiles are well-formed and nested, utilisations are non-negative, and the master hit ratio is undefined exactly when rps2 = 0 and otherwise at least `1 - numpops` |
| Systems.CostGrowsWithEdgeCaches | cdn/system.py:76-78 | with a non-negative edge cache price, more edge caches per PoP never lower the system's cost |
| Systems.CostGrowsWithMasters | cdn/system.py:76-78 | more master caches never make the system cheaper |
| Systems.System.Cost | cdn/system.py:76-78 | no contract of its own: `Systems.CostGrowsWithEdgeCaches` and `Systems.CostGrowsWithMasters` show it grows with the edge caches per PoP and with the master caches |

## Findings

| source | as written | input that shows it | evidently intended | confidence | as-written member | corrected member |
|---|---|---|---|---|---|---|
| cdn/request.py:68-71 | `hit` keeps the ranks before the nearest index, although `cdf` and `miss` treat that rank as held, so the item at the nearest index is in neither `hit` nor `miss` | sizes [100, 50, 50], probabilities [0.5, 0.3, 0.2], volume 100: `cdf` is 0.5 but `hit` is empty | `hit` keeps the ranks up to and including the nearest index, so that `hit` and `miss` partition the catalog | medium, not executed | Profiles.HitExcludesNearest | Profiles.HitInclusiveSplit |
| cdn/system.py:94 | `chr_mc = 1 - rps3/rps2` divides the misses of the whole master cluster (`rps3`, over all PoPs) by the requests of a single PoP (`rps2`) | 3 PoPs, rps2 = 10, master profile of two one-byte titles at 0.5 each, master storage 1 byte: rps3 = 15 and chr_mc = −0.5 | divide by the requests reaching the cluster, `rps2 * numpops`, which keeps the ratio between 0 and 1 (0.5 here) | medium, not executed | Systems.MasterHitRatioNegative | Systems.MasterHitRatioBounds |

`Systems.System.Ingress` computes the master hit ratio as the code does. `Systems.ClusterHitRatio` is
the corrected quantity, and `Systems.MasterHitRatioScaled` relates the two. `Profiles.Hit` stays
as written. `Profiles.HitInclusive` is the corrected slice.

## Left out

- Presentation and I/O: `describe`, `plot`, `save` and `plotstats` of cdn/request.py (lines 111-156), the command line of cdn/__main__.py, the profile generators of cdn/livetv.py and logs/zipf.py. A profile is simply an input here.
- `System.isvalid` (cdn/system.py:73-74) reads a PoP attribute that does not exist, so it always raises. It is not modelled.
- Floating point: probabilities, rates and prices are exact reals. Rounding, NaN and infinity are not modelled.
- Numeric.Normalise: a zero total leaves the values as they are. numpy would divide 0 by 0 into NaN.
- Ranking.Rank: an insertion sort that places an item before the first one of smaller or equal probability, so equal probabilities keep their input order. numpy's unstable `argsort` may order equal probabilities differently. Contracts state only that the result is a permutation with non-increasing probabilities.
- Profiles.Bps2Rps returns `None` for a zero mean request size. numpy divides into infinity or NaN with a warning.
- Caches.Cache.constructor requires a positive capacity. With capacity 0, `ingress` would give infinity or NaN rather than a number.
- The sum-to-one check on the probabilities is commented out in the constructor (cdn/request.py:21-22), so it is not modelled. The test at cdn/test_request.py:21-22 still expects it.
- Python's `isinstance(val, int)` checks in the setters are implied by the Dafny types. A failing setter assertion is a `false` result with the state unchanged, not an exception.
- The read-only properties (`capacity`, `modulesize`, `maxmodules`, `minmodules`, `nummodules`, `replication`, `numcache`, `storage`, `storageec`, `storagemc`, `nummc`, `numecpop`) are the fields themselves or `Storage()`. They carry no separate member.
- Systems.System.Ingress reports no PoPs as `DivisionByZero`. With the float rate the command line passes, Python's `numrequests / 0` is infinite or NaN and `int()` then raises `OverflowError` or `ValueError`. Only the failure is modelled, not the kind of exception.
- Systems.System.Ingress is specified for a positive number of PoPs (`Systems.IngressSpec`). For a negative count the model computes what the code computes, but no property is proved about it.
- Caches.Cache.Valid accepts one module even when `maxmodules` is below one, as the constructor sets it without a check.
