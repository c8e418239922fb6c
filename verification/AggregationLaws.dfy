/**
 What aggregation and parameter merging answer, in terms of the clusters' own fields and of the
 parameters as they were listed (internal/service/estimation.go).
 */
module AggregationLaws {
  import opened Common
  import opened Aggregation

  // ----- disk tiers

  /** Only older snapshots, without complexity tiers, are read by disk size. */
  predicate UsesSizeTiers(c: VMs) {
    c.diskComplexityTier.None? || c.diskComplexityTier.value == map[]
  }

  predicate HasSizeTier(c: VMs, tier: string) {
    c.diskSizeTier.Some? && tier in c.diskSizeTier.value
  }

  predicate HasComplexityTier(c: VMs, tier: string) {
    c.diskComplexityTier.Some? && tier in c.diskComplexityTier.value
  }

  predicate HasBucket(c: VMs, bucket: string) {
    c.complexityDistribution.Some? && bucket in c.complexityDistribution.value
  }

  /** What a cluster adds to a disk tier or to a bucket of the complexity distribution; None where it
      has no such tier. */
  function Contribution(c: VMs, kind: TierKind, tier: string): Option<TierSummary> {
    match kind
    case DiskTiers =>
      if HasComplexityTier(c, tier) then Some(c.diskComplexityTier.value[tier])
      else if UsesSizeTiers(c) && HasSizeTier(c, tier) then Some(c.diskSizeTier.value[tier])
      else None
    case ComplexityTiers =>
      if HasBucket(c, tier) then Some(c.complexityDistribution.value[tier]) else None
  }

  /** The same tier of the aggregate. */
  function Aggregated(r: VMs, kind: TierKind, tier: string): Option<TierSummary> {
    match kind
    case DiskTiers => if HasComplexityTier(r, tier) then Some(r.diskComplexityTier.value[tier]) else None
    case ComplexityTiers => if HasBucket(r, tier) then Some(r.complexityDistribution.value[tier]) else None
  }

  function ContributedVMs(clusters: map<string, VMs>, kind: TierKind, tier: string): string -> real {
    id => if id in clusters && Contribution(clusters[id], kind, tier).Some?
          then Contribution(clusters[id], kind, tier).value.vmCount as real else 0.0
  }

  function ContributedTB(clusters: map<string, VMs>, kind: TierKind, tier: string): string -> real {
    id => if id in clusters && Contribution(clusters[id], kind, tier).Some?
          then Contribution(clusters[id], kind, tier).value.totalSizeTB else 0.0
  }

  lemma {:induction false} SumSame<K>(keys: set<K>, f: K -> real, g: K -> real)
    requires forall k :: k in keys ==> f(k) == g(k)
    ensures Sum(keys, f) == Sum(keys, g)
  {
    if keys != {} {
      var k :| k in keys;
      SumTake(keys, f, k);
      SumTake(keys, g, k);
      SumSame(keys - {k}, f, g);
    }
  }

  lemma SourceExactly(c: VMs, kind: TierKind, tier: string)
    ensures tier in TiersOf(SourceTiers(c, kind)) <==> Contribution(c, kind, tier).Some?
    ensures Contribution(c, kind, tier).Some? ==>
      TiersOf(SourceTiers(c, kind))[tier] == Contribution(c, kind, tier).value
  {
    if c.diskComplexityTier.Some? {
      assert |c.diskComplexityTier.value| == 0 <==> c.diskComplexityTier.value == map[];
    }
  }

  ghost predicate Contributes(clusters: map<string, VMs>, ids: set<string>, id: string, kind: TierKind, tier: string) {
    id in ids && id in clusters && Contribution(clusters[id], kind, tier).Some?
  }

  /** A tier of the result is the sum of what the clusters contribute to it, and is there only if one
      contributes. */
  ghost predicate IsTierSummed(clusters: map<string, VMs>, ids: set<string>, r: VMs, kind: TierKind, tier: string) {
    var tiers := Aggregated(r, kind, tier);
    && (tiers.Some? <==> exists id :: Contributes(clusters, ids, id, kind, tier))
    && (tiers.Some? ==>
          && tiers.value.vmCount as real == Sum(ids, ContributedVMs(clusters, kind, tier))
          && tiers.value.totalSizeTB == Sum(ids, ContributedTB(clusters, kind, tier)))
  }

  lemma TiersSummed(clusters: map<string, VMs>, ids: set<string>, r: VMs, kind: TierKind, tier: string)
    requires IsAggregate(clusters, ids, r)
    ensures IsTierSummed(clusters, ids, r, kind, tier)
  {
    assert TierAggregates(clusters, ids, if kind == DiskTiers then r.diskComplexityTier else r.complexityDistribution,
                          kind, tier);
    forall id | id in clusters
      ensures HasTier(clusters, ids, id, kind, tier) <==> Contributes(clusters, ids, id, kind, tier)
      ensures ContributedVMs(clusters, kind, tier)(id) == TierVMsIn(clusters, kind, tier)(id)
      ensures ContributedTB(clusters, kind, tier)(id) == TierTBIn(clusters, kind, tier)(id)
    {
      SourceExactly(clusters[id], kind, tier);
    }
    SumSame(ids, ContributedVMs(clusters, kind, tier), TierVMsIn(clusters, kind, tier));
    SumSame(ids, ContributedTB(clusters, kind, tier), TierTBIn(clusters, kind, tier));
    hide IsAggregate;
  }

  function Unique(ids: seq<string>): set<string> {
    set id | id in ids
  }

  /** The aggregate that complexity estimation works on. */
  method GetAggregatedInventoryData(inv: Inventory, ids: seq<string>) returns (r: Result<VMs, EstimationError>)
    ensures |ids| > 1 && r.Ok? ==> forall kind, tier :: IsTierSummed(inv.clusters, Unique(ids), r.value, kind, tier)
    ensures |ids| == 1 && ids[0] in inv.clusters && ids[0] != "" ==> r == Ok(inv.clusters[ids[0]])
  {
    r := AggregateInventoryData(inv, ids);
    if |ids| > 1 && r.Ok? {
      forall kind, tier
        ensures IsTierSummed(inv.clusters, Unique(ids), r.value, kind, tier)
      {
        TiersSummed(inv.clusters, Unique(ids), r.value, kind, tier);
      }
    }
  }

  /** The same clusters up to size tiers that are not used. */
  ghost predicate DifferInUnusedSizes(a: map<string, VMs>, b: map<string, VMs>) {
    && a.Keys == b.Keys
    && forall id :: id in a ==>
         a[id] == b[id] || (!UsesSizeTiers(a[id]) && b[id] == a[id].(diskSizeTier := b[id].diskSizeTier))
  }

  /** Of clusters with complexity tiers, the size tiers do not matter. */
  lemma SizeTiersIrrelevant(a: map<string, VMs>, b: map<string, VMs>, ids: set<string>, r: VMs, s: VMs)
    requires DifferInUnusedSizes(a, b) && IsAggregate(a, ids, r) && IsAggregate(b, ids, s)
    ensures r.diskComplexityTier == s.diskComplexityTier
  {
    forall tier
      ensures HasComplexityTier(r, tier) <==> HasComplexityTier(s, tier)
      ensures HasComplexityTier(r, tier) ==> r.diskComplexityTier.value[tier] == s.diskComplexityTier.value[tier]
    {
      TiersSummed(a, ids, r, DiskTiers, tier);
      TiersSummed(b, ids, s, DiskTiers, tier);
      assert forall id :: id in a ==> Contribution(a[id], DiskTiers, tier) == Contribution(b[id], DiskTiers, tier);
      assert forall id :: Contributes(a, ids, id, DiskTiers, tier) <==> Contributes(b, ids, id, DiskTiers, tier);
      SumSame(ids, ContributedVMs(a, DiskTiers, tier), ContributedVMs(b, DiskTiers, tier));
      SumSame(ids, ContributedTB(a, DiskTiers, tier), ContributedTB(b, DiskTiers, tier));
    }
    assert forall id :: HasSource(a, ids, id, DiskTiers) <==> HasSource(b, ids, id, DiskTiers);
    if r.diskComplexityTier.Some? {
      var x, y := r.diskComplexityTier.value, s.diskComplexityTier.value;
      assert forall tier :: tier in x <==> HasComplexityTier(r, tier);
      assert forall tier :: tier in y <==> HasComplexityTier(s, tier);
      assert x == y;
    }
  }

  // ----- parameters

  /** The listed param is the last one with its key. */
  ghost predicate IsLastOfKey<V>(layers: seq<seq<Param<V>>>, i: int, j: int) {
    && 0 <= i < |layers| && 0 <= j < |layers[i]|
    && (forall n :: j < n < |layers[i]| ==> layers[i][n].key != layers[i][j].key)
    && (forall m, n :: i < m < |layers| && 0 <= n < |layers[m]| ==> layers[m][n].key != layers[i][j].key)
  }

  lemma {:induction false} LastOfLayer<V>(layer: seq<Param<V>>, j: nat)
    requires j < |layer| && forall n :: j < n < |layer| ==> layer[n].key != layer[j].key
    ensures layer[j].key in LayerMap(layer) && LayerMap(layer)[layer[j].key] == layer[j].value
  {
    if j < |layer| - 1 {
      LastOfLayer(Front(layer), j);
    }
  }

  lemma {:induction false} AbsentFromLayer<V>(layer: seq<Param<V>>, key: string)
    requires forall n :: 0 <= n < |layer| ==> layer[n].key != key
    ensures key !in LayerMap(layer)
  {
    if layer != [] {
      AbsentFromLayer(Front(layer), key);
    }
  }

  /** Of all listed params with one key, the last one of the last layer wins. */
  lemma {:induction false} LastWins<V>(layers: seq<seq<Param<V>>>, i: nat, j: nat)
    requires IsLastOfKey(layers, i, j)
    ensures layers[i][j].key in Layered(layers) && Layered(layers)[layers[i][j].key] == layers[i][j].value
  {
    if i == |layers| - 1 {
      LastOfLayer(layers[i], j);
    } else {
      LastWins(Front(layers), i, j);
      AbsentFromLayer(Last(layers), layers[i][j].key);
    }
  }

  ghost predicate IsListed<V>(layers: seq<seq<Param<V>>>, key: string, i: int, j: int) {
    0 <= i < |layers| && 0 <= j < |layers[i]| && layers[i][j].key == key
  }

  lemma {:induction false} OnlyListedKeys<V>(layers: seq<seq<Param<V>>>, key: string)
    ensures key in Layered(layers) ==> exists i, j :: IsListed(layers, key, i, j)
  {
    if layers != [] {
      OnlyListedKeys(Front(layers), key);
      if i, j :| IsListed(Front(layers), key, i, j) {
        assert IsListed(layers, key, i, j);
      }
      if j :| 0 <= j < |Last(layers)| && Last(layers)[j].key == key {
        assert IsListed(layers, key, |layers| - 1, j);
      } else {
        AbsentFromLayer(Last(layers), key);
      }
    }
  }

  /** Both paths hand the calculators the inventory's VM count and disk size, whatever was set. */
  lemma InventoryReachesCalculators(defaults: seq<Param<Value>>, user: seq<Param<Value>>, diskGB: real, vms: int)
    requires forall p :: p in user ==> IsAllowed(p)
    ensures var cluster := Layered([defaults, ClusterParams(diskGB, vms), user]);
            var bucket := Layered([defaults, user, ClusterParams(diskGB, vms)]);
      && cluster == bucket
      && "vm_count" in cluster && cluster["vm_count"] == Numeric(vms as real)
      && "total_disk_gb" in cluster && cluster["total_disk_gb"] == Numeric(diskGB)
  {
    ValidatedPathsAgree(defaults, user, diskGB, vms);
    var layers := [defaults, user, ClusterParams(diskGB, vms)];
    LastWins(layers, 2, 0);
    LastWins(layers, 2, 1);
  }

  /** The bounds of each user parameter. */
  lemma AllowedExactly(p: Param<Value>)
    requires p.value.Numeric?
    ensures p.key == "transfer_rate_mbps" ==> (IsAllowed(p) <==> p.value.n >= 0.1)
    ensures p.key == "work_hours_per_day" ==> (IsAllowed(p) <==> p.value.n >= 0.5)
    ensures p.key == "troubleshoot_mins_per_vm" ==> (IsAllowed(p) <==> p.value.n >= 1.0)
    ensures p.key == "post_migration_engineers" ==>
      (IsAllowed(p) <==> p.value.n >= 1.0 && p.value.n.Floor as real == p.value.n)
    ensures p.key !in {"transfer_rate_mbps", "work_hours_per_day", "troubleshoot_mins_per_vm", "post_migration_engineers"}
      ==> !IsAllowed(p)
  {
  }
}
