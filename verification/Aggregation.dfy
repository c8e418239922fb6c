/**
 Combining the inventories of several clusters, internal/service/estimation.go. The code walks
 Go maps, whose order is arbitrary; the results are shown to depend on the set of clusters only.
 Sizes in TB are exact reals.
 */
module Aggregation {
  import opened Common
  import opened Strings

  // ----- inventory data

  datatype OsInfo = OsInfo(count: int, supported: bool, tier: Option<string>, upgrade: Option<string>)

  datatype TierSummary = TierSummary(vmCount: int, totalSizeTB: real)

  datatype Breakdown = Breakdown(total: int, migratable: int, withWarnings: int, notMigratable: int) {
    function Plus(b: Breakdown): Breakdown {
      Breakdown(total + b.total, migratable + b.migratable, withWarnings + b.withWarnings,
                notMigratable + b.notMigratable)
    }
  }

  type Tiers = map<string, TierSummary>

  datatype VMs = VMs(total: int, migratable: int, warnings: Option<int>,
                     cpuCores: Breakdown, ramGB: Breakdown, diskGB: Breakdown,
                     osInfo: Option<map<string, OsInfo>>, diskComplexityTier: Option<Tiers>,
                     diskSizeTier: Option<Tiers>, complexityDistribution: Option<Tiers>)
  {
    /** The tiers to aggregate: older snapshots only have the size tiers. */
    function DiskSource(): Option<Tiers> {
      if diskComplexityTier.None? || |diskComplexityTier.value| == 0 then diskSizeTier else diskComplexityTier
    }
  }

  datatype Inventory = Inventory(vcenter: Option<VMs>, clusters: map<string, VMs>)

  datatype EstimationError = NoClusterID | NoVCenterData | NoUsableID | ClusterNotFound(id: string)

  const NO_BREAKDOWN := Breakdown(0, 0, 0, 0)
  const NO_VMS := VMs(0, 0, None, NO_BREAKDOWN, NO_BREAKDOWN, NO_BREAKDOWN, None, None, None, None)

  // ----- sums over sets

  /** The sum of f over a finite set. */
  ghost function Sum<K>(keys: set<K>, f: K -> real): real {
    if keys == {} then 0.0
    else
      var k :| k in keys;
      f(k) + Sum(keys - {k}, f)
  }

  /** The sum does not depend on which element is taken first. */
  lemma {:induction false} SumTake<K>(keys: set<K>, f: K -> real, k: K)
    requires k in keys
    ensures Sum(keys, f) == f(k) + Sum(keys - {k}, f)
  {
    var first :| first in keys && Sum(keys, f) == f(first) + Sum(keys - {first}, f);
    if first != k {
      SumTake(keys - {first}, f, k);
      SumTake(keys - {k}, f, first);
      assert keys - {first} - {k} == keys - {k} - {first};
    }
  }

  lemma SumAdd<K>(keys: set<K>, f: K -> real, k: K)
    requires k !in keys
    ensures Sum(keys + {k}, f) == Sum(keys, f) + f(k)
  {
    SumTake(keys + {k}, f, k);
    assert keys + {k} - {k} == keys;
  }

  // ----- what an aggregate must be

  /** The numbers of an inventory that are added up. */
  datatype Field =
    | Total
    | Migratable
    | Warnings
    | Cpu(part: Part)
    | Ram(part: Part)
    | Disk(part: Part)

  datatype Part = All | ForMigratable | ForWarnings | ForNotMigratable

  function PartOf(b: Breakdown, part: Part): int {
    match part
    case All => b.total
    case ForMigratable => b.migratable
    case ForWarnings => b.withWarnings
    case ForNotMigratable => b.notMigratable
  }

  function Number(v: VMs, field: Field): real {
    (match field
     case Total => v.total
     case Migratable => v.migratable
     case Warnings => if v.warnings.Some? then v.warnings.value else 0
     case Cpu(part) => PartOf(v.cpuCores, part)
     case Ram(part) => PartOf(v.ramGB, part)
     case Disk(part) => PartOf(v.diskGB, part)) as real
  }

  function OsOf(v: VMs): map<string, OsInfo> {
    if v.osInfo.Some? then v.osInfo.value else map[]
  }

  function TiersOf(tiers: Option<Tiers>): Tiers {
    if tiers.Some? then tiers.value else map[]
  }

  function TierVMs(tiers: Option<Tiers>, tier: string): real {
    if tier in TiersOf(tiers) then TiersOf(tiers)[tier].vmCount as real else 0.0
  }

  function TierTB(tiers: Option<Tiers>, tier: string): real {
    if tier in TiersOf(tiers) then TiersOf(tiers)[tier].totalSizeTB else 0.0
  }

  function OsCount(v: VMs, name: string): real {
    if name in OsOf(v) then OsOf(v)[name].count as real else 0.0
  }

  /** A source of tiers: the disk tiers or the complexity distribution. */
  datatype TierKind = DiskTiers | ComplexityTiers

  function SourceTiers(v: VMs, kind: TierKind): Option<Tiers> {
    if kind == DiskTiers then v.DiskSource() else v.complexityDistribution
  }

  /** Each cluster's contribution to a sum. */
  function NumberIn(clusters: map<string, VMs>, field: Field): string -> real {
    id => if id in clusters then Number(clusters[id], field) else 0.0
  }

  function TierVMsIn(clusters: map<string, VMs>, kind: TierKind, tier: string): string -> real {
    id => if id in clusters then TierVMs(SourceTiers(clusters[id], kind), tier) else 0.0
  }

  function TierTBIn(clusters: map<string, VMs>, kind: TierKind, tier: string): string -> real {
    id => if id in clusters then TierTB(SourceTiers(clusters[id], kind), tier) else 0.0
  }

  function OsCountIn(clusters: map<string, VMs>, name: string): string -> real {
    id => if id in clusters then OsCount(clusters[id], name) else 0.0
  }

  ghost predicate NumberAggregates(clusters: map<string, VMs>, ids: set<string>, r: VMs, field: Field) {
    Number(r, field) == Sum(ids, NumberIn(clusters, field))
  }

  ghost predicate WarningsCounted(clusters: map<string, VMs>, ids: set<string>, r: VMs) {
    r.warnings.Some? <==> exists id :: id in ids && id in clusters && clusters[id].warnings.Some?
  }

  ghost predicate HasSource(clusters: map<string, VMs>, ids: set<string>, id: string, kind: TierKind) {
    id in ids && id in clusters && SourceTiers(clusters[id], kind).Some?
  }

  ghost predicate HasTier(clusters: map<string, VMs>, ids: set<string>, id: string, kind: TierKind, tier: string) {
    id in ids && id in clusters && tier in TiersOf(SourceTiers(clusters[id], kind))
  }

  ghost predicate TierAggregates(clusters: map<string, VMs>, ids: set<string>, tiers: Option<Tiers>, kind: TierKind,
                                 tier: string) {
    && (tier in TiersOf(tiers) <==> exists id :: HasTier(clusters, ids, id, kind, tier))
    && TierVMs(tiers, tier) == Sum(ids, TierVMsIn(clusters, kind, tier))
    && TierTB(tiers, tier) == Sum(ids, TierTBIn(clusters, kind, tier))
  }

  ghost predicate TiersAggregate(clusters: map<string, VMs>, ids: set<string>, tiers: Option<Tiers>, kind: TierKind) {
    && (tiers.Some? <==> exists id :: HasSource(clusters, ids, id, kind))
    && (forall tier :: TierAggregates(clusters, ids, tiers, kind, tier))
  }

  ghost predicate Reports(clusters: map<string, VMs>, ids: set<string>, id: string, name: string) {
    id in ids && id in clusters && name in OsOf(clusters[id])
  }

  ghost predicate IsSupported(clusters: map<string, VMs>, ids: set<string>, name: string, supported: bool) {
    supported <==> exists id :: Reports(clusters, ids, id, name) && OsOf(clusters[id])[name].supported
  }

  /** The tier some cluster reports for the OS, and no cluster reports a greater one. */
  ghost predicate IsGreatestTier(clusters: map<string, VMs>, ids: set<string>, name: string, tier: Option<string>) {
    && (tier.Some? ==>
          exists id :: Reports(clusters, ids, id, name) && OsOf(clusters[id])[name].tier == tier)
    && (forall id :: Reports(clusters, ids, id, name) && OsOf(clusters[id])[name].tier.Some? ==>
          tier.Some? && !Less(tier.value, OsOf(clusters[id])[name].tier.value))
  }

  /** Any one of the clusters' recommendations, if there are any. */
  ghost predicate IsSomeUpgrade(clusters: map<string, VMs>, ids: set<string>, name: string, upgrade: Option<string>) {
    && (upgrade.Some? ==>
          exists id :: Reports(clusters, ids, id, name) && OsOf(clusters[id])[name].upgrade == upgrade)
    && (upgrade.None? ==>
          forall id :: Reports(clusters, ids, id, name) ==> OsOf(clusters[id])[name].upgrade.None?)
  }

  ghost predicate OsAggregates(clusters: map<string, VMs>, ids: set<string>, os: map<string, OsInfo>, name: string) {
    && (name in os <==> exists id :: Reports(clusters, ids, id, name))
    && (name in os ==> os[name].count as real == Sum(ids, OsCountIn(clusters, name)))
    && (name !in os ==> Sum(ids, OsCountIn(clusters, name)) == 0.0)
    && var info := if name in os then os[name] else NO_OS;
       && IsSupported(clusters, ids, name, info.supported)
       && IsGreatestTier(clusters, ids, name, info.tier)
       && IsSomeUpgrade(clusters, ids, name, info.upgrade)
  }

  /** What the aggregate of a set of clusters is, without mentioning any order. */
  ghost predicate IsAggregate(clusters: map<string, VMs>, ids: set<string>, r: VMs) {
    && (forall field :: NumberAggregates(clusters, ids, r, field))
    && WarningsCounted(clusters, ids, r)
    && TiersAggregate(clusters, ids, r.diskComplexityTier, DiskTiers)
    && TiersAggregate(clusters, ids, r.complexityDistribution, ComplexityTiers)
    && (forall name :: OsAggregates(clusters, ids, OsOf(r), name))
    && r.diskSizeTier.None?
  }

  // ----- merging one cluster in

  function PlusTier(acc: Tiers, tier: string, summary: TierSummary): TierSummary {
    var existing := if tier in acc then acc[tier] else TierSummary(0, 0.0);
    TierSummary(existing.vmCount + summary.vmCount, existing.totalSizeTB + summary.totalSizeTB)
  }

  function MergedTiers(acc: Tiers, source: Tiers): (r: Tiers)
    ensures r.Keys == acc.Keys + source.Keys
  {
    map tier | tier in acc.Keys + source.Keys ::
      if tier in source then PlusTier(acc, tier, source[tier]) else acc[tier]
  }

  method MergeTiers(acc: Option<Tiers>, source: Option<Tiers>) returns (r: Option<Tiers>)
    ensures r == if source.None? then acc else Some(MergedTiers(TiersOf(acc), source.value))
  {
    if source.None? {
      return acc;
    }
    var merged := if acc.None? then map[] else acc.value;
    var rest := source.value.Keys;
    while rest != {}
      invariant rest <= source.value.Keys
      invariant merged.Keys == TiersOf(acc).Keys + (source.value.Keys - rest)
      invariant forall tier :: tier in merged ==>
        merged[tier] == if tier in source.value && tier !in rest then PlusTier(TiersOf(acc), tier, source.value[tier])
                        else TiersOf(acc)[tier]
      decreases rest
    {
      var tierLabel :| tierLabel in rest;
      var summary := source.value[tierLabel];
      var existing := if tierLabel in merged then merged[tierLabel] else TierSummary(0, 0.0);
      existing := TierSummary(existing.vmCount + summary.vmCount, existing.totalSizeTB + summary.totalSizeTB);
      merged := merged[tierLabel := existing];
      rest := rest - {tierLabel};
    }
    assert merged == MergedTiers(TiersOf(acc), source.value);
    return Some(merged);
  }

  const NO_OS := OsInfo(0, false, None, None)

  function MergedOs(existing: OsInfo, info: OsInfo): OsInfo {
    OsInfo(existing.count + info.count,
           existing.supported || info.supported,
           if info.tier.Some? && (existing.tier.None? || Less(existing.tier.value, info.tier.value)) then info.tier
           else existing.tier,
           if info.upgrade.Some? && existing.upgrade.None? then info.upgrade else existing.upgrade)
  }

  function MergedOsMap(acc: map<string, OsInfo>, source: map<string, OsInfo>): (r: map<string, OsInfo>)
    ensures r.Keys == acc.Keys + source.Keys
  {
    map name | name in acc.Keys + source.Keys ::
      if name in source then MergedOs(if name in acc then acc[name] else NO_OS, source[name]) else acc[name]
  }

  method MergeOsInfo(acc: map<string, OsInfo>, source: Option<map<string, OsInfo>>) returns (r: map<string, OsInfo>)
    ensures r == if source.None? then acc else MergedOsMap(acc, source.value)
  {
    if source.None? {
      return acc;
    }
    r := acc;
    var rest := source.value.Keys;
    while rest != {}
      invariant rest <= source.value.Keys
      invariant r.Keys == acc.Keys + (source.value.Keys - rest)
      invariant forall name :: name in r ==>
        r[name] == if name in source.value && name !in rest
                   then MergedOs(if name in acc then acc[name] else NO_OS, source.value[name])
                   else acc[name]
      decreases rest
    {
      var osName :| osName in rest;
      var info := source.value[osName];
      var existing := if osName in r then r[osName] else NO_OS;
      existing := existing.(count := existing.count + info.count);
      if info.supported {
        existing := existing.(supported := true);
      }
      if info.tier.Some? && (existing.tier.None? || Less(existing.tier.value, info.tier.value)) {
        existing := existing.(tier := info.tier);
      }
      if info.upgrade.Some? && existing.upgrade.None? {
        existing := existing.(upgrade := info.upgrade);
      }
      r := r[osName := existing];
      rest := rest - {osName};
    }
  }

  function PlusWarnings(acc: Option<int>, warnings: Option<int>): Option<int> {
    if warnings.None? then acc else Some((if acc.Some? then acc.value else 0) + warnings.value)
  }

  /** The accumulator after one more cluster; osInfo is kept as a map throughout. */
  function MergedCluster(acc: VMs, c: VMs): VMs {
    VMs(acc.total + c.total, acc.migratable + c.migratable, PlusWarnings(acc.warnings, c.warnings),
        acc.cpuCores.Plus(c.cpuCores), acc.ramGB.Plus(c.ramGB), acc.diskGB.Plus(c.diskGB),
        Some(if c.osInfo.None? then OsOf(acc) else MergedOsMap(OsOf(acc), c.osInfo.value)),
        MergedSource(acc.diskComplexityTier, c.DiskSource()),
        None,
        MergedSource(acc.complexityDistribution, c.complexityDistribution))
  }

  function MergedSource(acc: Option<Tiers>, source: Option<Tiers>): Option<Tiers> {
    if source.None? then acc else Some(MergedTiers(TiersOf(acc), source.value))
  }

  lemma PartPlus(a: Breakdown, b: Breakdown, part: Part)
    ensures PartOf(a.Plus(b), part) == PartOf(a, part) + PartOf(b, part)
  {
  }

  lemma NumberMerged(acc: VMs, c: VMs, field: Field)
    ensures Number(MergedCluster(acc, c), field) == Number(acc, field) + Number(c, field)
  {
    match field {
      case Cpu(part) => PartPlus(acc.cpuCores, c.cpuCores, part);
      case Ram(part) => PartPlus(acc.ramGB, c.ramGB, part);
      case Disk(part) => PartPlus(acc.diskGB, c.diskGB, part);
      case _ =>
    }
    hide PartOf;
    hide MergedSource;
    hide MergedOsMap;
  }

  lemma NumberStep(clusters: map<string, VMs>, done: set<string>, acc: VMs, id: string, field: Field)
    requires NumberAggregates(clusters, done, acc, field) && id in clusters && id !in done
    ensures NumberAggregates(clusters, done + {id}, MergedCluster(acc, clusters[id]), field)
  {
    SumAdd(done, NumberIn(clusters, field), id);
    NumberMerged(acc, clusters[id], field);
    hide MergedCluster;
    hide Number;
  }

  /** Who has tiers, or a tier, once a cluster is added. */
  lemma HasStep(clusters: map<string, VMs>, done: set<string>, id: string, kind: TierKind, tier: string)
    requires id in clusters
    ensures forall k :: HasSource(clusters, done + {id}, k, kind) <==>
      HasSource(clusters, done, k, kind) || (k == id && SourceTiers(clusters[id], kind).Some?)
    ensures forall k :: HasTier(clusters, done + {id}, k, kind, tier) <==>
      HasTier(clusters, done, k, kind, tier) || (k == id && tier in TiersOf(SourceTiers(clusters[id], kind)))
  {
  }

  lemma TierStep(clusters: map<string, VMs>, done: set<string>, acc: Option<Tiers>, id: string, kind: TierKind,
                 tier: string)
    requires TierAggregates(clusters, done, acc, kind, tier) && id in clusters && id !in done
    ensures TierAggregates(clusters, done + {id}, MergedSource(acc, SourceTiers(clusters[id], kind)), kind, tier)
  {
    hide SourceTiers;
    var source := SourceTiers(clusters[id], kind);
    var r := MergedSource(acc, source);
    SumAdd(done, TierVMsIn(clusters, kind, tier), id);
    SumAdd(done, TierTBIn(clusters, kind, tier), id);
    assert TierVMs(r, tier) == TierVMs(acc, tier) + TierVMs(source, tier);
    assert TierTB(r, tier) == TierTB(acc, tier) + TierTB(source, tier);
    HasStep(clusters, done, id, kind, tier);
    if tier in TiersOf(source) {
      assert HasTier(clusters, done + {id}, id, kind, tier);
    } else if k :| HasTier(clusters, done, k, kind, tier) {
      assert HasTier(clusters, done + {id}, k, kind, tier);
    }
    assert tier in TiersOf(r) <==> tier in TiersOf(acc) || tier in TiersOf(source);
  }

  lemma TiersStep(clusters: map<string, VMs>, done: set<string>, acc: Option<Tiers>, id: string, kind: TierKind)
    requires TiersAggregate(clusters, done, acc, kind) && id in clusters && id !in done
    ensures TiersAggregate(clusters, done + {id}, MergedSource(acc, SourceTiers(clusters[id], kind)), kind)
  {
    var r := MergedSource(acc, SourceTiers(clusters[id], kind));
    forall tier
      ensures TierAggregates(clusters, done + {id}, r, kind, tier)
    {
      TierStep(clusters, done, acc, id, kind, tier);
    }
    HasStep(clusters, done, id, kind, "");
    if SourceTiers(clusters[id], kind).Some? {
      assert HasSource(clusters, done + {id}, id, kind);
    } else if k :| HasSource(clusters, done, k, kind) {
      assert HasSource(clusters, done + {id}, k, kind);
    }
  }

  /** Who reports an OS once a cluster is added. */
  lemma ReportsStep(clusters: map<string, VMs>, done: set<string>, id: string, name: string)
    requires id in clusters
    ensures forall k ::
      Reports(clusters, done + {id}, k, name) <==> Reports(clusters, done, k, name) || (k == id && name in OsOf(clusters[id]))
  {
  }

  lemma GreatestTierStep(clusters: map<string, VMs>, done: set<string>, id: string, name: string, existing: OsInfo)
    requires id in clusters && name in OsOf(clusters[id])
    requires IsGreatestTier(clusters, done, name, existing.tier)
    ensures IsGreatestTier(clusters, done + {id}, name, MergedOs(existing, OsOf(clusters[id])[name]).tier)
  {
    hide OsOf;
    var info := OsOf(clusters[id])[name];
    var r := MergedOs(existing, info).tier;
    ReportsStep(clusters, done, id, name);
    assert Reports(clusters, done + {id}, id, name);
    forall k | Reports(clusters, done + {id}, k, name) && OsOf(clusters[k])[name].tier.Some?
      ensures r.Some? && !Less(r.value, OsOf(clusters[k])[name].tier.value)
    {
      var theirs := OsOf(clusters[k])[name].tier.value;
      LessTotal(r.value, theirs);
      if existing.tier.Some? && Reports(clusters, done, k, name) {
        assert !Less(existing.tier.value, theirs);
        if r == info.tier && r != existing.tier {
          LessTotal(existing.tier.value, theirs);
          if Less(r.value, theirs) {
            LessTransitive(existing.tier.value, r.value, theirs);
          }
        }
      }
    }
    if r.Some? && r != info.tier {
      var k :| Reports(clusters, done, k, name) && OsOf(clusters[k])[name].tier == existing.tier;
      assert Reports(clusters, done + {id}, k, name);
    }
  }

  lemma UpgradeStep(clusters: map<string, VMs>, done: set<string>, id: string, name: string, existing: OsInfo)
    requires id in clusters && name in OsOf(clusters[id])
    requires IsSomeUpgrade(clusters, done, name, existing.upgrade)
    requires IsSupported(clusters, done, name, existing.supported)
    ensures IsSomeUpgrade(clusters, done + {id}, name, MergedOs(existing, OsOf(clusters[id])[name]).upgrade)
    ensures IsSupported(clusters, done + {id}, name, MergedOs(existing, OsOf(clusters[id])[name]).supported)
  {
    hide OsOf;
    ReportsStep(clusters, done, id, name);
    assert Reports(clusters, done + {id}, id, name);
    if k :| Reports(clusters, done, k, name) && OsOf(clusters[k])[name].upgrade == existing.upgrade {
      assert Reports(clusters, done + {id}, k, name);
    }
    if k :| Reports(clusters, done, k, name) && OsOf(clusters[k])[name].supported {
      assert Reports(clusters, done + {id}, k, name);
    }
  }

  lemma OsStep(clusters: map<string, VMs>, done: set<string>, acc: map<string, OsInfo>, id: string, name: string)
    requires OsAggregates(clusters, done, acc, name) && id in clusters && id !in done
    ensures OsAggregates(clusters, done + {id}, MergedOsMap(acc, OsOf(clusters[id])), name)
  {
    var source := OsOf(clusters[id]);
    var existing := if name in acc then acc[name] else NO_OS;
    SumAdd(done, OsCountIn(clusters, name), id);
    ReportsStep(clusters, done, id, name);
    if name in source {
      GreatestTierStep(clusters, done, id, name, existing);
      UpgradeStep(clusters, done, id, name, existing);
      assert Reports(clusters, done + {id}, id, name);
    }
  }

  lemma MergedNothing(acc: map<string, OsInfo>)
    ensures MergedOsMap(acc, map[]) == acc
  {
  }

  /** One more cluster, whichever it is. */
  lemma AggregateStep(clusters: map<string, VMs>, done: set<string>, acc: VMs, id: string)
    requires IsAggregate(clusters, done, acc) && id in clusters && id !in done
    ensures IsAggregate(clusters, done + {id}, MergedCluster(acc, clusters[id]))
  {
    var c := clusters[id];
    var r := MergedCluster(acc, c);
    forall field
      ensures NumberAggregates(clusters, done + {id}, r, field)
    {
      NumberStep(clusters, done, acc, id, field);
    }
    TiersStep(clusters, done, acc.diskComplexityTier, id, DiskTiers);
    TiersStep(clusters, done, acc.complexityDistribution, id, ComplexityTiers);
    MergedNothing(OsOf(acc));
    forall name
      ensures OsAggregates(clusters, done + {id}, OsOf(r), name)
    {
      OsStep(clusters, done, OsOf(acc), id, name);
    }
    assert WarningsCounted(clusters, done + {id}, r) by {
      if k :| k in done && k in clusters && clusters[k].warnings.Some? {
        assert k in done + {id};
      }
      assert id in done + {id};
    }
  }

  lemma AggregateOfNothing(clusters: map<string, VMs>)
    ensures IsAggregate(clusters, {}, NO_VMS)
  {
  }

  predicate UsesVCenter(ids: seq<string>) {
    ids == [""]
  }

  method AggregateInventoryData(inv: Inventory, ids: seq<string>) returns (r: Result<VMs, EstimationError>)
    ensures ids == [] ==> r == Err(NoClusterID)
    ensures UsesVCenter(ids) ==> r == if inv.vcenter.None? then Err(NoVCenterData) else Ok(inv.vcenter.value)
    ensures ids != [] && !UsesVCenter(ids) ==> (r.Ok? <==> forall id :: id in ids ==> id in inv.clusters)
    ensures ids != [] && !UsesVCenter(ids) && r.Err? ==> FirstMissing(inv, ids, r.error)
    ensures |ids| == 1 && !UsesVCenter(ids) && r.Ok? ==> r.value == inv.clusters[ids[0]]
    ensures |ids| > 1 && r.Ok? ==> IsAggregate(inv.clusters, (set id | id in ids), r.value)
    ensures |ids| > 1 && r.Ok? && r.value.osInfo.Some? ==> |r.value.osInfo.value| > 0
  {
    if |ids| == 0 {
      return Err(NoClusterID);
    }
    if UsesVCenter(ids) {
      if inv.vcenter.None? {
        return Err(NoVCenterData);
      }
      return Ok(inv.vcenter.value);
    }
    if |ids| == 1 {
      if ids[0] !in inv.clusters {
        return Err(ClusterNotFound(ids[0]));
      }
      return Ok(inv.clusters[ids[0]]);
    }
    var unique: set<string> := {};
    for i := 0 to |ids|
      invariant unique == set id | id in ids[..i]
      invariant forall k :: 0 <= k < i ==> ids[k] in inv.clusters
    {
      if ids[i] !in inv.clusters {
        return Err(ClusterNotFound(ids[i]));
      }
      assert ids[..i + 1] == ids[..i] + [ids[i]];
      unique := unique + {ids[i]};
    }
    assert ids[..|ids|] == ids;
    var result := AggregateClusters(inv.clusters, unique);
    return Ok(result);
  }

  ghost predicate FirstMissing(inv: Inventory, ids: seq<string>, error: EstimationError) {
    exists i :: 0 <= i < |ids| && error == ClusterNotFound(ids[i]) && ids[i] !in inv.clusters
      && forall k :: 0 <= k < i ==> ids[k] in inv.clusters
  }

  method AddWarnings(acc: Option<int>, warnings: Option<int>) returns (r: Option<int>)
    ensures r == PlusWarnings(acc, warnings)
  {
    r := acc;
    if warnings.Some? {
      if r.None? {
        r := Some(0);
      }
      r := Some(r.value + warnings.value);
    }
  }

  method ChooseDiskSource(cluster: VMs) returns (diskSource: Option<Tiers>)
    ensures diskSource == cluster.DiskSource()
  {
    diskSource := cluster.diskComplexityTier;
    if diskSource.None? || |diskSource.value| == 0 {
      diskSource := cluster.diskSizeTier;
    }
  }

  /** The body of the loop over clusters; acc and osInfo are the accumulators. */
  method AddCluster(acc: VMs, osInfo: map<string, OsInfo>, cluster: VMs)
    returns (result: VMs, newOsInfo: map<string, OsInfo>)
    requires acc.osInfo.None? && acc.diskSizeTier.None?
    ensures result.osInfo.None? && result.diskSizeTier.None?
    ensures result.(osInfo := Some(newOsInfo)) == MergedCluster(acc.(osInfo := Some(osInfo)), cluster)
  {
    hide MergedOsMap;
    hide MergedTiers;
    hide PlusWarnings;
    var warnings := AddWarnings(acc.warnings, cluster.warnings);
    newOsInfo := MergeOsInfo(osInfo, cluster.osInfo);
    var diskSource := ChooseDiskSource(cluster);
    var tiers := MergeTiers(acc.diskComplexityTier, diskSource);
    var distribution := MergeTiers(acc.complexityDistribution, cluster.complexityDistribution);
    result := VMs(acc.total + cluster.total, acc.migratable + cluster.migratable, warnings,
                  acc.cpuCores.Plus(cluster.cpuCores), acc.ramGB.Plus(cluster.ramGB), acc.diskGB.Plus(cluster.diskGB),
                  None, tiers, None, distribution);
  }

  /** An aggregate may say "no OS" by an empty map or by none at all. */
  lemma OsViewOnly(clusters: map<string, VMs>, ids: set<string>, a: VMs, osInfo: Option<map<string, OsInfo>>)
    requires IsAggregate(clusters, ids, a) && OsOf(a.(osInfo := osInfo)) == OsOf(a)
    ensures IsAggregate(clusters, ids, a.(osInfo := osInfo))
  {
    forall field
      ensures NumberAggregates(clusters, ids, a.(osInfo := osInfo), field)
    {
      assert NumberAggregates(clusters, ids, a, field);
    }
  }

  /** The loop over the unique cluster IDs, in whatever order the map gives them. */
  method AggregateClusters(clusters: map<string, VMs>, unique: set<string>) returns (result: VMs)
    requires unique <= clusters.Keys
    ensures IsAggregate(clusters, unique, result)
    ensures result.osInfo.Some? ==> |result.osInfo.value| > 0
  {
    result := NO_VMS;
    var osInfo: map<string, OsInfo> := map[];
    AggregateOfNothing(clusters);
    OsViewOnly(clusters, {}, result, Some(osInfo));
    var rest := unique;
    assert unique - rest == {};
    hide IsAggregate;
    hide MergedCluster;
    while rest != {}
      invariant rest <= unique && result.osInfo.None? && result.diskSizeTier.None?
      invariant IsAggregate(clusters, unique - rest, result.(osInfo := Some(osInfo)))
      decreases rest
    {
      var clusterID :| clusterID in rest;
      AggregateStep(clusters, unique - rest, result.(osInfo := Some(osInfo)), clusterID);
      result, osInfo := AddCluster(result, osInfo, clusters[clusterID]);
      assert unique - (rest - {clusterID}) == unique - rest + {clusterID};
      rest := rest - {clusterID};
    }
    assert unique - rest == unique;
    ghost var full := result.(osInfo := Some(osInfo));
    if |osInfo| > 0 {
      result := result.(osInfo := Some(osInfo));
    } else {
      assert osInfo == map[];
      OsViewOnly(clusters, unique, full, None);
      assert full.(osInfo := None) == result;
    }
  }

  /** Two walks over the same clusters, in any two orders, agree on everything but the choice of
      an upgrade recommendation. */
  lemma OrderIrrelevant(clusters: map<string, VMs>, ids: set<string>, a: VMs, b: VMs)
    requires IsAggregate(clusters, ids, a) && IsAggregate(clusters, ids, b)
    ensures a.total == b.total && a.migratable == b.migratable && a.warnings == b.warnings
    ensures a.cpuCores == b.cpuCores && a.ramGB == b.ramGB && a.diskGB == b.diskGB
    ensures a.diskComplexityTier == b.diskComplexityTier && a.complexityDistribution == b.complexityDistribution
    ensures OsOf(a).Keys == OsOf(b).Keys
    ensures forall name :: name in OsOf(a) ==> OsOf(a)[name].(upgrade := None) == OsOf(b)[name].(upgrade := None)
  {
    SameNumbers(clusters, ids, a, b);
    SameTiers(clusters, ids, a.diskComplexityTier, b.diskComplexityTier, DiskTiers);
    SameTiers(clusters, ids, a.complexityDistribution, b.complexityDistribution, ComplexityTiers);
    forall name
      ensures name in OsOf(a) <==> name in OsOf(b)
      ensures name in OsOf(a) ==> OsOf(a)[name].(upgrade := None) == OsOf(b)[name].(upgrade := None)
    {
      SameOs(clusters, ids, OsOf(a), OsOf(b), name);
    }
  }

  lemma SameNumbers(clusters: map<string, VMs>, ids: set<string>, a: VMs, b: VMs)
    requires forall field :: NumberAggregates(clusters, ids, a, field) && NumberAggregates(clusters, ids, b, field)
    requires WarningsCounted(clusters, ids, a) && WarningsCounted(clusters, ids, b)
    ensures a.total == b.total && a.migratable == b.migratable && a.warnings == b.warnings
    ensures a.cpuCores == b.cpuCores && a.ramGB == b.ramGB && a.diskGB == b.diskGB
  {
    forall field
      ensures Number(a, field) == Number(b, field)
    {
      assert NumberAggregates(clusters, ids, a, field) && NumberAggregates(clusters, ids, b, field);
    }
    assert Number(a, Total) == Number(b, Total) && Number(a, Migratable) == Number(b, Migratable);
    assert Number(a, Warnings) == Number(b, Warnings);
    forall part
      ensures PartOf(a.cpuCores, part) == PartOf(b.cpuCores, part)
      ensures PartOf(a.ramGB, part) == PartOf(b.ramGB, part)
      ensures PartOf(a.diskGB, part) == PartOf(b.diskGB, part)
    {
      assert Number(a, Cpu(part)) == Number(b, Cpu(part));
      assert Number(a, Ram(part)) == Number(b, Ram(part));
      assert Number(a, Disk(part)) == Number(b, Disk(part));
    }
    SameBreakdown(a.cpuCores, b.cpuCores);
    SameBreakdown(a.ramGB, b.ramGB);
    SameBreakdown(a.diskGB, b.diskGB);
  }

  lemma SameBreakdown(a: Breakdown, b: Breakdown)
    requires forall part :: PartOf(a, part) == PartOf(b, part)
    ensures a == b
  {
    assert PartOf(a, All) == PartOf(b, All) && PartOf(a, ForMigratable) == PartOf(b, ForMigratable);
    assert PartOf(a, ForWarnings) == PartOf(b, ForWarnings) && PartOf(a, ForNotMigratable) == PartOf(b, ForNotMigratable);
  }

  lemma SameTiers(clusters: map<string, VMs>, ids: set<string>, a: Option<Tiers>, b: Option<Tiers>, kind: TierKind)
    requires TiersAggregate(clusters, ids, a, kind) && TiersAggregate(clusters, ids, b, kind)
    ensures a == b
  {
    forall tier
      ensures tier in TiersOf(a) <==> tier in TiersOf(b)
      ensures tier in TiersOf(a) ==> TiersOf(a)[tier] == TiersOf(b)[tier]
    {
      assert TierAggregates(clusters, ids, a, kind, tier) && TierAggregates(clusters, ids, b, kind, tier);
    }
    assert TiersOf(a) == TiersOf(b);
  }

  lemma SameOs(clusters: map<string, VMs>, ids: set<string>, a: map<string, OsInfo>, b: map<string, OsInfo>, name: string)
    requires OsAggregates(clusters, ids, a, name) && OsAggregates(clusters, ids, b, name)
    ensures name in a <==> name in b
    ensures name in a ==> a[name].(upgrade := None) == b[name].(upgrade := None)
  {
    if name in a {
      var x, y := a[name].tier, b[name].tier;
      if x.Some? && y.Some? {
        LessTotal(x.value, y.value);
      }
    }
  }

  // ----- the estimation path: totals only, empty IDs skipped

  ghost function Usable(ids: seq<string>): set<string> {
    set id | id in ids && id != ""
  }

  ghost predicate FirstMissingUsable(inv: Inventory, ids: seq<string>, error: EstimationError) {
    exists i :: 0 <= i < |ids| && error == ClusterNotFound(ids[i]) && ids[i] != "" && ids[i] !in inv.clusters
      && forall k :: 0 <= k < i && ids[k] != "" ==> ids[k] in inv.clusters
  }

  method ResolveInventoryData(inv: Inventory, id: string) returns (r: Result<VMs, EstimationError>)
    ensures id == "" ==> r == if inv.vcenter.None? then Err(NoVCenterData) else Ok(inv.vcenter.value)
    ensures id != "" ==> r == if id in inv.clusters then Ok(inv.clusters[id]) else Err(ClusterNotFound(id))
  {
    if id == "" {
      if inv.vcenter.None? {
        return Err(NoVCenterData);
      }
      return Ok(inv.vcenter.value);
    }
    if id !in inv.clusters {
      return Err(ClusterNotFound(id));
    }
    return Ok(inv.clusters[id]);
  }

  method ResolveEstimationInventoryData(inv: Inventory, ids: seq<string>) returns (r: Result<VMs, EstimationError>)
    ensures ids == [] ==> r == if inv.vcenter.None? then Err(NoVCenterData) else Ok(inv.vcenter.value)
    ensures ids != [] ==> (r.Ok? <==> Usable(ids) != {} && Usable(ids) <= inv.clusters.Keys)
    ensures ids != [] && r.Err? ==>
      (r.error == NoUsableID && Usable(ids) == {}) || FirstMissingUsable(inv, ids, r.error)
    ensures ids != [] && r.Ok? ==>
      r.value == NO_VMS.(total := r.value.total, diskGB := NO_BREAKDOWN.(total := r.value.diskGB.total))
    ensures ids != [] && r.Ok? ==> r.value.total as real == Sum(Usable(ids), NumberIn(inv.clusters, Total))
    ensures ids != [] && r.Ok? ==> r.value.diskGB.total as real == Sum(Usable(ids), NumberIn(inv.clusters, Disk(All)))
  {
    if |ids| == 0 {
      r := ResolveInventoryData(inv, "");
      return;
    }
    var combined := NO_VMS;
    var seen: set<string> := {};
    for i := 0 to |ids|
      invariant seen == Usable(ids[..i]) && seen <= inv.clusters.Keys
      invariant combined == NO_VMS.(total := combined.total, diskGB := NO_BREAKDOWN.(total := combined.diskGB.total))
      invariant combined.total as real == Sum(seen, NumberIn(inv.clusters, Total))
      invariant combined.diskGB.total as real == Sum(seen, NumberIn(inv.clusters, Disk(All)))
    {
      var clusterID := ids[i];
      assert ids[..i + 1] == ids[..i] + [clusterID];
      if clusterID == "" || clusterID in seen {
        continue;
      }
      var data := ResolveInventoryData(inv, clusterID);
      if data.Err? {
        assert forall k :: 0 <= k < i && ids[k] != "" ==> ids[k] in Usable(ids[..i]);
        return Err(data.error);
      }
      SumAdd(seen, NumberIn(inv.clusters, Total), clusterID);
      SumAdd(seen, NumberIn(inv.clusters, Disk(All)), clusterID);
      seen := seen + {clusterID};
      combined := combined.(total := combined.total + data.value.total,
                            diskGB := combined.diskGB.(total := combined.diskGB.total + data.value.diskGB.total));
    }
    assert ids[..|ids|] == ids;
    if |seen| == 0 {
      return Err(NoUsableID);
    }
    return Ok(combined);
  }

  /** For real cluster IDs, duplicates or not, both paths accept the same lists with the same totals. */
  method TotalsAgree(inv: Inventory, ids: seq<string>) returns (a: Result<VMs, EstimationError>, b: Result<VMs, EstimationError>)
    requires ids != [] && "" !in ids
    ensures a.Ok? <==> b.Ok?
    ensures a.Ok? ==> a.value.total == b.value.total && a.value.diskGB.total == b.value.diskGB.total
  {
    a := AggregateInventoryData(inv, ids);
    b := ResolveEstimationInventoryData(inv, ids);
    assert ids[0] in ids && Usable(ids) == set id | id in ids;
    if a.Ok? {
      if |ids| == 1 {
        assert ids == [ids[0]];
        assert Usable(ids) == {ids[0]};
        SumTake({ids[0]}, NumberIn(inv.clusters, Total), ids[0]);
        SumTake({ids[0]}, NumberIn(inv.clusters, Disk(All)), ids[0]);
        assert {ids[0]} - {ids[0]} == {};
      } else {
        assert NumberAggregates(inv.clusters, Usable(ids), a.value, Total);
        assert NumberAggregates(inv.clusters, Usable(ids), a.value, Disk(All));
      }
    }
  }

  // ----- parameter layers

  datatype Param<V> = Param(key: string, value: V)

  /** A layer as a map; of several params with one key the last counts. */
  function LayerMap<V>(layer: seq<Param<V>>): map<string, V> {
    if layer == [] then map[] else LayerMap(Front(layer))[Last(layer).key := Last(layer).value]
  }

  /** Later layers win. */
  function Layered<V>(layers: seq<seq<Param<V>>>): map<string, V> {
    if layers == [] then map[] else Layered(Front(layers)) + LayerMap(Last(layers))
  }

  ghost predicate Lists<V(!new)>(params: seq<Param<V>>, m: map<string, V>) {
    && (forall i, j :: 0 <= i < j < |params| ==> params[i].key != params[j].key)
    && (forall p :: p in params <==> p.key in m && p.value == m[p.key])
  }

  method MergeParams<V(==, !new)>(layers: seq<seq<Param<V>>>) returns (result: seq<Param<V>>)
    ensures Lists(result, Layered(layers))
  {
    var merged: map<string, V> := map[];
    for i := 0 to |layers|
      invariant merged == Layered(layers[..i])
    {
      ghost var before := merged;
      var layer := layers[i];
      for j := 0 to |layer|
        invariant merged == before + LayerMap(layer[..j])
      {
        assert Front(layer[..j + 1]) == layer[..j];
        merged := merged[layer[j].key := layer[j].value];
      }
      assert layer[..|layer|] == layer;
      assert Front(layers[..i + 1]) == layers[..i];
    }
    assert layers[..|layers|] == layers;
    result := [];
    var rest := merged.Keys;
    while rest != {}
      invariant rest <= merged.Keys
      invariant forall i, j :: 0 <= i < j < |result| ==> result[i].key != result[j].key
      invariant forall p :: p in result <==> p.key in merged.Keys - rest && p.value == merged[p.key]
      decreases rest
    {
      var key :| key in rest;
      assert forall k :: 0 <= k < |result| ==> result[k] in result;
      result := result + [Param(key, merged[key])];
      rest := rest - {key};
    }
  }

  lemma {:induction false} LayerKeys<V(!new)>(layer: seq<Param<V>>, key: string)
    ensures key in LayerMap(layer) <==> exists p :: p in layer && p.key == key
  {
    if layer != [] {
      LayerKeys(Front(layer), key);
      assert layer == Front(layer) + [Last(layer)];
    }
  }

  lemma {:induction false} ListedLookup<V(!new)>(params: seq<Param<V>>, key: string)
    requires forall i, j :: 0 <= i < j < |params| ==> params[i].key != params[j].key
    ensures key in LayerMap(params) <==> exists p :: p in params && p.key == key
    ensures forall p :: p in params && p.key == key ==> LayerMap(params)[key] == p.value
  {
    LayerKeys(params, key);
    if params != [] {
      ListedLookup(Front(params), key);
      assert params == Front(params) + [Last(params)];
    }
  }

  /** The merged list stands for the merged map, so layers can be merged in any grouping: a bucket's
      params over the base params are the three layers merged at once. */
  lemma BucketParamsLayer<V(!new)>(defaults: seq<Param<V>>, user: seq<Param<V>>, bucket: seq<Param<V>>, base: seq<Param<V>>)
    requires Lists(base, Layered([defaults, user]))
    ensures Layered([base, bucket]) == Layered([defaults, user, bucket])
  {
    var m := Layered([defaults, user]);
    forall key
      ensures key in LayerMap(base) <==> key in m
      ensures key in m ==> LayerMap(base)[key] == m[key]
    {
      ListedLookup(base, key);
      if key in m {
        assert Param(key, m[key]) in base;
      }
    }
    assert LayerMap(base) == m;
    TwoLayers(base, bucket);
    assert Front([defaults, user, bucket]) == [defaults, user];
  }

  lemma TwoLayers<V>(a: seq<Param<V>>, b: seq<Param<V>>)
    ensures Layered([a, b]) == LayerMap(a) + LayerMap(b)
  {
    assert Front([a, b]) == [a] && Front([a]) == [];
    assert Layered([a]) == LayerMap(a);
  }

  lemma ThreeLayers<V>(a: seq<Param<V>>, b: seq<Param<V>>, c: seq<Param<V>>)
    ensures Layered([a, b, c]) == LayerMap(a) + LayerMap(b) + LayerMap(c)
  {
    assert Front([a, b, c]) == [a, b];
    TwoLayers(a, b);
  }

  /** The cluster path lets user params win over the inventory, the bucket path the inventory over the
      user: they agree exactly if the user sets no inventory param to another value. */
  lemma PathsAgreeExactly<V>(defaults: seq<Param<V>>, inventory: seq<Param<V>>, user: seq<Param<V>>)
    ensures Layered([defaults, inventory, user]) == Layered([defaults, user, inventory])
      <==> forall key :: key in LayerMap(inventory) && key in LayerMap(user) ==>
             LayerMap(inventory)[key] == LayerMap(user)[key]
  {
    ThreeLayers(defaults, inventory, user);
    ThreeLayers(defaults, user, inventory);
    var d, i, u := LayerMap(defaults), LayerMap(inventory), LayerMap(user);
    if d + i + u == d + u + i {
      forall key | key in i && key in u
        ensures i[key] == u[key]
      {
        assert (d + i + u)[key] == u[key] && (d + u + i)[key] == i[key];
      }
    }
  }

  // ----- validated params

  /** A param's value as validation sees it. */
  datatype Value = Numeric(n: real) | NotNumeric

  datatype ParamDefinition = ParamDefinition(whole: bool, least: real)

  /** The params a user may set. */
  const DEFINITIONS := map[
    "transfer_rate_mbps" := ParamDefinition(false, 0.1),
    "work_hours_per_day" := ParamDefinition(false, 0.5),
    "troubleshoot_mins_per_vm" := ParamDefinition(false, 1.0),
    "post_migration_engineers" := ParamDefinition(true, 1.0)]

  predicate IsAllowed(p: Param<Value>) {
    && p.key in DEFINITIONS
    && p.value.Numeric?
    && (DEFINITIONS[p.key].whole ==> p.value.n == p.value.n.Floor as real)
    && p.value.n >= DEFINITIONS[p.key].least
  }

  method ValidateParams(user: seq<Param<Value>>) returns (ok: bool)
    ensures ok <==> forall p :: p in user ==> IsAllowed(p)
  {
    for i := 0 to |user|
      invariant forall k :: 0 <= k < i ==> IsAllowed(user[k])
    {
      var p := user[i];
      assert p in user;
      if p.key !in DEFINITIONS {
        return false;
      }
      var definition := DEFINITIONS[p.key];
      if p.value.NotNumeric? {
        return false;
      }
      if definition.whole && p.value.n.Floor as real != p.value.n {
        return false;
      }
      if p.value.n < definition.least {
        return false;
      }
    }
    return true;
  }

  /** The params taken from the inventory. */
  function ClusterParams(diskGB: real, vms: int): seq<Param<Value>> {
    [Param("total_disk_gb", Numeric(diskGB)), Param("vm_count", Numeric(vms as real))]
  }

  /** For params that pass validation both paths agree, whatever the defaults. */
  lemma ValidatedPathsAgree(defaults: seq<Param<Value>>, user: seq<Param<Value>>, diskGB: real, vms: int)
    requires forall p :: p in user ==> IsAllowed(p)
    ensures Layered([defaults, ClusterParams(diskGB, vms), user]) == Layered([defaults, user, ClusterParams(diskGB, vms)])
  {
    var inventory := ClusterParams(diskGB, vms);
    forall key
      ensures !(key in LayerMap(inventory) && key in LayerMap(user))
    {
      LayerKeys(inventory, key);
      LayerKeys(user, key);
    }
    PathsAgreeExactly(defaults, inventory, user);
  }
}
