/**
 What the sizer's numbers mean, in terms of its inputs alone: how many batches a load is split
 into, how large a group may be, when a placement is refused (internal/service/sizer.go).
 */
module BatchLaws {
  import opened Common
  import opened Sizer

  // ----- the number of batches

  /** n batches of the given part of the node hold the load. */
  ghost predicate FitsNode(l: Load, capacity: real, n: int) {
    && n >= 1
    && l.cpu <= n as real * (l.nodeCPU * capacity)
    && l.memory <= n as real * (l.nodeMemory as real * capacity)
    && l.vms <= 200 * n
  }

  /** n batches of one CPU and two GB hold the load. */
  ghost predicate FitsMinimum(l: Load, n: int) {
    && n >= 1
    && l.cpu <= n as real
    && l.memory <= n as real * 2.0
    && l.vms <= 200 * n
  }

  ghost predicate IsLeastForNode(l: Load, capacity: real, n: int) {
    FitsNode(l, capacity, n) && forall m :: FitsNode(l, capacity, m) ==> n <= m
  }

  ghost predicate IsLeastForMinimum(l: Load, n: int) {
    FitsMinimum(l, n) && forall m :: FitsMinimum(l, m) ==> n <= m
  }

  /** The cap: not more batches than VMs. */
  function Capped(l: Load, n: int): int {
    if l.vms > 0 then Min(n, l.vms) else n
  }

  lemma BatchesAtMost(total: real, size: real, n: int)
    requires size > 0.0
    ensures BatchesOf(total, size) <= n <==> total <= n as real * size
  {
    CeilAtMost(total / size, n);
    DivideAtMost(total, size, n as real);
  }

  lemma VMsAtMost(vms: int, n: int)
    ensures VMLimitBatches(vms) <= n <==> vms <= 200 * n
  {
    BatchesAtMost(vms as real, 200.0, n);
    assert n as real * 200.0 == (200 * n) as real;
  }

  lemma CapacityFits(l: Load, capacity: real, n: int)
    requires capacity > 0.0 && l.nodeCPU > 0.0 && l.nodeMemory > 0
    ensures CapacityBatches(l, capacity) <= n <==> FitsNode(l, capacity, n)
  {
    BatchesAtMost(l.cpu, Target(l.nodeCPU, capacity), n);
    BatchesAtMost(l.memory, Target(l.nodeMemory as real, capacity), n);
    VMsAtMost(l.vms, n);
    hide BatchesOf;
    hide VMLimitBatches;
  }

  lemma MinimumFits(l: Load, n: int)
    ensures MinimumSizeBatches(l) <= n <==> FitsMinimum(l, n)
  {
    BatchesAtMost(l.cpu, 1.0, n);
    BatchesAtMost(l.memory, 2.0, n);
    VMsAtMost(l.vms, n);
    hide BatchesOf;
    hide VMLimitBatches;
  }

  /** Both least counts exist, for any load and node. */
  lemma LeastCountsExist(l: Load, capacity: real) returns (n: int, k: int)
    requires capacity > 0.0 && l.nodeCPU > 0.0 && l.nodeMemory > 0
    ensures IsLeastForNode(l, capacity, n) && IsLeastForMinimum(l, k)
  {
    n, k := CapacityBatches(l, capacity), MinimumSizeBatches(l);
    forall m
      ensures n <= m <==> FitsNode(l, capacity, m)
      ensures k <= m <==> FitsMinimum(l, m)
    {
      CapacityFits(l, capacity, m);
      MinimumFits(l, m);
    }
  }

  lemma PlanExactly(l: Load, capacity: real, n: int, k: int)
    requires capacity > 0.0 && l.nodeCPU > 0.0 && l.nodeMemory > 0 && l.vms != 0
    requires IsLeastForNode(l, capacity, n) && IsLeastForMinimum(l, k)
    ensures var w := Capped(l, n);
      && w >= 1
      && (PlanBatches(l, capacity) == Err(TooManyVMs) <==> w > 1000)
      && (PlanBatches(l, capacity).Err? <==> w > 1000)
      && (w <= 1000 ==>
            PlanBatches(l, capacity).value.count
            == if l.cpu >= w as real && l.memory >= w as real * 2.0 then w else k)
  {
    CapacityFits(l, capacity, n);
    CapacityFits(l, capacity, CapacityBatches(l, capacity));
    MinimumFits(l, k);
    MinimumFits(l, MinimumSizeBatches(l));
    var w := Capped(l, n);
    DivideAtLeast(l.cpu, w as real, MIN_BATCH_CPU);
    DivideAtLeast(l.memory, w as real, MIN_BATCH_MEMORY);
    hide CapacityBatches;
    hide MinimumSizeBatches;
  }

  lemma DivideAtLeast(x: real, d: real, n: real)
    requires d > 0.0
    ensures x / d >= n <==> x >= d * n
  {
    DivideAtMost(x, d, n);
    var q := x / d;
    assert q * d == x;
    if q >= n {
      assert q * d >= n * d;
    }
  }

  /**
   The outcome of a split, in terms of the load alone. Wanted is the least count whose batches
   fit the given part of a node and hold at most 200 VMs, but not more than there are VMs; it is
   refused above 1000. It stands if it leaves each batch a CPU and two GB; otherwise the split
   has the least count whose batches take no more than that.
   */
  lemma SplitExactly(l: Load, capacity: real, n: int, k: int)
    requires capacity > 0.0 && l.nodeCPU > 0.0 && l.nodeMemory > 0 && l.vms != 0
    requires IsLeastForNode(l, capacity, n) && IsLeastForMinimum(l, k)
    ensures var wanted := Capped(l, n); var r := Split(l, capacity);
      && (r == Err(TooManyVMs) <==> wanted > 1000)
      && (r.Ok? <==> wanted <= 1000 && IsCpuRatio(l.cpuRatio) && IsMemoryRatio(l.memoryRatio))
      && (r.Ok? ==> |r.value| == if l.cpu >= wanted as real && l.memory >= wanted as real * 2.0 then wanted else k)
  {
    PlanExactly(l, capacity, n, k);
    RatiosAsWritten(l.cpuRatio);
    hide PlanBatches;
  }

  lemma NothingToSplit(l: Load, capacity: real)
    requires capacity > 0.0
    ensures Split(l, capacity) == Err(NodeSizeNotPositive) <==> l.nodeCPU <= 0.0 || l.nodeMemory <= 0
    ensures Split(l, capacity) == Ok([]) <==> l.nodeCPU > 0.0 && l.nodeMemory > 0 && l.vms == 0
  {
    if l.nodeCPU > 0.0 && l.nodeMemory > 0 && l.vms != 0 {
      assert PlanBatches(l, capacity).Err? ==> PlanBatches(l, capacity).error == TooManyVMs;
      hide PlanBatches;
    }
  }

  /** A load that one batch holds, large enough for the minimum, is one batch of all its VMs. */
  lemma OneBatchSuffices(l: Load, capacity: real)
    requires capacity > 0.0 && l.nodeCPU > 0.0 && l.nodeMemory > 0 && l.vms > 0
    requires IsCpuRatio(l.cpuRatio) && IsMemoryRatio(l.memoryRatio)
    requires 1.0 <= l.cpu <= l.nodeCPU * capacity && 2.0 <= l.memory <= l.nodeMemory as real * capacity && l.vms <= 200
    ensures Split(l, capacity).Ok? && |Split(l, capacity).value| == 1
    ensures Split(l, capacity).value[0].vmCount == l.vms
  {
    var n, k := LeastCountsExist(l, capacity);
    assert FitsNode(l, capacity, 1);
    SplitExactly(l, capacity, n, k);
    SplitConservesVMs(l, capacity);
    var services := Split(l, capacity).value;
    hide Split;
    assert Front(services) == [] && VMSum([]) == 0;
    assert VMSum(services) == services[0].vmCount;
  }

  // ----- over-commit ratios

  predicate IsCpuRatio(ratio: string) {
    ratio in {"1:1", "1:2", "1:4", "1:6", "1:8"}
  }

  predicate IsMemoryRatio(ratio: string) {
    ratio in {"1:1", "1:2", "1:4"}
  }

  /** A known ratio stands for the number written behind its colon. */
  lemma RatiosAsWritten(ratio: string)
    ensures CpuOverCommit(ratio).Some? <==> IsCpuRatio(ratio)
    ensures MemoryOverCommit(ratio).Some? <==> IsMemoryRatio(ratio)
    ensures forall k: nat :: ratio == "1:" + Decimal(k) ==>
      && (CpuOverCommit(ratio).Some? ==> CpuOverCommit(ratio).value == k as real)
      && (MemoryOverCommit(ratio).Some? ==> MemoryOverCommit(ratio).value == k as real)
  {
    forall k: nat | ratio == "1:" + Decimal(k)
      ensures CpuOverCommit(ratio).Some? ==> CpuOverCommit(ratio).value == k as real
      ensures MemoryOverCommit(ratio).Some? ==> MemoryOverCommit(ratio).value == k as real
    {
      assert ratio[2..] == Decimal(k);
      DecimalLength(k);
    }
  }

  lemma DecimalLength(k: nat)
    ensures k >= 10 <==> |Decimal(k)| >= 2
    ensures k < 10 ==> Decimal(k) == [DecimalDigit(k)]
  {
    DecimalNonEmpty(k / 10);
    hide DecimalDigit;
    assert k < 10 ==> k % 10 == k && [] + [DecimalDigit(k % 10)] == [DecimalDigit(k)];
  }

  /** The first name as it is printed. */
  lemma FirstBatchName()
    ensures BatchName(0) == "vms-batch-1-services" && BatchName(11) == "vms-batch-12-services"
  {
    assert Decimal(1) == "1";
    assert Decimal(12) == "12";
  }

  // ----- node sizes

  /** Effective CPUs lie halfway between the cores and the threads, or are the cores alone. */
  lemma EffectiveCPUs(cores: int, threads: int)
    ensures CalculateEffectiveCPU(cores, threads) * 2.0
      == if cores <= 0 then 0.0 else (cores + Max(cores, threads)) as real
  {
  }

  /** Advice stays between the fallback and the largest size, whatever it is asked. */
  lemma AdviceInRange(cpu: int, memory: int, maxCount: int, capacity: real, smt: real)
    ensures var (minCPU, minMemory) := CalculateMinimumNodeSize(cpu, memory, maxCount, capacity, smt);
      && 2 <= minCPU <= 384 && 4 <= minMemory <= 4096
      && (maxCount <= 0 || capacity <= 0.0 || smt <= 0.0 ==> (minCPU, minMemory) == (2, 4))
  {
  }

  /** Outside compact mode an undisturbed batch takes at most 80% of a worker node. */
  lemma StandardModeBatchFits(l: Load, nodeCPU: real, nodeMemory: int, controlPlaneCPU: int, controlPlaneMemory: int,
                              i: nat)
    requires CompactModeBatchingNodeSize(false, nodeCPU, nodeMemory, controlPlaneCPU, controlPlaneMemory,
               l.cpuRatio, l.memoryRatio) == Ok((l.nodeCPU, l.nodeMemory))
    requires Split(l, CAPACITY_MULTIPLIER).Ok? && i < |Split(l, CAPACITY_MULTIPLIER).value|
    requires l.nodeCPU > 0.0 && l.nodeMemory > 0
    requires PlanBatches(l, CAPACITY_MULTIPLIER).Ok?
    requires !PlanBatches(l, CAPACITY_MULTIPLIER).value.capped && !PlanBatches(l, CAPACITY_MULTIPLIER).value.resplit
    ensures var b := Split(l, CAPACITY_MULTIPLIER).value[i];
      b.limitCPU <= nodeCPU * 0.8 && b.limitMemory <= nodeMemory as real * 0.8
  {
    SplitSizes(l, CAPACITY_MULTIPLIER, i);
    hide Split;
    hide PlanBatches;
  }

  /** In compact mode batches are made for what the control plane leaves free, over-committed as the
      ratios say; without control plane sizes, or outside compact mode, for the node itself. */
  lemma BatchingNodeExactly(compactMode: bool, nodeCPU: real, nodeMemory: int, controlPlaneCPU: int,
                            controlPlaneMemory: int, c: nat, m: nat)
    requires IsCpuRatio("1:" + Decimal(c)) && IsMemoryRatio("1:" + Decimal(m))
    ensures var r := CompactModeBatchingNodeSize(compactMode, nodeCPU, nodeMemory, controlPlaneCPU, controlPlaneMemory,
                       "1:" + Decimal(c), "1:" + Decimal(m));
      && (!compactMode || controlPlaneCPU <= 0 || controlPlaneMemory <= 0 ==> r == Ok((nodeCPU, nodeMemory)))
      && (compactMode && controlPlaneCPU > 0 && controlPlaneMemory > 0 ==>
            r == if controlPlaneCPU < 4 || controlPlaneMemory < 14 then Err(ControlPlaneTooSmall)
                 else Ok(((controlPlaneCPU as real - 3.5) * c as real, (controlPlaneMemory - 14) * m)))
  {
    RatiosAsWritten("1:" + Decimal(c));
    RatiosAsWritten("1:" + Decimal(m));
    assert Ceil(RESERVED_MEMORY) == 14;
    assert (controlPlaneMemory - 14) as real * m as real == ((controlPlaneMemory - 14) * m) as real;
  }

  // ----- groups

  /** As many batches share a node as the largest batch allows: one more would not fit. */
  lemma GroupSizeIsGreatest(services: seq<Batch>)
    requires services != [] && MaxVMs(services) > 0
    ensures var k, m := GroupSize(services), MaxVMs(services);
      && (k == 1 || k * m <= 200)
      && (k == |services| || (k + 1) * m > 200)
  {
    var m := MaxVMs(services);
    hide MaxVMs;
    var q := 200 / m;
    assert 200 == q * m + 200 % m;
    assert (q + 1) * m > 200;
    var k := GroupSize(services);
    if k < |services| && q < 1 {
      assert q == 0 && m > 200;
      MulMonotone(1, k + 1, m);
    } else if k != 1 {
      MulMonotone(k, q, m);
    }
  }

  // ----- when a placement is refused

  /** The VMs of the batches named on a node. */
  function HostedVMs(services: seq<Batch>, names: seq<string>): int {
    if services == [] then 0
    else HostedVMs(Front(services), names) + if Last(services).name in names then Last(services).vmCount else 0
  }

  lemma {:induction false} CountOfStranger(services: seq<Batch>, name: string)
    requires forall i :: 0 <= i < |services| ==> services[i].name != name
    ensures CountOf(services, name) == 0
  {
    if services != [] {
      CountOfStranger(Front(services), name);
    }
  }

  lemma {:induction false} HostedNothing(services: seq<Batch>)
    ensures HostedVMs(services, []) == 0
  {
    if services != [] {
      HostedNothing(Front(services));
    }
  }

  lemma {:induction false} HostedStep(services: seq<Batch>, names: seq<string>, name: string)
    requires DistinctNames(services) && name !in names
    ensures HostedVMs(services, names + [name]) == HostedVMs(services, names) + CountOf(services, name)
  {
    if services != [] {
      var before, last := Front(services), Last(services);
      if last.name == name {
        HostedSame(before, names, name);
      } else {
        HostedStep(before, names, name);
      }
    }
  }

  lemma {:induction false} HostedSame(services: seq<Batch>, names: seq<string>, name: string)
    requires forall i :: 0 <= i < |services| ==> services[i].name != name
    ensures HostedVMs(services, names + [name]) == HostedVMs(services, names)
  {
    if services != [] {
      HostedSame(Front(services), names, name);
    }
  }

  lemma {:induction false} VMsOnExactly(services: seq<Batch>, names: seq<string>)
    requires DistinctNames(services) && Distinct(names)
    ensures VMsOn(services, names) == HostedVMs(services, names)
  {
    if names == [] {
      HostedNothing(services);
    } else {
      VMsOnExactly(services, Front(names));
      assert names == Front(names) + [Last(names)];
      HostedStep(services, Front(names), Last(names));
    }
  }

  /** A node that holds virtual machines: a worker, or any node of a single-node cluster. */
  ghost predicate Overloaded(services: seq<Batch>, zones: seq<Zone>, singleNode: bool, z: int, n: int) {
    && 0 <= z < |zones| && 0 <= n < |zones[z]|
    && (singleNode || !zones[z][n].isControlPlane)
    && HostedVMs(services, zones[z][n].services) > 200
  }

  lemma {:induction false} NodesOfMembers(zones: seq<Zone>, node: Node)
    ensures node in NodesOf(zones) <==> exists z, n :: 0 <= z < |zones| && 0 <= n < |zones[z]| && zones[z][n] == node
  {
    if zones != [] {
      NodesOfMembers(Front(zones), node);
      assert zones == Front(zones) + [Last(zones)];
      if node in NodesOf(zones) {
        if node in Last(zones) {
          var n :| 0 <= n < |Last(zones)| && Last(zones)[n] == node;
          assert zones[|zones| - 1][n] == node;
        } else {
          var z, n :| 0 <= z < |zones| - 1 && 0 <= n < |Front(zones)[z]| && Front(zones)[z][n] == node;
          assert zones[z][n] == node;
        }
      }
      if z, n :| 0 <= z < |zones| && 0 <= n < |zones[z]| && zones[z][n] == node {
        if z < |zones| - 1 {
          assert Front(zones)[z][n] == node;
        }
      }
    }
  }

  /** A placement is refused exactly if some node that holds virtual machines gets more than 200. */
  method RefusedExactly(zones: seq<Zone>, services: seq<Batch>, singleNode: bool) returns (refused: bool)
    requires DistinctNames(services)
    requires forall z, n :: 0 <= z < |zones| && 0 <= n < |zones[z]| ==> Distinct(zones[z][n].services)
    ensures refused <==> exists z, n :: Overloaded(services, zones, singleNode, z, n)
  {
    var found, r := ValidateVMDistribution(zones, services, singleNode);
    refused := r.Err?;
    forall z, n | 0 <= z < |zones| && 0 <= n < |zones[z]|
      ensures zones[z][n] in NodesOf(zones)
      ensures VMsOn(services, zones[z][n].services) == HostedVMs(services, zones[z][n].services)
    {
      NodesOfMembers(zones, zones[z][n]);
      VMsOnExactly(services, zones[z][n].services);
    }
    if refused {
      var node :| node in NodesOf(zones) && Checked(node, singleNode) && VMsOn(services, node.services) == found;
      NodesOfMembers(zones, node);
      var z, n :| 0 <= z < |zones| && 0 <= n < |zones[z]| && zones[z][n] == node;
      assert Overloaded(services, zones, singleNode, z, n);
    }
  }
}
