/**
 Cluster sizing, internal/service/sizer.go: VM totals are split into batches, batches that
 may not share a node avoid each other, and the placement answered by the external sizer is
 validated. Floating point is read as exact real arithmetic.
 */
module Sizer {
  import opened Common

  const CAPACITY_MULTIPLIER: real := 80.0 / 100.0
  const MAX_BATCHES := 1000
  const MIN_BATCH_CPU := 1.0
  const MIN_BATCH_MEMORY := 2.0
  const MAX_VMS_PER_NODE := 200
  const RESERVED_CPU := 3.5
  const RESERVED_MEMORY := 13.39
  const MIN_FALLBACK_CPU := 2
  const MIN_FALLBACK_MEMORY := 4
  const MAX_RECOMMENDED_CPU := 384
  const MAX_RECOMMENDED_MEMORY := 4096

  /** math.Ceil, converted to int. */
  function Ceil(x: real): (c: int)
    ensures c as real - 1.0 < x <= c as real
  {
    -((-x).Floor)
  }

  lemma CeilAtMost(x: real, n: int)
    ensures Ceil(x) <= n <==> x <= n as real
  {
  }

  /** x / d <= n exactly when x <= n * d, for a positive divisor. */
  lemma DivideAtMost(x: real, d: real, n: real)
    requires d > 0.0
    ensures x / d <= n <==> x <= n * d
    ensures (x / d) * d == x
  {
    var q := x / d;
    assert q * d == x;
    if q <= n {
      assert q * d <= n * d;
    } else {
      assert q * d > n * d;
    }
  }

  /** Go's integer division and remainder, which truncate toward zero. */
  function Quot(a: int, b: int): int
    requires b > 0
  {
    if a >= 0 then a / b else -((-a) / b)
  }

  function Rem(a: int, b: int): int
    requires b > 0
  {
    a - Quot(a, b) * b
  }

  function CpuOverCommit(ratio: string): (r: Option<real>)
    ensures r.Some? ==> r.value >= 1.0
  {
    match ratio
    case "1:1" => Some(1.0)
    case "1:2" => Some(2.0)
    case "1:4" => Some(4.0)
    case "1:6" => Some(6.0)
    case "1:8" => Some(8.0)
    case _ => None
  }

  function MemoryOverCommit(ratio: string): (r: Option<real>)
    ensures r.Some? ==> r.value >= 1.0
  {
    match ratio
    case "1:1" => Some(1.0)
    case "1:2" => Some(2.0)
    case "1:4" => Some(4.0)
    case _ => None
  }

  // ----- batch names

  function DecimalDigit(d: nat): char
    requires d < 10
  {
    "0123456789"[d]
  }

  /** The %d verb. */
  function Decimal(n: nat): string {
    (if n < 10 then [] else Decimal(n / 10)) + [DecimalDigit(n % 10)]
  }

  lemma {:induction false} DecimalInjective(m: nat, n: nat)
    requires Decimal(m) == Decimal(n)
    ensures m == n
  {
    DecimalNonEmpty(m / 10);
    DecimalNonEmpty(n / 10);
    assert Last(Decimal(m)) == DecimalDigit(m % 10) && Last(Decimal(n)) == DecimalDigit(n % 10);
    assert m % 10 == n % 10;
    if m >= 10 && n >= 10 {
      assert Front(Decimal(m)) == Decimal(m / 10) && Front(Decimal(n)) == Decimal(n / 10);
      DecimalInjective(m / 10, n / 10);
    }
  }

  lemma DecimalNonEmpty(n: nat)
    ensures |Decimal(n)| > 0
  {
  }

  function BatchName(i: nat): string {
    "vms-batch-" + Decimal(i + 1) + "-services"
  }

  lemma BatchNameInjective(i: nat, j: nat)
    requires BatchName(i) == BatchName(j)
    ensures i == j
  {
    var prefix, suffix := "vms-batch-", "-services";
    var a, b := Decimal(i + 1), Decimal(j + 1);
    assert a == BatchName(i)[|prefix|..|BatchName(i)| - |suffix|];
    assert b == BatchName(j)[|prefix|..|BatchName(j)| - |suffix|];
    DecimalInjective(i + 1, j + 1);
  }

  // ----- splitting totals into batches

  datatype Batch = Batch(name: string, requiredCPU: real, requiredMemory: real,
                         limitCPU: real, limitMemory: real, vmCount: int)

  datatype SizingError =
    | NodeSizeNotPositive
    | TooManyVMs
    | UnknownRatio(ratio: string)
    | ControlPlaneTooSmall
    | NodeTooSmall(minCPU: int, minMemory: int)
    | DistributionViolated(found: int)

  /** The cluster totals to split, the node they are sized for, and the over-commit ratios. */
  datatype Load = Load(cpu: real, memory: real, vms: int, nodeCPU: real, nodeMemory: int,
                       cpuRatio: string, memoryRatio: string)

  /** How the count was reached: capped to one batch per VM, or re-split for the minimum size. */
  datatype Plan = Plan(count: int, capped: bool, resplit: bool)

  /** The batch size aimed at: the given part of a node. */
  function Target(node: real, capacity: real): (t: real)
    requires node > 0.0 && capacity > 0.0
    ensures t > 0.0
  {
    node * capacity
  }

  /** The least number of batches of at most this size. */
  function BatchesOf(total: real, size: real): int
    requires size > 0.0
  {
    Ceil(total / size)
  }

  function PerBatch(total: real, count: int): real
    requires count >= 1
  {
    total / count as real
  }

  function VMLimitBatches(vms: int): int {
    BatchesOf(vms as real, MAX_VMS_PER_NODE as real)
  }

  function CapacityBatches(l: Load, capacity: real): int
    requires capacity > 0.0 && l.nodeCPU > 0.0 && l.nodeMemory > 0
  {
    Max(1, Max(Max(BatchesOf(l.cpu, Target(l.nodeCPU, capacity)),
                   BatchesOf(l.memory, Target(l.nodeMemory as real, capacity))),
               if l.vms > 0 then VMLimitBatches(l.vms) else 1))
  }

  function MinimumSizeBatches(l: Load): int {
    Max(1, Max(Max(BatchesOf(l.cpu, MIN_BATCH_CPU), BatchesOf(l.memory, MIN_BATCH_MEMORY)),
               if l.vms > 0 then VMLimitBatches(l.vms) else 1))
  }

  function PlanBatches(l: Load, capacity: real): (r: Result<Plan, SizingError>)
    requires capacity > 0.0 && l.nodeCPU > 0.0 && l.nodeMemory > 0
    ensures r.Ok? ==> r.value.count >= 1
  {
    var wanted := CapacityBatches(l, capacity);
    var capped := l.vms > 0 && wanted > l.vms;
    var count := if capped then l.vms else wanted;
    if count > MAX_BATCHES then Err(TooManyVMs)
    else
      var resplit := PerBatch(l.cpu, count) < MIN_BATCH_CPU || PerBatch(l.memory, count) < MIN_BATCH_MEMORY;
      Ok(Plan(if resplit then MinimumSizeBatches(l) else count, capped, resplit))
  }

  function BatchAt(l: Load, count: int, cpuMultiplier: real, memoryMultiplier: real, i: nat): Batch
    requires count >= 1 && cpuMultiplier > 0.0 && memoryMultiplier > 0.0
  {
    var limitCPU, limitMemory := PerBatch(l.cpu, count), PerBatch(l.memory, count);
    Batch(BatchName(i), limitCPU / cpuMultiplier, limitMemory / memoryMultiplier, limitCPU, limitMemory,
          Quot(l.vms, count) + if i < Rem(l.vms, count) then 1 else 0)
  }

  function Batches(l: Load, count: int, cpuMultiplier: real, memoryMultiplier: real): (services: seq<Batch>)
    requires count >= 1 && cpuMultiplier > 0.0 && memoryMultiplier > 0.0
    ensures |services| == count
    ensures forall i :: 0 <= i < count ==> services[i] == BatchAt(l, count, cpuMultiplier, memoryMultiplier, i)
  {
    seq(count, i requires 0 <= i < count => BatchAt(l, count, cpuMultiplier, memoryMultiplier, i))
  }

  /** What the splitter answers. */
  function Split(l: Load, capacity: real): Result<seq<Batch>, SizingError>
    requires capacity > 0.0
  {
    if l.nodeCPU <= 0.0 || l.nodeMemory <= 0 then Err(NodeSizeNotPositive)
    else if l.vms == 0 then Ok([])
    else
      var plan := PlanBatches(l, capacity);
      if plan.Err? then Err(plan.error)
      else if CpuOverCommit(l.cpuRatio).None? then Err(UnknownRatio(l.cpuRatio))
      else if MemoryOverCommit(l.memoryRatio).None? then Err(UnknownRatio(l.memoryRatio))
      else Ok(Batches(l, plan.value.count, CpuOverCommit(l.cpuRatio).value, MemoryOverCommit(l.memoryRatio).value))
  }

  /** The first half of aggregateVMsIntoServices: the number of batches. */
  method CountBatches(l: Load, capacity: real) returns (r: Result<int, SizingError>, ghost plan: Plan)
    requires capacity > 0.0 && l.nodeCPU > 0.0 && l.nodeMemory > 0
    ensures PlanBatches(l, capacity) == if r.Err? then Err(r.error) else Ok(plan)
    ensures r.Ok? ==> r.value == plan.count
  {
    hide Target;
    hide BatchesOf;
    hide PerBatch;
    var targetCPU := Target(l.nodeCPU, capacity);
    var targetMemory := Target(l.nodeMemory as real, capacity);
    var batchesCPU := BatchesOf(l.cpu, targetCPU);
    var batchesMemory := BatchesOf(l.memory, targetMemory);
    var minBatchesFromVMLimit := 1;
    if l.vms > 0 {
      minBatchesFromVMLimit := BatchesOf(l.vms as real, MAX_VMS_PER_NODE as real);
    }
    var numBatches := Max(Max(batchesCPU, batchesMemory), minBatchesFromVMLimit);
    if numBatches < 1 {
      numBatches := 1;
    }
    ghost var capped := false;
    assert numBatches == CapacityBatches(l, capacity);
    if l.vms > 0 && numBatches > l.vms {
      numBatches := l.vms;
      capped := true;
    }
    if numBatches > MAX_BATCHES {
      return Err(TooManyVMs), Plan(0, false, false);
    }
    plan := Plan(numBatches, capped, false);
    if PerBatch(l.cpu, numBatches) < MIN_BATCH_CPU || PerBatch(l.memory, numBatches) < MIN_BATCH_MEMORY {
      var batchesFromMinCPU := BatchesOf(l.cpu, MIN_BATCH_CPU);
      var batchesFromMinMemory := BatchesOf(l.memory, MIN_BATCH_MEMORY);
      numBatches := Max(Max(batchesFromMinCPU, batchesFromMinMemory), minBatchesFromVMLimit);
      if numBatches < 1 {
        numBatches := 1;
      }
      assert numBatches == MinimumSizeBatches(l);
      plan := Plan(numBatches, capped, true);
    }
    r := Ok(numBatches);
  }

  method AggregateVMsIntoServices(l: Load, capacity: real) returns (r: Result<seq<Batch>, SizingError>)
    requires capacity > 0.0
    ensures r == Split(l, capacity)
  {
    hide PlanBatches;
    hide PerBatch;
    hide Quot;
    hide Rem;
    hide BatchName;
    hide CpuOverCommit;
    hide MemoryOverCommit;
    if l.nodeCPU <= 0.0 || l.nodeMemory <= 0 {
      return Err(NodeSizeNotPositive);
    }
    if l.vms == 0 {
      return Ok([]);
    }
    var counted, plan := CountBatches(l, capacity);
    if counted.Err? {
      return Err(counted.error);
    }
    var numBatches := counted.value;
    var limitCPU := PerBatch(l.cpu, numBatches);
    var limitMemory := PerBatch(l.memory, numBatches);
    var cpuMultiplier := CpuOverCommit(l.cpuRatio);
    if cpuMultiplier.None? {
      return Err(UnknownRatio(l.cpuRatio));
    }
    var memoryMultiplier := MemoryOverCommit(l.memoryRatio);
    if memoryMultiplier.None? {
      return Err(UnknownRatio(l.memoryRatio));
    }
    var requiredCPU := limitCPU / cpuMultiplier.value;
    var requiredMemory := limitMemory / memoryMultiplier.value;
    var vmsPerBatch := Quot(l.vms, numBatches);
    var remainingVMs := Rem(l.vms, numBatches);
    var services: seq<Batch> := [];
    for i := 0 to numBatches
      invariant |services| == i
      invariant forall k :: 0 <= k < i ==>
        services[k] == BatchAt(l, numBatches, cpuMultiplier.value, memoryMultiplier.value, k)
    {
      var vmCount := vmsPerBatch;
      if i < remainingVMs {
        vmCount := vmCount + 1;
      }
      services := services
        + [Batch(BatchName(i), requiredCPU, requiredMemory, limitCPU, limitMemory, vmCount)];
    }
    assert services == Batches(l, numBatches, cpuMultiplier.value, memoryMultiplier.value);
    return Ok(services);
  }

  /** What an accepted, non-empty split looks like. */
  lemma SplitShape(l: Load, capacity: real) returns (plan: Plan, c: real, m: real)
    requires capacity > 0.0 && Split(l, capacity).Ok? && l.vms != 0
    ensures l.nodeCPU > 0.0 && l.nodeMemory > 0
    ensures PlanBatches(l, capacity) == Ok(plan) && plan.count == |Split(l, capacity).value| >= 1
    ensures CpuOverCommit(l.cpuRatio) == Some(c) && MemoryOverCommit(l.memoryRatio) == Some(m)
    ensures c >= 1.0 && m >= 1.0
    ensures forall i :: 0 <= i < plan.count ==> Split(l, capacity).value[i] == BatchAt(l, plan.count, c, m, i)
  {
    hide PlanBatches;
    plan := PlanBatches(l, capacity).value;
    c := CpuOverCommit(l.cpuRatio).value;
    m := MemoryOverCommit(l.memoryRatio).value;
  }

  /** Each way a plan is made, and what it guarantees about the count. */
  lemma PlanCases(l: Load, capacity: real)
    requires capacity > 0.0 && l.nodeCPU > 0.0 && l.nodeMemory > 0 && PlanBatches(l, capacity).Ok?
    ensures var plan := PlanBatches(l, capacity).value; var n := plan.count;
      && (!plan.resplit ==> n <= MAX_BATCHES)
      && (!plan.resplit ==> PerBatch(l.cpu, n) >= MIN_BATCH_CPU && PerBatch(l.memory, n) >= MIN_BATCH_MEMORY)
      && (!plan.resplit && plan.capped ==> n == l.vms)
      && (!plan.resplit && !plan.capped ==> BatchesOf(l.cpu, Target(l.nodeCPU, capacity)) <= n)
      && (!plan.resplit && !plan.capped ==> BatchesOf(l.memory, Target(l.nodeMemory as real, capacity)) <= n)
      && (plan.resplit ==> BatchesOf(l.cpu, MIN_BATCH_CPU) <= n && BatchesOf(l.memory, MIN_BATCH_MEMORY) <= n)
      && (l.vms > 0 && (plan.resplit || !plan.capped) ==> VMLimitBatches(l.vms) <= n)
  {
    hide BatchesOf;
    hide PerBatch;
    hide Target;
  }

  function VMSum(services: seq<Batch>): int {
    if services == [] then 0 else VMSum(Front(services)) + Last(services).vmCount
  }

  lemma {:induction false} VMSumOfEven(services: seq<Batch>, each: int, extra: int)
    requires forall i :: 0 <= i < |services| ==> services[i].vmCount == each + if i < extra then 1 else 0
    ensures VMSum(services) == |services| * each + Max(0, Min(extra, |services|))
  {
    if services != [] {
      VMSumOfEven(Front(services), each, extra);
      var n := |services|;
      assert n * each == (n - 1) * each + each;
    }
  }

  lemma RemBounds(a: int, b: int)
    requires b > 0
    ensures a >= 0 ==> 0 <= Rem(a, b) < b
    ensures a < 0 ==> -b < Rem(a, b) <= 0
  {
    if a < 0 {
      var q := (-a) / b;
      assert -a == q * b + (-a) % b;
      assert Quot(a, b) * b == -(q * b);
    } else {
      assert a == (a / b) * b + a % b;
    }
  }

  /** VMs: nothing is lost or invented exactly when the count is not a negative non-multiple. */
  lemma SplitConservesVMs(l: Load, capacity: real)
    requires capacity > 0.0 && Split(l, capacity).Ok?
    ensures VMSum(Split(l, capacity).value) == l.vms
      <==> l.vms >= 0 || Rem(l.vms, |Split(l, capacity).value|) == 0
  {
    if l.vms != 0 {
      var plan, c, m := SplitShape(l, capacity);
      var services := Split(l, capacity).value;
      RemBounds(l.vms, plan.count);
      VMSumOfEven(services, Quot(l.vms, plan.count), Rem(l.vms, plan.count));
      assert plan.count * Quot(l.vms, plan.count) == Quot(l.vms, plan.count) * plan.count;
    }
  }

  lemma EnoughBatches(l: Load, capacity: real)
    requires capacity > 0.0 && l.nodeCPU > 0.0 && l.nodeMemory > 0 && l.vms > 0
    requires PlanBatches(l, capacity).Ok?
    ensures l.vms <= MAX_VMS_PER_NODE * PlanBatches(l, capacity).value.count
  {
    hide PlanBatches;
    var plan := PlanBatches(l, capacity).value;
    PlanCases(l, capacity);
    if plan.resplit || !plan.capped {
      ShareWithin(l.vms as real, MAX_VMS_PER_NODE as real, plan.count);
    }
  }

  /** With at least ceil(total / size) shares, a share is at most the size. */
  lemma ShareWithin(total: real, size: real, shares: int)
    requires shares >= 1 && size > 0.0 && BatchesOf(total, size) <= shares
    ensures PerBatch(total, shares) <= size && total <= size * shares as real
  {
    DivideAtMost(total, size, shares as real);
    DivideAtMost(total, shares as real, size);
  }

  lemma QuotientAtMost(a: int, n: int, limit: int)
    requires n > 0 && 0 <= a <= limit * n
    ensures Quot(a, n) + (if Rem(a, n) > 0 then 1 else 0) <= limit
  {
    var q, r := a / n, a % n;
    assert a == q * n + r;
    if q > limit {
      MulMonotone(limit + 1, q, n);
    } else if q == limit {
      assert r == 0;
    }
  }

  lemma MulMonotone(x: int, y: int, n: int)
    requires x <= y && n >= 0
    ensures x * n <= y * n
  {
  }

  /** Each batch holds 0..200 VMs and any two differ by at most one. */
  lemma SplitEvenAndLimited(l: Load, capacity: real, i: nat, j: nat)
    requires capacity > 0.0 && Split(l, capacity).Ok? && l.vms > 0
    requires i <= j < |Split(l, capacity).value|
    ensures var services := Split(l, capacity).value;
      0 <= services[j].vmCount <= services[i].vmCount <= services[j].vmCount + 1
      && services[i].vmCount <= MAX_VMS_PER_NODE
  {
    hide PlanBatches;
    var plan, c, m := SplitShape(l, capacity);
    hide Split;
    EnoughBatches(l, capacity);
    RemBounds(l.vms, plan.count);
    QuotientAtMost(l.vms, plan.count, MAX_VMS_PER_NODE);
    BatchFields(l, plan.count, c, m, i);
    BatchFields(l, plan.count, c, m, j);
    QuotAtLeastZero(l.vms, plan.count);
    hide *;
  }

  lemma QuotAtLeastZero(a: int, n: int)
    requires a >= 0 && n > 0
    ensures Quot(a, n) >= 0
  {
    assert a / n >= 0;
  }

  lemma BatchFields(l: Load, count: int, c: real, m: real, i: nat)
    requires count >= 1 && c > 0.0 && m > 0.0
    ensures var b := BatchAt(l, count, c, m, i);
      && b.limitCPU == PerBatch(l.cpu, count) && b.limitMemory == PerBatch(l.memory, count)
      && b.vmCount == Quot(l.vms, count) + if i < Rem(l.vms, count) then 1 else 0
  {
  }

  lemma SplitNamesDistinct(l: Load, capacity: real)
    requires capacity > 0.0 && Split(l, capacity).Ok?
    ensures DistinctNames(Split(l, capacity).value)
  {
    if l.vms != 0 {
      var plan, c, m := SplitShape(l, capacity);
      var services := Split(l, capacity).value;
      forall i, j | 0 <= i < j < |services|
        ensures services[i].name != services[j].name
      {
        if services[i].name == services[j].name {
          BatchNameInjective(i, j);
        }
      }
    }
  }

  ghost predicate DistinctNames(services: seq<Batch>) {
    forall i, j :: 0 <= i < j < |services| ==> services[i].name != services[j].name
  }

  /** The limits of count batches like b add up to the load; b's requests are its limits over the ratios c and m. */
  predicate IsShare(b: Batch, l: Load, count: int, c: real, m: real) {
    && count as real * b.limitCPU == l.cpu
    && count as real * b.limitMemory == l.memory
    && b.requiredCPU * c == b.limitCPU
    && b.requiredMemory * m == b.limitMemory
  }

  lemma ResourceShare(l: Load, count: int, c: real, m: real, i: nat)
    requires count >= 1 && c > 0.0 && m > 0.0
    ensures IsShare(BatchAt(l, count, c, m, i), l, count, c, m)
  {
    hide Quot;
    hide Rem;
    hide BatchName;
    Undivide(l.cpu, count as real);
    Undivide(l.memory, count as real);
    Undivide(l.cpu / count as real, c);
    Undivide(l.memory / count as real, m);
  }

  lemma Undivide(x: real, d: real)
    requires d > 0.0
    ensures d * (x / d) == x && (x / d) * d == x
  {
  }

  /** CPU and memory: the limits add up to the totals, and requests are limits over the ratio. */
  lemma SplitConservesResources(l: Load, capacity: real, i: nat)
    requires capacity > 0.0 && Split(l, capacity).Ok? && i < |Split(l, capacity).value|
    ensures CpuOverCommit(l.cpuRatio).Some? && MemoryOverCommit(l.memoryRatio).Some?
    ensures var services := Split(l, capacity).value;
      IsShare(services[i], l, |services|, CpuOverCommit(l.cpuRatio).value, MemoryOverCommit(l.memoryRatio).value)
  {
    hide PlanBatches;
    hide IsShare;
    hide BatchAt;
    var plan, c, m := SplitShape(l, capacity);
    hide Split;
    ResourceShare(l, plan.count, c, m, i);
  }

  lemma PlanSizes(l: Load, capacity: real)
    requires capacity > 0.0 && l.nodeCPU > 0.0 && l.nodeMemory > 0 && PlanBatches(l, capacity).Ok?
    ensures var plan := PlanBatches(l, capacity).value; var n := plan.count;
      && (!plan.resplit && !plan.capped ==> PerBatch(l.cpu, n) <= Target(l.nodeCPU, capacity))
      && (!plan.resplit && !plan.capped ==> PerBatch(l.memory, n) <= Target(l.nodeMemory as real, capacity))
      && (plan.resplit ==> PerBatch(l.cpu, n) <= MIN_BATCH_CPU && PerBatch(l.memory, n) <= MIN_BATCH_MEMORY)
  {
    hide PlanBatches;
    hide Target;
    hide BatchesOf;
    hide PerBatch;
    PlanCases(l, capacity);
    var plan := PlanBatches(l, capacity).value;
    if plan.resplit {
      ShareWithin(l.cpu, MIN_BATCH_CPU, plan.count);
      ShareWithin(l.memory, MIN_BATCH_MEMORY, plan.count);
    } else if !plan.capped {
      ShareWithin(l.cpu, Target(l.nodeCPU, capacity), plan.count);
      ShareWithin(l.memory, Target(l.nodeMemory as real, capacity), plan.count);
    }
  }

  /**
   The dichotomy of batch sizes. Left alone, the batches are at most 1000, at least the minimum
   size, and fit the target share of the node; capped, there is one VM in each; re-split, they
   are at most the minimum size, however many they get.
   */
  lemma SplitSizes(l: Load, capacity: real, i: nat)
    requires capacity > 0.0 && Split(l, capacity).Ok? && i < |Split(l, capacity).value|
    ensures l.nodeCPU > 0.0 && l.nodeMemory > 0 && PlanBatches(l, capacity).Ok?
    ensures var plan := PlanBatches(l, capacity).value; var b := Split(l, capacity).value[i];
      && (!plan.resplit ==> |Split(l, capacity).value| <= MAX_BATCHES)
      && (!plan.resplit ==> b.limitCPU >= MIN_BATCH_CPU && b.limitMemory >= MIN_BATCH_MEMORY)
      && (!plan.resplit && !plan.capped ==> b.limitCPU <= Target(l.nodeCPU, capacity))
      && (!plan.resplit && !plan.capped ==> b.limitMemory <= Target(l.nodeMemory as real, capacity))
      && (!plan.resplit && plan.capped ==> b.vmCount == 1)
      && (plan.resplit ==> b.limitCPU <= MIN_BATCH_CPU && b.limitMemory <= MIN_BATCH_MEMORY)
  {
    hide PlanBatches;
    hide Target;
    hide PerBatch;
    var plan, c, m := SplitShape(l, capacity);
    PlanCases(l, capacity);
    PlanSizes(l, capacity);
    BatchFields(l, plan.count, c, m, i);
    hide Split;
    hide BatchAt;
    if plan.capped && !plan.resplit {
      assert Quot(l.vms, l.vms) == 1 && Rem(l.vms, l.vms) == 0;
    }
  }

  lemma ShareDecides(total: real, n: int, size: real)
    requires n >= 1 && PerBatch(total, n) <= size
    ensures PerBatch(total, n) >= size <==> total == size * n as real
  {
    Undivide(total, n as real);
    if PerBatch(total, n) < size {
      assert PerBatch(total, n) * n as real < size * n as real;
    }
    if total == size * n as real {
      assert PerBatch(total, n) == size;
    }
  }

  /** "Minimum" batch sizes are met only if no re-split fired, or the totals divide exactly. */
  lemma MinimumSizeExactly(l: Load, capacity: real, i: nat)
    requires capacity > 0.0 && Split(l, capacity).Ok? && i < |Split(l, capacity).value|
    ensures l.nodeCPU > 0.0 && l.nodeMemory > 0 && PlanBatches(l, capacity).Ok?
    ensures var plan := PlanBatches(l, capacity).value; var b := Split(l, capacity).value[i];
      b.limitCPU >= MIN_BATCH_CPU && b.limitMemory >= MIN_BATCH_MEMORY
      <==> !plan.resplit || (l.cpu == MIN_BATCH_CPU * plan.count as real
                             && l.memory == MIN_BATCH_MEMORY * plan.count as real)
  {
    hide PlanBatches;
    hide PerBatch;
    SplitSizes(l, capacity, i);
    var plan, c, m := SplitShape(l, capacity);
    if plan.resplit {
      ShareDecides(l.cpu, plan.count, MIN_BATCH_CPU);
      ShareDecides(l.memory, plan.count, MIN_BATCH_MEMORY);
    }
  }

  lemma QuotSmall(a: int, n: int)
    requires n > 0 && a > 0
    ensures a < n ==> Quot(a, n) == 0 && Rem(a, n) == a
    ensures a >= n ==> Quot(a, n) >= 1
  {
    var q, r := a / n, a % n;
    assert a == q * n + r;
    if a < n {
      if q >= 1 {
        MulMonotone(1, q, n);
      }
      assert q == 0;
      assert Quot(a, n) * n == 0;
    } else if q <= 0 {
      MulMonotone(q, 0, n);
    }
  }

  /** Only a re-split makes more batches than VMs. */
  lemma PlanOverVMs(l: Load, capacity: real)
    requires capacity > 0.0 && Split(l, capacity).Ok? && l.vms > 0
    ensures l.nodeCPU > 0.0 && l.nodeMemory > 0 && PlanBatches(l, capacity).Ok?
    ensures PlanBatches(l, capacity).value.count > l.vms
      <==> PlanBatches(l, capacity).value.resplit && MinimumSizeBatches(l) > l.vms
  {
    hide CapacityBatches;
    hide MinimumSizeBatches;
    hide PerBatch;
  }

  /** Despite the cap "to prevent empty batches", a re-split can leave batches without a VM. */
  lemma EmptyBatchesExactly(l: Load, capacity: real)
    requires capacity > 0.0 && Split(l, capacity).Ok? && l.vms > 0
    ensures var services := Split(l, capacity).value;
      (exists i :: 0 <= i < |services| && services[i].vmCount == 0)
      <==> l.nodeCPU > 0.0 && l.nodeMemory > 0 && PlanBatches(l, capacity).Ok?
           && PlanBatches(l, capacity).value.resplit && MinimumSizeBatches(l) > l.vms
  {
    PlanOverVMs(l, capacity);
    hide PlanBatches;
    var plan, c, m := SplitShape(l, capacity);
    var services := Split(l, capacity).value;
    hide Split;
    QuotSmall(l.vms, plan.count);
    if plan.count > l.vms {
      BatchFields(l, plan.count, c, m, l.vms);
      assert services[l.vms].vmCount == 0;
    } else {
      forall i | 0 <= i < |services|
        ensures services[i].vmCount >= 1
      {
        BatchFields(l, plan.count, c, m, i);
      }
    }
  }

  /** Two VMs with ten cores and one GB on a large node: ten batches, all below the minimum
      memory, and only the first two with a VM. */
  lemma EmptyBatchesExample()
    ensures var l := Load(10.0, 1.0, 2, 100.0, 100, "1:1", "1:1"); var r := Split(l, CAPACITY_MULTIPLIER);
      && r.Ok? && |r.value| == 10
      && (forall i :: 0 <= i < 10 ==> r.value[i].vmCount == if i < 2 then 1 else 0)
      && (forall i :: 0 <= i < 10 ==> r.value[i].limitMemory < MIN_BATCH_MEMORY)
  {
    var l := Load(10.0, 1.0, 2, 100.0, 100, "1:1", "1:1");
    assert BatchesOf(l.cpu, Target(l.nodeCPU, CAPACITY_MULTIPLIER)) == 1 by {
      assert l.cpu / 80.0 == 0.125;
    }
    assert BatchesOf(l.memory, Target(l.nodeMemory as real, CAPACITY_MULTIPLIER)) == 1 by {
      assert l.memory / 80.0 == 0.0125;
    }
    assert VMLimitBatches(2) == 1;
    assert CapacityBatches(l, CAPACITY_MULTIPLIER) == 1;
    assert MinimumSizeBatches(l) == 10;
  }

  /** The limit of 1000 batches is exceeded exactly if a re-split asks for more. */
  lemma TooManyBatchesExactly(l: Load, capacity: real)
    requires capacity > 0.0 && Split(l, capacity).Ok? && l.vms != 0
    ensures l.nodeCPU > 0.0 && l.nodeMemory > 0 && PlanBatches(l, capacity).Ok?
    ensures |Split(l, capacity).value| > MAX_BATCHES
      <==> PlanBatches(l, capacity).value.resplit && MinimumSizeBatches(l) > MAX_BATCHES
  {
    hide CapacityBatches;
    hide MinimumSizeBatches;
    hide PerBatch;
  }

  /** Two VMs with 2000 cores and one GB on the same node: 2000 batches. */
  lemma TooManyBatchesExample()
    ensures var l := Load(2000.0, 1.0, 2, 100.0, 100, "1:1", "1:1"); var r := Split(l, CAPACITY_MULTIPLIER);
      r.Ok? && |r.value| == 2000
  {
    var l := Load(2000.0, 1.0, 2, 100.0, 100, "1:1", "1:1");
    assert BatchesOf(l.cpu, Target(l.nodeCPU, CAPACITY_MULTIPLIER)) == 25 by {
      assert l.cpu / 80.0 == 25.0;
    }
    assert BatchesOf(l.memory, Target(l.nodeMemory as real, CAPACITY_MULTIPLIER)) == 1 by {
      assert l.memory / 80.0 == 0.0125;
    }
    assert VMLimitBatches(2) == 1;
    assert CapacityBatches(l, CAPACITY_MULTIPLIER) == 25;
    assert MinimumSizeBatches(l) == 2000;
  }

  // ----- compact mode

  function TruncToInt(x: real): int {
    if x >= 0.0 then x.Floor else Ceil(x)
  }

  /** The node size batches are made for: in compact mode, what the control plane leaves free. */
  function CompactModeBatchingNodeSize(compactMode: bool, defaultCPU: real, defaultMemory: int,
                                       controlPlaneCPU: int, controlPlaneMemory: int,
                                       cpuRatio: string, memoryRatio: string): Result<(real, int), SizingError>
  {
    if !compactMode || controlPlaneCPU <= 0 || controlPlaneMemory <= 0 then Ok((defaultCPU, defaultMemory))
    else if controlPlaneCPU as real <= RESERVED_CPU || controlPlaneMemory as real <= RESERVED_MEMORY then
      Err(ControlPlaneTooSmall)
    else
      match CpuOverCommit(cpuRatio)
      case None => Err(UnknownRatio(cpuRatio))
      case Some(c) =>
        match MemoryOverCommit(memoryRatio)
        case None => Err(UnknownRatio(memoryRatio))
        case Some(m) =>
          Ok(((controlPlaneCPU as real - RESERVED_CPU) * c,
              TruncToInt((controlPlaneMemory - Ceil(RESERVED_MEMORY)) as real * m)))
  }

  /** In compact mode an undisturbed batch's request fits beside the control plane's reserve. */
  lemma CompactModeBatchFits(l: Load, controlPlaneCPU: int, controlPlaneMemory: int,
                             defaultCPU: real, defaultMemory: int, i: nat)
    requires controlPlaneCPU > 0 && controlPlaneMemory > 0
    requires CompactModeBatchingNodeSize(true, defaultCPU, defaultMemory, controlPlaneCPU, controlPlaneMemory,
               l.cpuRatio, l.memoryRatio) == Ok((l.nodeCPU, l.nodeMemory))
    requires Split(l, CAPACITY_MULTIPLIER).Ok? && i < |Split(l, CAPACITY_MULTIPLIER).value|
    requires l.nodeCPU > 0.0 && l.nodeMemory > 0
    requires PlanBatches(l, CAPACITY_MULTIPLIER).Ok?
    requires !PlanBatches(l, CAPACITY_MULTIPLIER).value.capped && !PlanBatches(l, CAPACITY_MULTIPLIER).value.resplit
    ensures var b := Split(l, CAPACITY_MULTIPLIER).value[i];
      && b.requiredCPU + RESERVED_CPU <= controlPlaneCPU as real
      && b.requiredMemory + RESERVED_MEMORY <= controlPlaneMemory as real
  {
    SplitSizes(l, CAPACITY_MULTIPLIER, i);
    var plan, c, m := SplitShape(l, CAPACITY_MULTIPLIER);
    var b := Split(l, CAPACITY_MULTIPLIER).value[i];
    assert Ceil(RESERVED_MEMORY) == 14;
    var freeCPU, freeMemory := controlPlaneCPU as real - RESERVED_CPU, (controlPlaneMemory - 14) as real;
    RequestFits(b.limitCPU, freeCPU, c);
    RequestFits(b.limitMemory, freeMemory, m);
  }

  /** A limit within 80% of an over-committed size is a request within the size itself. */
  lemma RequestFits(limit: real, free: real, multiplier: real)
    requires multiplier >= 1.0 && free >= 0.0
    requires limit <= free * multiplier * CAPACITY_MULTIPLIER
    ensures limit / multiplier <= free
  {
    assert free * multiplier >= 0.0;
    assert free * multiplier * CAPACITY_MULTIPLIER <= free * multiplier;
    DivideAtMost(limit, multiplier, free);
  }

  /** The compact-mode guard accepts a control plane exactly from 4 CPUs and 14 GB on, if both ratios
      are known; one without sizes it leaves to the default node. */
  lemma CompactModeAcceptedExactly(defaultCPU: real, defaultMemory: int, controlPlaneCPU: int,
                                   controlPlaneMemory: int, cpuRatio: string, memoryRatio: string)
    ensures CompactModeBatchingNodeSize(true, defaultCPU, defaultMemory, controlPlaneCPU, controlPlaneMemory,
              cpuRatio, memoryRatio).Ok?
      <==> || controlPlaneCPU <= 0 || controlPlaneMemory <= 0
           || (controlPlaneCPU >= 4 && controlPlaneMemory >= 14
               && CpuOverCommit(cpuRatio).Some? && MemoryOverCommit(memoryRatio).Some?)
  {
  }

  /** A control plane of 4 CPUs and 14 GB is accepted and leaves 0 GB, which the splitter refuses. */
  lemma CompactModeExample()
    ensures CompactModeBatchingNodeSize(true, 16.0, 64, 4, 14, "1:1", "1:1") == Ok((0.5, 0))
    ensures Split(Load(1.0, 1.0, 1, 0.5, 0, "1:1", "1:1"), CAPACITY_MULTIPLIER) == Err(NodeSizeNotPositive)
  {
    assert Ceil(RESERVED_MEMORY) == 14;
  }

  /** Of the control planes the compact-mode guard lets through, the splitter refuses the node size
      exactly for those of 14 GB. */
  lemma CompactModeRefusedExactly(l: Load, controlPlaneCPU: int, controlPlaneMemory: int,
                                   defaultCPU: real, defaultMemory: int)
    requires controlPlaneCPU > 0 && controlPlaneMemory > 0
    requires CompactModeBatchingNodeSize(true, defaultCPU, defaultMemory, controlPlaneCPU, controlPlaneMemory,
               l.cpuRatio, l.memoryRatio) == Ok((l.nodeCPU, l.nodeMemory))
    ensures controlPlaneCPU >= 4 && controlPlaneMemory >= 14
    ensures Split(l, CAPACITY_MULTIPLIER) == Err(NodeSizeNotPositive) <==> controlPlaneMemory == 14
  {
    var c, m := CpuOverCommit(l.cpuRatio).value, MemoryOverCommit(l.memoryRatio).value;
    assert Ceil(RESERVED_MEMORY) == 14;
    assert (controlPlaneCPU as real - RESERVED_CPU) * c > 0.0;
    var free := (controlPlaneMemory - 14) as real;
    assert controlPlaneMemory >= 15 ==> free * m >= 1.0;
  }

  // ----- avoid lists

  function MaxVMs(services: seq<Batch>): (m: int)
    ensures m >= 0 && forall i :: 0 <= i < |services| ==> services[i].vmCount <= m
    ensures m == 0 || exists i :: 0 <= i < |services| && services[i].vmCount == m
  {
    if services == [] then 0 else Max(MaxVMs(Front(services)), Last(services).vmCount)
  }

  /** How many batches may share a node. */
  function GroupSize(services: seq<Batch>): (k: int)
    requires services != [] && MaxVMs(services) > 0
    ensures 1 <= k <= |services|
  {
    Min(Max(MAX_VMS_PER_NODE / MaxVMs(services), 1), |services|)
  }

  /** The names of the first n batches outside group g, in order. */
  function NamesOutside(services: seq<Batch>, k: int, g: int, n: nat): seq<string>
    requires k >= 1 && n <= |services|
  {
    if n == 0 then []
    else NamesOutside(services, k, g, n - 1) + if (n - 1) / k != g then [services[n - 1].name] else []
  }

  function AvoidList(services: seq<Batch>, i: nat): seq<string>
    requires i < |services|
  {
    if MaxVMs(services) == 0 then []
    else NamesOutside(services, GroupSize(services), i / GroupSize(services), |services|)
  }

  method MaxVMsPerBatch(services: seq<Batch>) returns (maxVMsPerBatch: int)
    ensures maxVMsPerBatch == MaxVMs(services)
  {
    maxVMsPerBatch := 0;
    for i := 0 to |services|
      invariant maxVMsPerBatch == MaxVMs(services[..i])
    {
      assert Front(services[..i + 1]) == services[..i];
      if services[i].vmCount > maxVMsPerBatch {
        maxVMsPerBatch := services[i].vmCount;
      }
    }
    assert services[..|services|] == services;
  }

  method BuildServiceAvoidLists(services: seq<Batch>) returns (avoids: seq<seq<string>>)
    ensures |avoids| == |services|
    ensures forall i :: 0 <= i < |services| ==> avoids[i] == AvoidList(services, i)
  {
    hide MaxVMs;
    var numServices := |services|;
    if numServices == 0 {
      return [];
    }
    var maxVMsPerBatch := MaxVMsPerBatch(services);
    if maxVMsPerBatch == 0 {
      return seq(numServices, _ => []);
    }
    var maxServicesPerNode := MAX_VMS_PER_NODE / maxVMsPerBatch;
    if maxServicesPerNode < 1 {
      maxServicesPerNode := 1;
    }
    if maxServicesPerNode > numServices {
      maxServicesPerNode := numServices;
    }
    assert maxServicesPerNode == GroupSize(services);
    hide GroupSize;
    avoids := [];
    for i := 0 to numServices
      invariant |avoids| == i
      invariant forall k :: 0 <= k < i ==> avoids[k] == AvoidList(services, k)
    {
      var currentGroup := i / maxServicesPerNode;
      var avoidList: seq<string> := [];
      for j := 0 to numServices
        invariant avoidList == NamesOutside(services, maxServicesPerNode, currentGroup, j)
      {
        if i != j {
          var otherGroup := j / maxServicesPerNode;
          if otherGroup != currentGroup {
            avoidList := avoidList + [services[j].name];
          }
        }
      }
      avoids := avoids + [avoidList];
    }
  }

  lemma {:induction false} NamesOutsideMembers(services: seq<Batch>, k: int, g: int, n: nat, j: nat)
    requires k >= 1 && n <= |services| && j < |services| && DistinctNames(services)
    ensures services[j].name in NamesOutside(services, k, g, n) <==> j < n && j / k != g
  {
    if n > 0 {
      NamesOutsideMembers(services, k, g, n - 1, j);
    }
  }

  ghost predicate Avoids(services: seq<Batch>, i: nat, j: nat)
    requires i < |services| && j < |services|
  {
    services[j].name in AvoidList(services, i)
  }

  /** A batch avoids exactly the batches of the other groups; so avoidance is symmetric. */
  lemma AvoidsOtherGroups(services: seq<Batch>, i: nat, j: nat)
    requires DistinctNames(services) && i < |services| && j < |services|
    ensures Avoids(services, i, j)
      <==> MaxVMs(services) > 0 && i / GroupSize(services) != j / GroupSize(services)
    ensures Avoids(services, i, j) <==> Avoids(services, j, i)
  {
    if MaxVMs(services) > 0 {
      var k := GroupSize(services);
      NamesOutsideMembers(services, k, i / k, |services|, j);
      NamesOutsideMembers(services, k, j / k, |services|, i);
    }
  }

  // ----- validating a placement

  datatype Node = Node(isControlPlane: bool, services: seq<string>)

  type Zone = seq<Node>

  function Checked(node: Node, singleNode: bool): bool {
    !node.isControlPlane || singleNode
  }

  /** The VM count recorded under a name; the last batch of that name wins, strangers count 0. */
  function CountOf(services: seq<Batch>, name: string): int {
    if services == [] then 0
    else if Last(services).name == name then Last(services).vmCount
    else CountOf(Front(services), name)
  }

  function VMsOn(services: seq<Batch>, names: seq<string>): int {
    if names == [] then 0 else VMsOn(services, Front(names)) + CountOf(services, Last(names))
  }

  /** The largest load of a checked node, at least 0. */
  function MaxOnNodes(services: seq<Batch>, nodes: seq<Node>, singleNode: bool): (m: int)
    ensures m >= 0
    ensures forall n :: n in nodes && Checked(n, singleNode) ==> VMsOn(services, n.services) <= m
    ensures m == 0 || exists n :: n in nodes && Checked(n, singleNode) && VMsOn(services, n.services) == m
  {
    if nodes == [] then 0
    else
      var rest := MaxOnNodes(services, Front(nodes), singleNode);
      if Checked(Last(nodes), singleNode) then Max(rest, VMsOn(services, Last(nodes).services)) else rest
  }

  function NodesOf(zones: seq<Zone>): seq<Node> {
    if zones == [] then [] else NodesOf(Front(zones)) + Last(zones)
  }

  method CountsByName(services: seq<Batch>) returns (counts: map<string, int>)
    ensures forall name :: CountOf(services, name) == if name in counts then counts[name] else 0
  {
    counts := map[];
    for i := 0 to |services|
      invariant forall name :: CountOf(services[..i], name) == if name in counts then counts[name] else 0
    {
      assert Front(services[..i + 1]) == services[..i];
      counts := counts[services[i].name := services[i].vmCount];
    }
    assert services[..|services|] == services;
  }

  method VMsOnNode(counts: map<string, int>, node: Node, ghost services: seq<Batch>) returns (vmsOnNode: int)
    requires forall name :: CountOf(services, name) == if name in counts then counts[name] else 0
    ensures vmsOnNode == VMsOn(services, node.services)
  {
    hide CountOf;
    vmsOnNode := 0;
    for k := 0 to |node.services|
      invariant vmsOnNode == VMsOn(services, node.services[..k])
    {
      assert Front(node.services[..k + 1]) == node.services[..k];
      assert Last(node.services[..k + 1]) == node.services[k];
      if node.services[k] in counts {
        vmsOnNode := vmsOnNode + counts[node.services[k]];
      }
    }
    assert node.services[..|node.services|] == node.services;
  }

  lemma MaxOnNodesStep(services: seq<Batch>, before: seq<Node>, nodes: seq<Node>, i: nat, singleNode: bool)
    requires i < |nodes|
    ensures MaxOnNodes(services, before + nodes[..i + 1], singleNode)
      == var rest := MaxOnNodes(services, before + nodes[..i], singleNode);
         if Checked(nodes[i], singleNode) then Max(rest, VMsOn(services, nodes[i].services)) else rest
  {
    var longer := before + nodes[..i + 1];
    assert Front(longer) == before + nodes[..i] && Last(longer) == nodes[i];
  }

  method ValidateVMDistribution(zones: seq<Zone>, services: seq<Batch>, singleNode: bool)
    returns (maxVMsPerNode: int, r: Result<(), SizingError>)
    ensures maxVMsPerNode == MaxOnNodes(services, NodesOf(zones), singleNode)
    ensures r == if maxVMsPerNode > MAX_VMS_PER_NODE then Err(DistributionViolated(maxVMsPerNode)) else Ok(())
  {
    var serviceToVMCount := CountsByName(services);
    hide CountOf;
    hide VMsOn;
    hide MaxOnNodes;
    maxVMsPerNode := 0;
    assert MaxOnNodes(services, NodesOf(zones[..0]), singleNode) == 0 by {
      NoNodes(services, singleNode);
    }
    for z := 0 to |zones|
      invariant maxVMsPerNode == MaxOnNodes(services, NodesOf(zones[..z]), singleNode)
    {
      ghost var before := NodesOf(zones[..z]);
      var nodes := zones[z];
      assert before + nodes[..0] == before;
      for i := 0 to |nodes|
        invariant maxVMsPerNode == MaxOnNodes(services, before + nodes[..i], singleNode)
      {
        MaxOnNodesStep(services, before, nodes, i, singleNode);
        var node := nodes[i];
        if node.isControlPlane && !singleNode {
          continue;
        }
        var vmsOnNode := VMsOnNode(serviceToVMCount, node, services);
        if vmsOnNode > maxVMsPerNode {
          maxVMsPerNode := vmsOnNode;
        }
      }
      assert nodes[..|nodes|] == nodes;
      assert Front(zones[..z + 1]) == zones[..z];
    }
    assert zones[..|zones|] == zones;
    if maxVMsPerNode > MAX_VMS_PER_NODE {
      return maxVMsPerNode, Err(DistributionViolated(maxVMsPerNode));
    }
    return maxVMsPerNode, Ok(());
  }

  lemma NoNodes(services: seq<Batch>, singleNode: bool)
    ensures MaxOnNodes(services, [], singleNode) == 0
  {
  }

  /** A node that lists no service twice and no two services one of which avoids the other. */
  ghost predicate RespectsAvoidance(services: seq<Batch>, names: seq<string>) {
    && Distinct(names)
    && (forall i, j | 0 <= i < |services| && 0 <= j < |services| ::
          services[i].name in names && services[j].name in names ==> !Avoids(services, i, j))
  }

  lemma {:induction false} CountOfName(services: seq<Batch>, name: string)
    ensures CountOf(services, name) == 0
      || exists i :: 0 <= i < |services| && services[i].name == name && CountOf(services, name) == services[i].vmCount
  {
    if services != [] && Last(services).name != name {
      CountOfName(Front(services), name);
      if i :| 0 <= i < |services| - 1 && services[i].name == name && CountOf(services, name) == services[i].vmCount {
        assert services[i].name == name;
      }
    }
  }

  /** A node whose batches all come from room many indices holds at most room times the largest. */
  lemma {:induction false} LoadBounded(services: seq<Batch>, names: seq<string>, room: set<int>)
    requires Distinct(names)
    requires forall i :: 0 <= i < |services| && services[i].name in names ==> i in room
    ensures VMsOn(services, names) <= |room| * MaxVMs(services)
  {
    hide MaxVMs;
    var m := MaxVMs(services);
    if names == [] {
      MulMonotone(0, |room|, m);
    } else {
      var name := Last(names);
      CountOfName(services, name);
      if CountOf(services, name) == 0 {
        LoadBounded(services, Front(names), room);
      } else {
        var i :| 0 <= i < |services| && services[i].name == name && CountOf(services, name) == services[i].vmCount;
        assert names[|names| - 1] == name;
        LoadBounded(services, Front(names), room - {i});
        assert |room - {i}| == |room| - 1;
        OneMore(|room| - 1, m);
      }
    }
  }

  lemma OneMore(n: int, m: int)
    ensures (n + 1) * m == n * m + m
  {
  }

  function Range(from: int, n: nat): (s: set<int>)
    ensures |s| == n
    ensures forall i :: i in s <==> from <= i < from + n
  {
    if n == 0 then {} else Range(from, n - 1) + {from + n - 1}
  }

  lemma SameGroup(i: int, k: int, g: int)
    requires k >= 1 && i / k == g
    ensures g * k <= i < g * k + k
  {
  }

  /** A node that respects avoidance holds at most 200 VMs, if each batch does. */
  lemma NodeWithinLimit(services: seq<Batch>, names: seq<string>)
    requires DistinctNames(services) && RespectsAvoidance(services, names)
    requires MaxVMs(services) <= MAX_VMS_PER_NODE
    ensures VMsOn(services, names) <= MAX_VMS_PER_NODE
  {
    var m := MaxVMs(services);
    if m == 0 {
      LoadBounded(services, names, Range(0, |services|));
      assert |services| * m == 0;
    } else if first :| 0 <= first < |services| && services[first].name in names {
      var k := GroupSize(services);
      var g := first / k;
      forall i | 0 <= i < |services| && services[i].name in names
        ensures i in Range(g * k, k)
      {
        AvoidsOtherGroups(services, first, i);
        SameGroup(i, k, g);
      }
      LoadBounded(services, names, Range(g * k, k));
      GroupFits(m, k);
    } else {
      LoadBounded(services, names, {});
    }
  }

  lemma GroupFits(m: int, k: int)
    requires 0 < m <= MAX_VMS_PER_NODE && 1 <= k <= Max(MAX_VMS_PER_NODE / m, 1)
    ensures k * m <= MAX_VMS_PER_NODE
  {
    var q := MAX_VMS_PER_NODE / m;
    assert MAX_VMS_PER_NODE == q * m + MAX_VMS_PER_NODE % m;
    if q < 1 {
      MulMonotone(q, 0, m);
    }
    MulMonotone(k, q, m);
  }

  /**
   Split, then avoid, then validate: whatever placement the external sizer answers, if it
   respects the avoid lists it passes the validation.
   */
  lemma RespectfulPlacementPasses(l: Load, capacity: real, zones: seq<Zone>, singleNode: bool)
    requires capacity > 0.0 && Split(l, capacity).Ok? && l.vms >= 0
    requires forall n :: n in NodesOf(zones) && Checked(n, singleNode) ==>
      RespectsAvoidance(Split(l, capacity).value, n.services)
    ensures MaxOnNodes(Split(l, capacity).value, NodesOf(zones), singleNode) <= MAX_VMS_PER_NODE
  {
    var services := Split(l, capacity).value;
    SplitNamesDistinct(l, capacity);
    forall i | 0 <= i < |services|
      ensures services[i].vmCount <= MAX_VMS_PER_NODE
    {
      SplitEvenAndLimited(l, capacity, i, i);
    }
    forall n | n in NodesOf(zones) && Checked(n, singleNode)
      ensures VMsOn(services, n.services) <= MAX_VMS_PER_NODE
    {
      NodeWithinLimit(services, n.services);
    }
  }

  // ----- the node size guard and its advice

  function CalculateEffectiveCPU(physicalCores: int, threads: int): real {
    if physicalCores <= 0 then 0.0
    else if threads <= physicalCores then physicalCores as real
    else physicalCores as real + (threads - physicalCores) as real * 0.5
  }

  function SmtMultiplier(physicalCores: int, threads: int): real {
    if physicalCores > 0 && threads > 0 && threads > physicalCores
    then CalculateEffectiveCPU(physicalCores, threads) / physicalCores as real
    else 1.0
  }

  function RoundUp(x: int, multiple: int): int
    requires multiple > 0
  {
    Ceil(x as real / multiple as real) * multiple
  }

  /** The physical cores and memory that keep an inventory within maxCount batches. */
  function CalculateMinimumNodeSize(cpu: int, memory: int, maxCount: int, capacity: real, smt: real): (int, int) {
    if maxCount <= 0 || capacity <= 0.0 || smt <= 0.0 then (MIN_FALLBACK_CPU, MIN_FALLBACK_MEMORY)
    else
      var denominator := Target(maxCount as real, capacity);
      (Min(Max(RoundUp(Ceil(cpu as real / denominator / smt), 2), MIN_FALLBACK_CPU), MAX_RECOMMENDED_CPU),
       Min(Max(RoundUp(Ceil(memory as real / denominator), 4), MIN_FALLBACK_MEMORY), MAX_RECOMMENDED_MEMORY))
  }

  /** The guard before sizing: how many batches a node of this size leads to. */
  function EstimatedBatches(cpu: int, memory: int, effectiveCPU: real, nodeMemory: int): int
    requires effectiveCPU > 0.0 && nodeMemory > 0
  {
    Max(BatchesOf(cpu as real, Target(effectiveCPU, CAPACITY_MULTIPLIER)),
        BatchesOf(memory as real, Target(nodeMemory as real, CAPACITY_MULTIPLIER)))
  }

  method CheckNodeSize(cpu: int, memory: int, nodeCPU: int, threads: int, nodeMemory: int)
    returns (r: Result<(), SizingError>)
    requires nodeCPU > 0 && nodeMemory > 0
    ensures r.Ok? <==>
      EstimatedBatches(cpu, memory, CalculateEffectiveCPU(nodeCPU, threads), nodeMemory) <= MAX_BATCHES
    ensures r.Err? ==>
      var (minCPU, minMemory) := CalculateMinimumNodeSize(cpu, memory, MAX_BATCHES, CAPACITY_MULTIPLIER,
                                   SmtMultiplier(nodeCPU, threads));
      r.error == NodeTooSmall(minCPU, minMemory)
  {
    var effectiveCPU := CalculateEffectiveCPU(nodeCPU, threads);
    var targetCPU := Target(effectiveCPU, CAPACITY_MULTIPLIER);
    var targetMemory := Target(nodeMemory as real, CAPACITY_MULTIPLIER);
    var (minCPU, minMemory) := CalculateMinimumNodeSize(cpu, memory, MAX_BATCHES, CAPACITY_MULTIPLIER,
      SmtMultiplier(nodeCPU, threads));
    var estimatedBatchesCPU := BatchesOf(cpu as real, targetCPU);
    var estimatedBatchesMemory := BatchesOf(memory as real, targetMemory);
    if Max(estimatedBatchesCPU, estimatedBatchesMemory) > MAX_BATCHES {
      return Err(NodeTooSmall(minCPU, minMemory));
    }
    return Ok(());
  }

  /** A node of c cores with this SMT multiplier leads to few enough batches for the CPU total. */
  ghost predicate EnoughCPU(cpu: int, c: int, smt: real)
    requires c > 0 && smt > 0.0
  {
    BatchesOf(cpu as real, Target(Target(c as real, smt), CAPACITY_MULTIPLIER)) <= MAX_BATCHES
  }

  ghost predicate EnoughMemory(memory: int, m: int)
    requires m > 0
  {
    BatchesOf(memory as real, Target(m as real, CAPACITY_MULTIPLIER)) <= MAX_BATCHES
  }

  lemma EnoughCPULinear(cpu: int, c: int, smt: real)
    requires c > 0 && smt > 0.0
    ensures EnoughCPU(cpu, c, smt) <==> cpu as real / 800.0 / smt <= c as real
  {
    var effective := Target(c as real, smt);
    var node := Target(effective, CAPACITY_MULTIPLIER);
    assert 1000.0 * node == effective * 800.0;
    CeilAtMost(cpu as real / node, MAX_BATCHES);
    DivideAtMost(cpu as real, node, 1000.0);
    DivideAtMost(cpu as real, 800.0, effective);
    DivideAtMost(cpu as real / 800.0, smt, c as real);
  }

  lemma EnoughMemoryLinear(memory: int, m: int)
    requires m > 0
    ensures EnoughMemory(memory, m) <==> memory as real / 800.0 <= m as real
  {
    var node := m as real * CAPACITY_MULTIPLIER;
    assert node > 0.0;
    DivideAtMost(memory as real, node, 1000.0);
    DivideAtMost(memory as real, 800.0, m as real);
  }

  /** Rounding up gives the least multiple that is large enough. */
  lemma RoundUpLeast(x: int, multiple: int, y: int)
    requires (multiple == 2 || multiple == 4) && y % multiple == 0
    ensures RoundUp(x, multiple) % multiple == 0 && RoundUp(x, multiple) >= x
    ensures y >= x <==> y >= RoundUp(x, multiple)
  {
    var q, d := Ceil(x as real / multiple as real), y / multiple;
    MultipleAtLeast(x, multiple, q);
    MultipleAtLeast(x, multiple, d);
    assert y == d * multiple;
    if q <= d {
      MulMonotone(q, d, multiple);
    } else {
      MulMonotone(d + 1, q, multiple);
    }
  }

  lemma MultipleAtLeast(x: int, multiple: int, d: int)
    requires multiple == 2 || multiple == 4
    ensures x <= d * multiple <==> Ceil(x as real / multiple as real) <= d
    ensures (d * multiple) % multiple == 0
  {
    CeilAtMost(x as real / multiple as real, d);
    if multiple == 2 {
      assert x as real / 2.0 <= d as real <==> x <= d * 2;
    } else {
      assert x as real / 4.0 <= d as real <==> x <= d * 4;
    }
  }

  /** The node size before the caps: what 1000 batches of 80% of a node take, rounded up. */
  function NeededCPU(cpu: int, smt: real): int
    requires smt > 0.0
  {
    RoundUp(Ceil(cpu as real / 800.0 / smt), 2)
  }

  function NeededMemory(memory: int): int {
    RoundUp(Ceil(memory as real / 800.0), 4)
  }

  /**
   The advice printed with the refusal is sound and minimal: the advised CPU count (memory)
   passes the guard exactly if it was not capped, and no smaller even count of at least 2
   (multiple of 4 of at least 4) does; capped advice means that no size within the cap passes.
   */
  lemma AdviceIsLeast(cpu: int, memory: int, smt: real, c: int, m: int)
    requires smt > 0.0
    requires c >= MIN_FALLBACK_CPU && c % 2 == 0 && m >= MIN_FALLBACK_MEMORY && m % 4 == 0
    ensures var (minCPU, minMemory) := CalculateMinimumNodeSize(cpu, memory, MAX_BATCHES, CAPACITY_MULTIPLIER, smt);
      && 0 < minCPU <= MAX_RECOMMENDED_CPU && minCPU % 2 == 0
      && 0 < minMemory <= MAX_RECOMMENDED_MEMORY && minMemory % 4 == 0
      && (c <= MAX_RECOMMENDED_CPU ==> (EnoughCPU(cpu, c, smt) <==> c >= minCPU && EnoughCPU(cpu, minCPU, smt)))
      && (m <= MAX_RECOMMENDED_MEMORY ==>
            (EnoughMemory(memory, m) <==> m >= minMemory && EnoughMemory(memory, minMemory)))
      && (EnoughCPU(cpu, minCPU, smt) <==> NeededCPU(cpu, smt) <= MAX_RECOMMENDED_CPU)
      && (EnoughMemory(memory, minMemory) <==> NeededMemory(memory) <= MAX_RECOMMENDED_MEMORY)
  {
    assert Target(MAX_BATCHES as real, CAPACITY_MULTIPLIER) == 800.0;
    AdviceCPU(cpu, smt, c);
    AdviceMemory(memory, m);
  }

  lemma AdviceCPU(cpu: int, smt: real, c: int)
    requires smt > 0.0 && c >= MIN_FALLBACK_CPU && c % 2 == 0
    ensures var least := NeededCPU(cpu, smt);
      var advised := Min(Max(least, MIN_FALLBACK_CPU), MAX_RECOMMENDED_CPU);
      && advised % 2 == 0
      && (c <= MAX_RECOMMENDED_CPU ==> (EnoughCPU(cpu, c, smt) <==> c >= advised && EnoughCPU(cpu, advised, smt)))
      && (EnoughCPU(cpu, advised, smt) <==> least <= MAX_RECOMMENDED_CPU)
  {
    var needed := cpu as real / 800.0 / smt;
    var least := RoundUp(Ceil(needed), 2);
    RoundUpLeast(Ceil(needed), 2, c);
    RoundUpLeast(Ceil(needed), 2, MAX_RECOMMENDED_CPU);
    var advised := Min(Max(least, MIN_FALLBACK_CPU), MAX_RECOMMENDED_CPU);
    EnoughCPULinear(cpu, c, smt);
    EnoughCPULinear(cpu, advised, smt);
    CeilAtMost(needed, c);
    CeilAtMost(needed, advised);
  }

  lemma AdviceMemory(memory: int, m: int)
    requires m >= MIN_FALLBACK_MEMORY && m % 4 == 0
    ensures var least := NeededMemory(memory);
      var advised := Min(Max(least, MIN_FALLBACK_MEMORY), MAX_RECOMMENDED_MEMORY);
      && advised % 4 == 0
      && (m <= MAX_RECOMMENDED_MEMORY ==>
            (EnoughMemory(memory, m) <==> m >= advised && EnoughMemory(memory, advised)))
      && (EnoughMemory(memory, advised) <==> least <= MAX_RECOMMENDED_MEMORY)
  {
    var needed := memory as real / 800.0;
    var least := RoundUp(Ceil(needed), 4);
    RoundUpLeast(Ceil(needed), 4, m);
    RoundUpLeast(Ceil(needed), 4, MAX_RECOMMENDED_MEMORY);
    var advised := Min(Max(least, MIN_FALLBACK_MEMORY), MAX_RECOMMENDED_MEMORY);
    EnoughMemoryLinear(memory, m);
    EnoughMemoryLinear(memory, advised);
    CeilAtMost(needed, m);
    CeilAtMost(needed, advised);
  }

  /** The guard's verdict in terms of the two conditions, for a node of c cores and t threads. */
  lemma GuardIsBothConditions(cpu: int, memory: int, c: int, threads: int, m: int)
    requires c > 0 && m > 0
    ensures EstimatedBatches(cpu, memory, CalculateEffectiveCPU(c, threads), m) <= MAX_BATCHES
      <==> EnoughCPU(cpu, c, SmtMultiplier(c, threads)) && EnoughMemory(memory, m)
  {
    Undivide(CalculateEffectiveCPU(c, threads), c as real);
    assert Target(c as real, SmtMultiplier(c, threads)) == CalculateEffectiveCPU(c, threads);
  }

  /** Whoever takes the advice, with the SMT multiplier of the refused node, passes the guard that
      refused it, exactly if neither size was capped. */
  lemma AdvisedNodePasses(cpu: int, memory: int, c: int, threads: int, threads': int)
    requires c > 0
    ensures var smt := SmtMultiplier(c, threads);
      var (minCPU, minMemory) := CalculateMinimumNodeSize(cpu, memory, MAX_BATCHES, CAPACITY_MULTIPLIER, smt);
      && smt > 0.0 && minCPU > 0 && minMemory > 0
      && (SmtMultiplier(minCPU, threads') == smt ==>
            (EstimatedBatches(cpu, memory, CalculateEffectiveCPU(minCPU, threads'), minMemory) <= MAX_BATCHES
             <==> NeededCPU(cpu, smt) <= MAX_RECOMMENDED_CPU && NeededMemory(memory) <= MAX_RECOMMENDED_MEMORY))
  {
    var smt := SmtMultiplier(c, threads);
    SmtPositive(c, threads);
    AdviceIsLeast(cpu, memory, smt, MIN_FALLBACK_CPU, MIN_FALLBACK_MEMORY);
    var (minCPU, minMemory) := CalculateMinimumNodeSize(cpu, memory, MAX_BATCHES, CAPACITY_MULTIPLIER, smt);
    hide CalculateMinimumNodeSize;
    hide EnoughCPU;
    hide EnoughMemory;
    hide NeededCPU;
    hide NeededMemory;
    GuardIsBothConditions(cpu, memory, minCPU, threads', minMemory);
  }

  /** In particular nodes with the same whole number of threads per core have the same multiplier. */
  lemma SameThreadsPerCore(c: int, c': int, perCore: int)
    requires c > 0 && c' > 0 && perCore >= 1
    ensures SmtMultiplier(c, perCore * c) == SmtMultiplier(c', perCore * c')
  {
    SmtOfThreads(c, perCore);
    SmtOfThreads(c', perCore);
  }

  lemma SmtOfThreads(c: int, perCore: int)
    requires c > 0 && perCore >= 1
    ensures SmtMultiplier(c, perCore * c) == 1.0 + (perCore - 1) as real * 0.5
  {
    var factor := 1.0 + (perCore - 1) as real * 0.5;
    assert perCore * c - c == (perCore - 1) * c;
    assert ((perCore - 1) * c) as real == (perCore - 1) as real * c as real;
    if perCore > 1 {
      MulMonotone(2, perCore, c);
      assert CalculateEffectiveCPU(c, perCore * c) == factor * c as real;
      assert factor * c as real / c as real == factor;
    }
  }

  lemma SmtPositive(c: int, threads: int)
    requires c > 0
    ensures SmtMultiplier(c, threads) >= 1.0
  {
    DivideAtMost(c as real, c as real, 1.0);
  }

  /** Once the guard is passed, only the VM count can still be too much for the splitter. */
  lemma GuardedSplitRejection(cpu: int, memory: int, c: int, threads: int, l: Load)
    requires c > 0 && l.nodeMemory > 0 && l.vms > 0
    requires l.cpu == cpu as real && l.memory == memory as real && l.nodeCPU == CalculateEffectiveCPU(c, threads)
    requires EstimatedBatches(cpu, memory, l.nodeCPU, l.nodeMemory) <= MAX_BATCHES
    ensures Split(l, CAPACITY_MULTIPLIER) == Err(TooManyVMs) <==> l.vms > MAX_VMS_PER_NODE * MAX_BATCHES
  {
    hide BatchesOf;
    hide Target;
    hide MinimumSizeBatches;
    assert VMLimitBatches(l.vms) <= MAX_BATCHES <==> l.vms <= MAX_VMS_PER_NODE * MAX_BATCHES by {
      VMLimitExactly(l.vms);
    }
    assert CapacityBatches(l, CAPACITY_MULTIPLIER) <= MAX_BATCHES <==> VMLimitBatches(l.vms) <= MAX_BATCHES;
  }

  lemma VMLimitExactly(vms: int)
    ensures VMLimitBatches(vms) <= MAX_BATCHES <==> vms <= MAX_VMS_PER_NODE * MAX_BATCHES
  {
    CeilAtMost(vms as real / 200.0, MAX_BATCHES);
    DivideAtMost(vms as real, 200.0, 1000.0);
  }
}
