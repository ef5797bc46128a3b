/** The cost model of a placement (app/scheduler/estimation.py), in exact arithmetic.
    An infinite transfer time is None: such a candidate has no finite score and is dropped. */
module Estimation {
  import opened Common
  import opened StateMachine

  datatype NodeType = UAV | EDGE

  datatype Constraint = Offloadable | LocalOnly | EdgeOnly

  datatype SchedulableSubtask =
    SchedulableSubtask(id: nat, computeLoad: real, inputMb: real, constraint: Constraint)

  datatype NodeSnapshot = NodeSnapshot(
    id: nat, name: string, nodeType: NodeType, status: NodeStatus,
    cpuCapacity: real, cpuUsagePercent: real, bandwidthMbps: Option<real>,
    currentLoad: Option<int>, queueLength: Option<int>)

  datatype Estimate =
    Estimate(node: NodeSnapshot, computeMs: int, transferMs: int, energy: real, score: real)

  /** A local subtask needs a UAV, an edge subtask an edge node, and nothing else is refused. */
  predicate Matches(constraint: Constraint, nodeType: NodeType): (ok: bool)
    ensures ok <==> (constraint == LocalOnly ==> nodeType == UAV) && (constraint == EdgeOnly ==> nodeType == EDGE)
  {
    match constraint
    case LocalOnly => nodeType == UAV
    case EdgeOnly => nodeType == EDGE
    case Offloadable => true
  }

  /** Python's round: to the nearest integer, ties to the even one. */
  function RoundHalfEven(x: real): int {
    var floor := x.Floor;
    var rest := x - floor as real;
    if rest < 0.5 then floor
    else if rest > 0.5 then floor + 1
    else if floor % 2 == 0 then floor else floor + 1
  }

  /** round(x, 4) */
  function Round4(x: real): real {
    RoundHalfEven(x * 10000.0) as real / 10000.0
  }

  function UsageRatio(usagePercent: real): real {
    var atLeast0 := if usagePercent > 0.0 then usagePercent else 0.0;
    (if atLeast0 < 95.0 then atLeast0 else 95.0) / 100.0
  }

  function EffectiveCapacity(node: NodeSnapshot): real {
    node.cpuCapacity * (1.0 - UsageRatio(node.cpuUsagePercent))
  }

  lemma {:induction false} EffectiveCapacityBounds(node: NodeSnapshot)
    requires node.cpuCapacity > 0.0
    ensures node.cpuCapacity / 20.0 <= EffectiveCapacity(node) <= node.cpuCapacity
  {
    var free := 1.0 - UsageRatio(node.cpuUsagePercent);
    assert 0.05 <= free <= 1.0;
    ScaleUp(node.cpuCapacity, 0.05, free);
    ScaleUp(node.cpuCapacity, free, 1.0);
  }

  function ComputeMs(subtask: SchedulableSubtask, node: NodeSnapshot): int
    requires node.cpuCapacity > 0.0
  {
    EffectiveCapacityBounds(node);
    RoundHalfEven(subtask.computeLoad / EffectiveCapacity(node) * 1000.0)
  }

  function TransferMs(subtask: SchedulableSubtask, node: NodeSnapshot): Option<int> {
    if node.nodeType == UAV || subtask.inputMb == 0.0 then Some(0)
    else
      match node.bandwidthMbps
      case None => None
      case Some(bandwidth) =>
        if bandwidth <= 0.0 then None
        else Some(RoundHalfEven(subtask.inputMb / bandwidth * 1000.0))
  }

  function Energy(computeMs: int, transferMs: int, nodeType: NodeType): real {
    var computeSeconds := computeMs as real / 1000.0;
    var transferSeconds := transferMs as real / 1000.0;
    if nodeType == UAV then computeSeconds * 2.0
    else computeSeconds * 0.4 + transferSeconds * 0.8
  }

  function Score(computeMs: int, transferMs: int, nodeType: NodeType, weight: real): real {
    (computeMs + transferMs) as real + weight * Energy(computeMs, transferMs, nodeType)
  }

  function EstimateCandidate(subtask: SchedulableSubtask, node: NodeSnapshot, weight: real)
    : Option<Estimate>
    requires node.cpuCapacity > 0.0
  {
    match TransferMs(subtask, node)
    case None => None
    case Some(transferMs) =>
      var computeMs := ComputeMs(subtask, node);
      Some(Estimate(node, computeMs, transferMs, Energy(computeMs, transferMs, node.nodeType),
                    Score(computeMs, transferMs, node.nodeType, weight)))
  }

  // ------------------------------------------------------------------ rounding

  lemma {:induction false} RoundIsNearest(x: real)
    ensures -0.5 <= RoundHalfEven(x) as real - x <= 0.5
  {
  }

  /** Nearest, and even on a tie: that determines the rounded value. */
  lemma {:induction false} RoundIff(x: real, n: int)
    ensures n == RoundHalfEven(x)
      <==> -0.5 <= n as real - x <= 0.5 && (n as real - x in {-0.5, 0.5} ==> n % 2 == 0)
  {
    RoundIsNearest(x);
    var m := RoundHalfEven(x);
    if n != m && -0.5 <= n as real - x <= 0.5 {
      assert n == m + 1 || m == n + 1;
    }
  }

  lemma {:induction false} RoundIsMonotone(x: real, y: real)
    requires x <= y
    ensures RoundHalfEven(x) <= RoundHalfEven(y)
  {
    if x.Floor == y.Floor {
    } else {
      assert x.Floor + 1 <= y.Floor;
    }
  }

  lemma {:induction false} RoundOfInt(k: int)
    ensures RoundHalfEven(k as real) == k
  {
  }

  lemma {:induction false} Round4IsClose(x: real)
    ensures -0.00005 <= Round4(x) - x <= 0.00005
  {
    RoundIsNearest(x * 10000.0);
  }

  // ---------------------------------------------------------------- real arithmetic

  lemma {:induction false} ScaleUp(factor: real, x: real, y: real)
    requires factor >= 0.0 && x <= y
    ensures factor * x <= factor * y
  {
    assert factor * (y - x) >= 0.0;
  }

  lemma {:induction false} QuotientGrows(a: real, b: real, c: real, d: real)
    requires 0.0 <= a <= c && 0.0 < d <= b
    ensures 0.0 <= a / b <= c / d
  {
    var q, r := a / b, c / d;
    assert q * b == a && r * d == c;
    assert q >= 0.0;
    if q > r {
      PositiveProduct(q - r, d);
      ScaleUp(q, d, b);
      assert false;
    }
  }

  lemma {:induction false} PositiveProduct(x: real, y: real)
    requires x > 0.0 && y > 0.0
    ensures x * y > 0.0
  {
  }

  lemma {:induction false} ProductGrows(a: real, b: real, c: real, d: real)
    requires 0.0 <= a <= c && 0.0 <= b <= d
    ensures a * b <= c * d
  {
    ScaleUp(a, b, d);
    ScaleUp(d, a, c);
  }

  // ------------------------------------------------------------------ monotonicity

  /** A slower or busier node, or a bigger load, never computes faster. */
  lemma {:induction false} ComputeIsMonotone(s: SchedulableSubtask, m: NodeSnapshot, t: SchedulableSubtask,
                                             n: NodeSnapshot)
    requires 0.0 <= s.computeLoad <= t.computeLoad
    requires 0.0 < n.cpuCapacity <= m.cpuCapacity
    requires m.cpuUsagePercent <= n.cpuUsagePercent
    ensures 0 <= ComputeMs(s, m) <= ComputeMs(t, n)
  {
    EffectiveCapacityBounds(m);
    EffectiveCapacityBounds(n);
    var freeM := 1.0 - UsageRatio(m.cpuUsagePercent);
    var freeN := 1.0 - UsageRatio(n.cpuUsagePercent);
    assert 0.0 < freeN <= freeM;
    ProductGrows(n.cpuCapacity, freeN, m.cpuCapacity, freeM);
    assert EffectiveCapacity(n) <= EffectiveCapacity(m);
    QuotientGrows(s.computeLoad, EffectiveCapacity(m), t.computeLoad, EffectiveCapacity(n));
    RoundIsMonotone(s.computeLoad / EffectiveCapacity(m) * 1000.0,
                    t.computeLoad / EffectiveCapacity(n) * 1000.0);
    RoundIsMonotone(0.0, s.computeLoad / EffectiveCapacity(m) * 1000.0);
    RoundOfInt(0);
  }

  /** Bandwidths compared, an unknown one counting as none. */
  predicate BandwidthAtLeast(a: Option<real>, b: Option<real>) {
    b == None || b.value <= 0.0 || (a.Some? && a.value >= b.value)
  }

  /** Transfer times compared, None being infinite. */
  predicate NoSlower(a: Option<int>, b: Option<int>) {
    b == None || (a.Some? && a.value <= b.value)
  }

  /** More data or less bandwidth never transfers faster, infinity included. */
  lemma {:induction false} TransferIsMonotone(s: SchedulableSubtask, m: NodeSnapshot, t: SchedulableSubtask,
                                              n: NodeSnapshot)
    requires 0.0 <= s.inputMb <= t.inputMb && m.nodeType == n.nodeType
    requires BandwidthAtLeast(m.bandwidthMbps, n.bandwidthMbps)
    ensures NoSlower(TransferMs(s, m), TransferMs(t, n))
    ensures TransferMs(t, n).Some? ==> 0 <= TransferMs(s, m).value
  {
    if TransferMs(t, n).Some? && n.nodeType == EDGE && t.inputMb != 0.0 {
      var wide, narrow := m.bandwidthMbps.value, n.bandwidthMbps.value;
      QuotientGrows(s.inputMb, wide, t.inputMb, narrow);
      RoundIsMonotone(s.inputMb / wide * 1000.0, t.inputMb / narrow * 1000.0);
      RoundIsMonotone(0.0, s.inputMb / wide * 1000.0);
      RoundIsMonotone(0.0, t.inputMb / narrow * 1000.0);
      RoundOfInt(0);
    }
  }

  /** m is n with more capacity, no more usage, or more bandwidth. */
  predicate AtLeastAsGood(m: NodeSnapshot, n: NodeSnapshot) {
    && m.nodeType == n.nodeType
    && 0.0 < n.cpuCapacity <= m.cpuCapacity
    && m.cpuUsagePercent <= n.cpuUsagePercent
    && BandwidthAtLeast(m.bandwidthMbps, n.bandwidthMbps)
  }

  function Product(x: real, y: real): real {
    x * y
  }

  lemma {:induction false} ProductMonotone(factor: real, x: real, y: real)
    requires factor >= 0.0 && x <= y
    ensures Product(factor, x) <= Product(factor, y)
  {
    ScaleUp(factor, x, y);
  }

  lemma {:induction false} EnergyGrows(c1: int, t1: int, c2: int, t2: int, nodeType: NodeType)
    requires c1 <= c2 && t1 <= t2
    ensures Energy(c1, t1, nodeType) <= Energy(c2, t2, nodeType)
  {
    var a, b, c, d := c1 as real, c2 as real, t1 as real, t2 as real;
    assert a <= b && c <= d;
  }

  lemma {:induction false} ScoreGrows(c1: int, t1: int, c2: int, t2: int, nodeType: NodeType, weight: real)
    requires c1 <= c2 && t1 <= t2 && weight >= 0.0
    ensures Score(c1, t1, nodeType, weight) <= Score(c2, t2, nodeType, weight)
  {
    hide Energy;
    var e1, e2 := Energy(c1, t1, nodeType), Energy(c2, t2, nodeType);
    EnergyGrows(c1, t1, c2, t2, nodeType);
    ProductMonotone(weight, e1, e2);
    calc {
      Score(c1, t1, nodeType, weight);
    ==
      (c1 + t1) as real + Product(weight, e1);
    <= { hide Product; }
      (c2 + t2) as real + Product(weight, e2);
    ==
      Score(c2, t2, nodeType, weight);
    }
  }

  /** Improving a node keeps it a candidate and never raises its score. */
  lemma {:induction false} ScoreIsMonotone(s: SchedulableSubtask, m: NodeSnapshot, n: NodeSnapshot, weight: real)
    requires AtLeastAsGood(m, n) && s.computeLoad >= 0.0 && s.inputMb >= 0.0 && weight >= 0.0
    requires EstimateCandidate(s, n, weight).Some?
    ensures EstimateCandidate(s, m, weight).Some?
    ensures EstimateCandidate(s, m, weight).value.score <= EstimateCandidate(s, n, weight).value.score
  {
    ComputeIsMonotone(s, m, s, n);
    TransferIsMonotone(s, m, s, n);
    ScoreGrows(ComputeMs(s, m), TransferMs(s, m).value, ComputeMs(s, n), TransferMs(s, n).value,
               n.nodeType, weight);
  }

  // -------------------------------------------------------------- what the numbers mean

  /** The compute time in milliseconds, rounded to the nearest, of a load on the share of the
      capacity that is free, a usage above 95 percent counting as 95 and one below 0 as 0. */
  lemma {:induction false} ComputeMsIsNearest(s: SchedulableSubtask, n: NodeSnapshot, usage: real, free: real)
    requires n.cpuCapacity > 0.0
    requires 0.0 <= usage <= 95.0
    requires n.cpuUsagePercent == usage || (n.cpuUsagePercent >= 95.0 && usage == 95.0)
             || (n.cpuUsagePercent <= 0.0 && usage == 0.0)
    requires free == n.cpuCapacity * (1.0 - usage / 100.0)
    ensures free > 0.0
    ensures -0.5 <= ComputeMs(s, n) as real - s.computeLoad / free * 1000.0 <= 0.5
  {
    assert UsageRatio(n.cpuUsagePercent) == usage / 100.0;
    assert EffectiveCapacity(n) == free;
    EffectiveCapacityBounds(n);
    RoundIsNearest(s.computeLoad / free * 1000.0);
  }

  /** The transfer time is the nearest number of milliseconds on an edge node with bandwidth,
      nothing on a UAV or without input, and infinite otherwise. */
  lemma {:induction false} TransferMsIsNearest(s: SchedulableSubtask, n: NodeSnapshot)
    ensures var remote := n.nodeType == EDGE && s.inputMb != 0.0;
            match TransferMs(s, n)
            case None => remote && (n.bandwidthMbps == None || n.bandwidthMbps.value <= 0.0)
            case Some(ms) =>
              if !remote then ms == 0
              else n.bandwidthMbps.Some? && n.bandwidthMbps.value > 0.0
                   && -0.5 <= ms as real - s.inputMb / n.bandwidthMbps.value * 1000.0 <= 0.5
  {
    if n.bandwidthMbps.Some? && n.bandwidthMbps.value > 0.0 {
      RoundIsNearest(s.inputMb / n.bandwidthMbps.value * 1000.0);
    }
  }

  /** An estimate is for its node and consists of the two times, the energy, at two units a
      second of local compute and 0.4 and 0.8 a second of edge compute and of transfer, and the
      score, the two times plus the weighted energy; there is none iff the transfer never ends. */
  lemma {:induction false} EstimateIs(s: SchedulableSubtask, n: NodeSnapshot, weight: real)
    requires n.cpuCapacity > 0.0
    ensures match EstimateCandidate(s, n, weight)
            case None => TransferMs(s, n) == None
            case Some(e) =>
              var compute, transfer := e.computeMs as real, e.transferMs as real;
              && e.node == n && e.computeMs == ComputeMs(s, n) && Some(e.transferMs) == TransferMs(s, n)
              && 1000.0 * e.energy == (if n.nodeType == UAV then 2.0 * compute else 0.4 * compute + 0.8 * transfer)
              && e.score == compute + transfer + weight * e.energy
  {
    hide ComputeMs, TransferMs;
  }

  /** Offloading saves energy exactly when five times the local compute time covers the edge
      compute time and twice the transfer time. */
  lemma {:induction false} OffloadSavesEnergyIff(localMs: int, edgeMs: int, transferMs: int)
    ensures Energy(edgeMs, transferMs, EDGE) <= Energy(localMs, 0, UAV)
      <==> edgeMs + 2 * transferMs <= 5 * localMs
  {
    var a, b, c := edgeMs as real, transferMs as real, localMs as real;
    assert Energy(edgeMs, transferMs, EDGE) == (a + 2.0 * b) / 2500.0;
    assert Energy(localMs, 0, UAV) == 5.0 * c / 2500.0;
  }
}
