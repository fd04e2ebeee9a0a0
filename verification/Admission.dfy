/** The admission gate: should_reject_at_load of control_plane/sla_policy/sla_policy.py and
    control_plane/admission_controller/admission_controller.py. */
module Admission {
  import opened Models
  import opened KVCache

  datatype Reason =
    | Ok | MemoryCritical | OomRisk | LoadShedding | ClusterMemory
    | SpillRisk | MemoryPressure | ComputeSaturated | NoKvHeadroom

  datatype Decision = Accept | Queue(reason: Reason) | Reject(reason: Reason)

  /** random.random() and the prediction of the spill-risk model, when they are asked for. */
  datatype Draw = Draw(shed: real, risk: real)

  function MaxTtftMs(c: SLAClass): real {
    match c
    case Realtime => 200.0
    case Interactive => 1000.0
    case Batch => 30000.0
  }

  function RejectProbability(c: SLAClass): real {
    match c
    case Realtime => 0.95
    case Interactive => 0.70
    case Batch => 0.0
  }

  function ShouldRejectAtLoad(r: Request, load: real, pressure: real, shed: real): Option<Reason> {
    if r.sla.Batch? then None
    else if pressure > 0.95 && r.sla.Interactive? then Some(MemoryCritical)
    else if pressure > 0.99 then Some(OomRisk)
    else if load > 0.85 && MaxTtftMs(r.sla) < 500.0
            && shed < RejectProbability(r.sla) * ((load - 0.85) / 0.15)
    then Some(LoadShedding)
    else None
  }

  function TotalLoad(nodes: seq<Node>): real {
    if nodes == [] then 0.0 else TotalLoad(nodes[..|nodes| - 1]) + nodes[|nodes| - 1].ComputeUtilization()
  }

  function ClusterLoad(nodes: seq<Node>): real {
    if nodes == [] then 0.0 else TotalLoad(nodes) / |nodes| as real
  }

  function ClusterPressure(nodes: seq<Node>): real
    requires Sized(nodes)
  {
    if nodes == [] then 0.0 else TotalPressure(nodes) / |nodes| as real
  }

  predicate HasHeadroom(nodes: seq<Node>, c: Cache, blocks: nat)
    requires Known(nodes, c)
  {
    exists k :: 0 <= k < |nodes| && c.FreeBlocks(nodes[k].id) >= blocks
  }

  datatype Gate = Gate(
    maxQueue: nat,
    memReject: real,
    memQueue: real,
    computeReject: real,
    useModel: bool,
    queue: seq<Request>,
    accepted: nat,
    queued: nat,
    rejected: nat)
  {
    function Enqueue(r: Request): Gate {
      if |queue| >= maxQueue then this.(rejected := rejected + 1)
      else this.(queue := queue + [r], queued := queued + 1)
    }

    function Refuse(): Gate {
      this.(rejected := rejected + 1)
    }

    function Decide(nodes: seq<Node>, c: Cache, r: Request, d: Draw): (Gate, Decision)
      requires Sized(nodes) && Known(nodes, c)
    {
      var load, pressure := ClusterLoad(nodes), ClusterPressure(nodes);
      var veto := ShouldRejectAtLoad(r, load, pressure, d.shed);
      if veto.Some? then (Refuse(), Reject(veto.value))
      else if pressure >= memReject then (Refuse(), Reject(ClusterMemory))
      else if useModel && d.risk > 0.85 then
        if r.sla.Batch? then (Enqueue(r), Queue(SpillRisk)) else (Refuse(), Reject(SpillRisk))
      else if pressure >= memQueue && r.sla.Batch? then (Enqueue(r), Queue(MemoryPressure))
      else if pressure >= memQueue && load >= computeReject then (Refuse(), Reject(ComputeSaturated))
      else if !HasHeadroom(nodes, c, r.KvBlocksNeeded()) then
        if r.sla.Batch? then (Enqueue(r), Queue(NoKvHeadroom)) else (Refuse(), Reject(NoKvHeadroom))
      else (this.(accepted := accepted + 1), Accept)
    }

    /** How many requests pop_queued(n) releases. */
    function Released(nodes: seq<Node>, n: nat): nat
      requires Sized(nodes)
    {
      if ClusterPressure(nodes) < memQueue then Min(n, |queue|) else 0
    }

    function PopQueued(nodes: seq<Node>, n: nat): (Gate, seq<Request>)
      requires Sized(nodes)
    {
      var k := Released(nodes, n);
      (this.(queue := queue[k..], accepted := accepted + k), queue[..k])
    }

    /** Only BATCH requests wait, and never more than the queue may hold. */
    ghost predicate Ok() {
      |queue| <= maxQueue && forall i :: 0 <= i < |queue| ==> queue[i].sla.Batch?
    }

    /** What the counters account for. */
    function Accounted(): nat {
      accepted + rejected + |queue|
    }
  }

  /** Every decision is accounted for exactly once, and the queue stays in order. */
  lemma DecideAccounts(g: Gate, nodes: seq<Node>, c: Cache, r: Request, d: Draw)
    requires Sized(nodes) && Known(nodes, c) && g.Ok()
    ensures var (h, decision) := g.Decide(nodes, c, r, d);
            && h.Accounted() == g.Accounted() + 1
            && h.Ok()
            && h.(queue := g.queue, accepted := g.accepted, queued := g.queued, rejected := g.rejected) == g
            && (h.queue == g.queue || (decision.Queue? && |g.queue| < g.maxQueue && h.queue == g.queue + [r]))
            && (decision.Queue? ==> r.sla.Batch? && (|g.queue| < g.maxQueue ==> h.rejected == g.rejected))
            && (decision.Accept? ==> HasHeadroom(nodes, c, r.KvBlocksNeeded()) && h.rejected == g.rejected)
  {
  }

  /** pop_queued moves an exact prefix of the queue to the accepted count. */
  lemma PopSplits(g: Gate, nodes: seq<Node>, n: nat)
    requires Sized(nodes) && g.Ok()
    ensures var (h, out) := g.PopQueued(nodes, n);
            && out + h.queue == g.queue && |out| <= n
            && h.Accounted() == g.Accounted() && h.Ok()
            && |out| == (if ClusterPressure(nodes) < g.memQueue then Min(n, |g.queue|) else 0)
            && h == g.(queue := h.queue, accepted := g.accepted + |out|)
            && forall i :: 0 <= i < |out| ==> out[i].sla.Batch?
  {
  }

  /** Every node keeps its used memory within the KV share. */
  ghost predicate LowPressure(nodes: seq<Node>) {
    forall k :: 0 <= k < |nodes| ==> nodes[k].totalMemory > 0.0 && nodes[k].usedMemory <= 0.60 * nodes[k].totalMemory
  }

  lemma PressureOfNode(n: Node)
    requires n.totalMemory > 0.0 && n.usedMemory <= 0.60 * n.totalMemory
    ensures n.MemoryPressure() <= 0.60
  {
    var p := n.MemoryPressure();
    assert p * n.totalMemory == n.usedMemory;
    Ordered(0.60, p, n.totalMemory);
  }

  lemma Ordered(a: real, b: real, m: real)
    requires m > 0.0
    ensures a < b ==> a * m < b * m
  {
    if a < b {
      assert (b - a) * m > 0.0;
    }
  }

  lemma {:induction false} TotalPressureBound(nodes: seq<Node>)
    requires Sized(nodes) && LowPressure(nodes)
    ensures TotalPressure(nodes) <= 0.60 * |nodes| as real
  {
    if nodes != [] {
      var n := |nodes| - 1;
      TotalPressureBound(nodes[..n]);
      PressureOfNode(nodes[n]);
    }
  }

  lemma ClusterPressureBound(nodes: seq<Node>)
    requires Sized(nodes) && LowPressure(nodes)
    ensures ClusterPressure(nodes) <= 0.60
  {
    if nodes != [] {
      TotalPressureBound(nodes);
      var p := ClusterPressure(nodes);
      assert p * |nodes| as real == TotalPressure(nodes);
      Ordered(0.60, p, |nodes| as real);
    }
  }

  predicate MemoryReason(r: Reason) {
    r == MemoryCritical || r == OomRisk || r == ClusterMemory || r == MemoryPressure || r == ComputeSaturated
  }

  /** Below the thresholds every memory branch is dead, a BATCH request is accepted or queued,
      and a request of another class is rejected only by load shedding, the spill model or a
      lack of free cache blocks. */
  lemma LowPressureDecisions(g: Gate, nodes: seq<Node>, c: Cache, r: Request, d: Draw)
    requires Sized(nodes) && Known(nodes, c) && LowPressure(nodes)
    requires g.memReject > 0.60 && g.memQueue > 0.60
    ensures var (h, decision) := g.Decide(nodes, c, r, d);
            && (decision.Queue? || decision.Reject? ==> !MemoryReason(decision.reason))
            && (r.sla.Batch? ==> !decision.Reject?)
            && (r.sla.Interactive? && decision.Reject? ==> decision.reason != LoadShedding)
            && (decision.Queue? || decision.Reject? ==>
                  (decision.reason == NoKvHeadroom ==> !HasHeadroom(nodes, c, r.KvBlocksNeeded())))
  {
    ClusterPressureBound(nodes);
  }
}
