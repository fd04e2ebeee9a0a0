/** What decide does, in terms of the counters of the nodes and of the manager. */
module AdmissionDecisions {
  import opened Models
  import opened KVCache
  import opened Admission

  // ------------------------------------------------------------------ the means

  /** The compute in use, one for a node with 20 running requests or more. */
  ghost function ComputeInUse(nodes: seq<Node>): real {
    if nodes == [] then 0.0
    else (if nodes[0].active >= 20 then 1.0 else 0.05 * nodes[0].active as real) + ComputeInUse(nodes[1..])
  }

  ghost function MemoryInUse(nodes: seq<Node>): real
    requires Sized(nodes)
  {
    if nodes == [] then 0.0 else nodes[0].usedMemory / nodes[0].totalMemory + MemoryInUse(nodes[1..])
  }

  ghost function Mean(sum: real, n: nat): real {
    if n == 0 then 0.0 else sum / n as real
  }

  ghost function MeanCompute(nodes: seq<Node>): real {
    Mean(ComputeInUse(nodes), |nodes|)
  }

  ghost function MeanMemory(nodes: seq<Node>): real
    requires Sized(nodes)
  {
    Mean(MemoryInUse(nodes), |nodes|)
  }

  lemma {:induction false} ComputeLast(nodes: seq<Node>, n: Node)
    ensures ComputeInUse(nodes + [n]) ==
            ComputeInUse(nodes) + (if n.active >= 20 then 1.0 else 0.05 * n.active as real)
  {
    if nodes == [] {
      assert (nodes + [n])[1..] == [];
    } else {
      ComputeLast(nodes[1..], n);
      assert (nodes + [n])[1..] == nodes[1..] + [n];
    }
  }

  lemma {:induction false} MemoryLast(nodes: seq<Node>, n: Node)
    requires Sized(nodes) && n.totalMemory > 0.0
    ensures Sized(nodes + [n]) && MemoryInUse(nodes + [n]) == MemoryInUse(nodes) + n.usedMemory / n.totalMemory
  {
    if nodes == [] {
      assert (nodes + [n])[1..] == [];
    } else {
      MemoryLast(nodes[1..], n);
      assert (nodes + [n])[1..] == nodes[1..] + [n];
    }
  }

  /** The load and the pressure that decide reads are these means. */
  lemma {:induction false} LoadIsMean(nodes: seq<Node>)
    ensures TotalLoad(nodes) == ComputeInUse(nodes) && ClusterLoad(nodes) == MeanCompute(nodes)
  {
    if nodes != [] {
      var n := |nodes| - 1;
      LoadIsMean(nodes[..n]);
      ComputeLast(nodes[..n], nodes[n]);
      assert nodes == nodes[..n] + [nodes[n]];
    }
  }

  lemma {:induction false} PressureIsMean(nodes: seq<Node>)
    requires Sized(nodes)
    ensures TotalPressure(nodes) == MemoryInUse(nodes) && ClusterPressure(nodes) == MeanMemory(nodes)
  {
    if nodes != [] {
      var n := |nodes| - 1;
      PressureIsMean(nodes[..n]);
      MemoryLast(nodes[..n], nodes[n]);
      assert nodes == nodes[..n] + [nodes[n]];
    }
  }

  // -------------------------------------------------------------- the decisions

  /** The request has room in the cache of some node, as the counters have it. */
  ghost predicate Room(nodes: seq<Node>, c: Cache, r: Request)
    requires Known(nodes, c)
  {
    exists k :: 0 <= k < |nodes| && c.stats[nodes[k].id].used + r.KvBlocksNeeded() <= c.stats[nodes[k].id].total
  }

  /** A REALTIME request is shed when the nodes are more than 85 % busy, with a probability
      that grows to 0.95 at 100 %. */
  ghost predicate Shed(nodes: seq<Node>, r: Request, d: Draw)
    requires Sized(nodes)
  {
    && r.sla.Realtime? && MeanMemory(nodes) <= 0.99
    && MeanCompute(nodes) > 0.85 && d.shed * 0.15 < 0.95 * (MeanCompute(nodes) - 0.85)
  }

  ghost predicate MemoryVeto(nodes: seq<Node>, r: Request)
    requires Sized(nodes)
  {
    (r.sla.Interactive? && MeanMemory(nodes) > 0.95) || (r.sla.Realtime? && MeanMemory(nodes) > 0.99)
  }

  /** The spill-risk model is on and calls the request too risky. */
  predicate Risky(g: Gate, d: Draw) {
    g.useModel && d.risk > 0.85
  }

  lemma ShedMeans(load: real, shed: real)
    ensures shed < 0.95 * ((load - 0.85) / 0.15) <==> shed * 0.15 < 0.95 * (load - 0.85)
  {
    var x := (load - 0.85) / 0.15;
    assert x * 0.15 == load - 0.85;
  }

  /** Exactly when decide gives each of its answers. */
  lemma DecideIff(g: Gate, nodes: seq<Node>, c: Cache, r: Request, d: Draw)
    requires Sized(nodes) && Known(nodes, c)
    ensures var decision := g.Decide(nodes, c, r, d).1;
            var pressure := MeanMemory(nodes);
            var open := !MemoryVeto(nodes, r) && !Shed(nodes, r, d) && pressure < g.memReject;
            var quiet := open && !Risky(g, d) &&
                         (pressure < g.memQueue || (!r.sla.Batch? && MeanCompute(nodes) < g.computeReject));
            && (decision == Reject(LoadShedding) <==> Shed(nodes, r, d))
            && (decision == Reject(MemoryCritical) <==> r.sla.Interactive? && pressure > 0.95)
            && (decision == Reject(OomRisk) <==> r.sla.Realtime? && pressure > 0.99)
            && (decision == Reject(ClusterMemory) <==>
                  !MemoryVeto(nodes, r) && !Shed(nodes, r, d) && pressure >= g.memReject)
            && (decision == Reject(SpillRisk) <==> open && Risky(g, d) && !r.sla.Batch?)
            && (decision == Queue(SpillRisk) <==> open && Risky(g, d) && r.sla.Batch?)
            && (decision == Queue(MemoryPressure) <==>
                  open && !Risky(g, d) && pressure >= g.memQueue && r.sla.Batch?)
            && (decision == Reject(ComputeSaturated) <==>
                  open && !Risky(g, d) && pressure >= g.memQueue && !r.sla.Batch? &&
                  MeanCompute(nodes) >= g.computeReject)
            && (decision == Reject(NoKvHeadroom) <==> quiet && !Room(nodes, c, r) && !r.sla.Batch?)
            && (decision == Queue(NoKvHeadroom) <==> quiet && !Room(nodes, c, r) && r.sla.Batch?)
            && (decision == Accept <==> quiet && Room(nodes, c, r))
  {
    LoadIsMean(nodes);
    PressureIsMean(nodes);
    ShedMeans(ClusterLoad(nodes), d.shed);
    RoomIsHeadroom(nodes, c, r);
    hide ClusterLoad, ClusterPressure, MeanMemory, MeanCompute, HasHeadroom, Room, Known, Sized;
  }

  lemma RoomIsHeadroom(nodes: seq<Node>, c: Cache, r: Request)
    requires Known(nodes, c)
    ensures Room(nodes, c, r) <==> HasHeadroom(nodes, c, r.KvBlocksNeeded())
  {
  }

  /** What each answer does to the counters and the queue. */
  lemma DecideCounts(g: Gate, nodes: seq<Node>, c: Cache, r: Request, d: Draw)
    requires Sized(nodes) && Known(nodes, c)
    ensures var (h, decision) := g.Decide(nodes, c, r, d);
            match decision
            case Accept => h == g.(accepted := g.accepted + 1)
            case Reject(_) => h == g.(rejected := g.rejected + 1)
            case Queue(_) =>
              if |g.queue| < g.maxQueue then h == g.(queue := g.queue + [r], queued := g.queued + 1)
              else h == g.(rejected := g.rejected + 1)
  {
  }

  /** Below the memory thresholds a request of another class than BATCH that is not shed is
      accepted exactly if some node has room and the model does not call it too risky. */
  lemma LowPressureAccepts(g: Gate, nodes: seq<Node>, c: Cache, r: Request, d: Draw)
    requires Sized(nodes) && Known(nodes, c) && !r.sla.Batch? && !Shed(nodes, r, d)
    requires MeanMemory(nodes) < g.memReject && MeanMemory(nodes) < g.memQueue && MeanMemory(nodes) <= 0.95
    ensures g.Decide(nodes, c, r, d).1 == Accept <==> Room(nodes, c, r) && !(g.useModel && d.risk > 0.85)
  {
    DecideIff(g, nodes, c, r, d);
    hide Gate.Decide, Room, Shed;
  }

  // ------------------------------------------------------------------- shedding

  function Running(nodes: seq<Node>): nat {
    if nodes == [] then 0 else nodes[0].active + Running(nodes[1..])
  }

  lemma {:induction false} ComputeBound(nodes: seq<Node>)
    ensures 0.0 <= ComputeInUse(nodes) <= 0.05 * Running(nodes) as real
  {
    if nodes != [] {
      ComputeBound(nodes[1..]);
    }
  }

  /** Shedding needs more than 17 running requests per node, on average. */
  lemma ShedNeedsLoad(nodes: seq<Node>, r: Request, d: Draw)
    requires Sized(nodes) && Shed(nodes, r, d)
    ensures Running(nodes) > 17 * |nodes|
  {
    ComputeBound(nodes);
    MeanAbove(ComputeInUse(nodes), |nodes|, 0.85);
    hide ComputeInUse, Running;
  }

  lemma MeanAbove(sum: real, n: nat, bound: real)
    requires Mean(sum, n) > bound >= 0.0
    ensures n > 0 && sum > bound * n as real
  {
    var mean := Mean(sum, n);
    assert mean * n as real == sum;
    Ordered(bound, mean, n as real);
  }
}
