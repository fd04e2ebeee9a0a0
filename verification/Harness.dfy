/** The replay loop of benchmarks/harness.py with a baseline scheduler: schedule, allocate
    cache blocks, run, free them, complete.  Latencies do not feed back into the state. */
module Harness {
  import opened Models
  import opened BlockPools
  import opened EvictionPolicies
  import opened KVCache
  import opened KVCacheProofs
  import opened KVCacheRuns
  import opened Placement

  /** What is recorded of a request. */
  datatype Outcome = Rejected | Completed(node: string, blocks: nat, hit: bool, spilled: bool)

  datatype Cluster = Cluster(nodes: seq<Node>, cache: Cache, scheduler: Baseline)

  /** The manager was set up for these nodes. */
  ghost predicate PoolsMatch(nodes: seq<Node>, c: Cache) {
    forall k :: 0 <= k < |nodes| ==> c.Serves(nodes[k].id) && c.stats[nodes[k].id].total == nodes[k].kvTotal
  }

  ghost predicate NothingPinned(c: Cache) {
    forall i :: 0 <= i < |c.blocks| ==> !c.blocks[i].pinned
  }

  ghost predicate AllIdle(nodes: seq<Node>) {
    forall k :: 0 <= k < |nodes| ==> nodes[k].Idle()
  }

  /** What the replay needs: a consistent manager that serves the nodes.  Nodes may be busy
      and blocks pinned. */
  ghost predicate Steady(s: Cluster) {
    Inv(s.cache) && Sized(s.nodes) && Known(s.nodes, s.cache) && s.scheduler.Sane(|s.nodes|)
  }

  /** The state between two requests of a replay that began on idle nodes. */
  ghost predicate Between(s: Cluster) {
    && Steady(s) && NothingPinned(s.cache)
    && DistinctIds(s.nodes) && AllIdle(s.nodes) && PoolsMatch(s.nodes, s.cache)
  }

  /** KVCacheManager(nodes): every node is added in turn. */
  function Deploy(c: Cache, nodes: seq<Node>): Cache {
    if nodes == [] then c
    else AddNode(Deploy(c, nodes[..|nodes| - 1]), nodes[|nodes| - 1].id, nodes[|nodes| - 1].kvTotal)
  }

  ghost function IdsOf(nodes: seq<Node>): set<string> {
    set k | 0 <= k < |nodes| :: nodes[k].id
  }

  lemma {:induction false} DeployFacts(c: Cache, nodes: seq<Node>)
    requires Inv(c) && c.stats == map[] && NothingPinned(c) && DistinctIds(nodes)
    ensures var d := Deploy(c, nodes);
            Inv(d) && NothingPinned(d) && PoolsMatch(nodes, d) && d.stats.Keys == IdsOf(nodes)
  {
    hide Inv, AddNode, NothingPinned, PoolsMatch, DistinctIds, IdsOf;
    if nodes == [] {
      NoNodes(c);
    } else {
      DistinctFront(nodes);
      DeployFacts(c, nodes[..|nodes| - 1]);
      DeployOne(Deploy(c, nodes[..|nodes| - 1]), nodes);
    }
  }

  lemma NoNodes(c: Cache)
    requires c.stats == map[]
    ensures PoolsMatch([], c) && c.stats.Keys == IdsOf([])
  {
  }

  lemma DistinctFront(nodes: seq<Node>)
    requires nodes != [] && DistinctIds(nodes)
    ensures DistinctIds(nodes[..|nodes| - 1])
  {
  }

  lemma DeployOne(c: Cache, nodes: seq<Node>)
    requires nodes != [] && DistinctIds(nodes) && Inv(c) && NothingPinned(c)
    requires PoolsMatch(nodes[..|nodes| - 1], c) && c.stats.Keys == IdsOf(nodes[..|nodes| - 1])
    ensures var d := AddNode(c, nodes[|nodes| - 1].id, nodes[|nodes| - 1].kvTotal);
            Inv(d) && NothingPinned(d) && PoolsMatch(nodes, d) && d.stats.Keys == IdsOf(nodes)
  {
    var n := |nodes| - 1;
    var node := nodes[n];
    hide Inv, NothingPinned, AddNode;
    assert !c.Serves(node.id);
    AddNodeKeepsInv(c, node.id, node.kvTotal);
    AddedUnpinned(c, node.id, node.kvTotal);
    assert IdsOf(nodes) == IdsOf(nodes[..n]) + {node.id};
    assert forall k :: 0 <= k < n ==> nodes[..n][k] == nodes[k];
  }

  lemma AddedUnpinned(c: Cache, node: string, total: nat)
    requires NothingPinned(c)
    ensures NothingPinned(AddNode(c, node, total))
  {
    AddBlocksSpec(c, node, total);
    forall i | 0 <= i < |c.blocks|
      ensures AddBlocks(c, node, total).blocks[i] == c.blocks[i]
    {
      AddBlocksKeep(c, node, total, i);
    }
  }

  /** A freshly built cluster is in the state between two requests: idle nodes with distinct
      ids, a manager set up for them under any policy, and any baseline. */
  lemma FreshIsBetween(nodes: seq<Node>, scheduler: Baseline, blockSize: nat, policy: Policy, read: nat -> real,
                       tick: nat)
    requires blockSize > 0 && Sized(nodes) && DistinctIds(nodes) && AllIdle(nodes) && scheduler.Sane(|nodes|)
    ensures Between(Cluster(nodes, Deploy(Empty(blockSize, policy, read, tick), nodes), scheduler))
  {
    EmptyInv(blockSize, policy, read, tick);
    DeployFacts(Empty(blockSize, policy, read, tick), nodes);
  }

  /** One round of the loop. */
  ghost function Replay1(s: Cluster, r: Request): (Cluster, Outcome)
    requires Steady(s)
  {
    BaselinesConserveWork(s.scheduler, s.nodes, r);
    var (scheduler, choice) := Choose(s.scheduler, s.nodes, r);
    match choice
    case None => (s.(scheduler := scheduler), Rejected)
    case Some(k) =>
      var n := s.nodes[k];
      InvIndexInPool(s.cache);
      var placed := n.Allocate(r.KvBlocksNeeded(), r.EstimatedMemoryGb());
      var a := KVCache.Allocate(s.cache, n.id, r);
      AllocateHandsOut(s.cache, n.id, r);
      HandedOutInPool(a, n.id, r);
      var cache := Free(a.cache, n.id, a.Blocks(), true);
      var released := placed.Release(r.KvBlocksNeeded(), r.EstimatedMemoryGb());
      (Cluster(s.nodes[k := released], cache, scheduler),
       Completed(n.id, |a.Blocks()|, a.Hit(), |a.Blocks()| < r.KvBlocksNeeded()))
  }

  lemma HandedOutInPool(a: Allocation, node: string, r: Request)
    requires HandedOut(a, node, r.prefixHash)
    ensures InPool(a.cache, a.Blocks())
  {
    forall j | 0 <= j < |a.Blocks()|
      ensures a.Blocks()[j] < |a.cache.blocks|
    {
      if j < |a.reused| {
        assert a.Blocks()[j] in a.reused;
      } else {
        assert a.Blocks()[j] in a.taken;
      }
      assert GoodBlock(a.cache, a.Blocks()[j], node, r.prefixHash);
    }
  }

  // ------------------------------------------------------------ one request

  /** What one recorded outcome tells about its request. */
  ghost predicate Faithful(nodes: seq<Node>, r: Request, o: Outcome) {
    && (o.Rejected? <==> !SomeFits(nodes, r))
    && (o.Completed? ==> !o.spilled && o.blocks >= r.KvBlocksNeeded())
  }

  ghost predicate SameSpills(nodes: seq<Node>, c: Cache, d: Cache)
    requires PoolsMatch(nodes, c) && PoolsMatch(nodes, d)
  {
    forall k :: 0 <= k < |nodes| ==> d.stats[nodes[k].id].spills == c.stats[nodes[k].id].spills
  }

  /** Releasing right after allocating gives an idle node back as it was. */
  lemma RoundTrip(n: Node, blocks: nat, memory: real)
    requires n.Idle() && memory >= 0.0
    ensures n.Allocate(blocks, memory).Release(blocks, memory) == n
  {
  }

  /** With nothing pinned, a request that the node's pool can hold at all never spills. */
  lemma NoSpill(c: Cache, node: string, r: Request)
    requires Inv(c) && Allocatable(c, node) && NothingPinned(c)
    ensures |KVCache.Allocate(c, node, r).Blocks()| < r.KvBlocksNeeded() <==> c.stats[node].total < r.KvBlocksNeeded()
  {
    SpillMeansAllPinned(c, node, r);
    ReusedSpec(c, node, r);
    InvCounts(c, node);
    RemainingCount(c, node, Reused(c, node, r));
    hide Inv, AfterEviction, Taken, Finish, Remaining;
  }

  lemma InvCounts(c: Cache, node: string)
    requires Inv(c) && c.Serves(node)
    ensures CountOk(c, node)
  {
  }

  lemma RemainingCount(c: Cache, node: string, reused: seq<nat>)
    requires NothingPinned(c) && NoDup(reused)
    requires forall i :: i in reused ==> i < |c.blocks| && Is(c.blocks[i], node, Live)
    ensures |reused| + |Remaining(c, node, reused)| == |Ids(c.blocks, node, Any)|
  {
    var all := Ids(c.blocks, node, Any);
    NoDupCount(reused);
    assert Ids(c.blocks, node, Unpinned) == all;
    assert Elems(reused) <= all;
    assert |all - Elems(reused)| == |all| - |Elems(reused)|;
  }

  lemma FreedKeepsInv(c: Cache, node: string, r: Request)
    requires Inv(c) && Allocatable(c, node)
    ensures var a := KVCache.Allocate(c, node, r);
            && InPool(a.cache, a.Blocks()) && a.cache.Serves(node)
            && Inv(Free(a.cache, node, a.Blocks(), true))
  {
    hide Inv, KVCache.Allocate, HandedOut, ReleaseAll;
    var a := KVCache.Allocate(c, node, r);
    AllocateHandsOut(c, node, r);
    HandedOutInPool(a, node, r);
    AllocateKeepsInv(c, node, r);
    AllocateStats(c, node, r, node);
    ReleaseAllSpec(a.cache, node, a.Blocks());
    RepinnedKeepsInv(a.cache, Free(a.cache, node, a.Blocks(), true), a.Blocks(), false);
  }

  /** After the free, nothing is pinned again. */
  lemma FreedUnpins(c: Cache, node: string, r: Request)
    requires Inv(c) && Allocatable(c, node) && NothingPinned(c)
    ensures var a := KVCache.Allocate(c, node, r);
            && InPool(a.cache, a.Blocks()) && a.cache.Serves(node)
            && Inv(Free(a.cache, node, a.Blocks(), true)) && NothingPinned(Free(a.cache, node, a.Blocks(), true))
  {
    FreedKeepsInv(c, node, r);
    var a := KVCache.Allocate(c, node, r);
    var gone := AllocateServed(c, node, r);
    ServedPins(c, a, node, r, gone);
    ReleaseAllSpec(a.cache, node, a.Blocks());
    RepinnedUnpins(a.cache, Free(a.cache, node, a.Blocks(), true), a.Blocks());
  }

  lemma ServedPins(c: Cache, a: Allocation, node: string, r: Request, gone: set<nat>)
    requires Served(c, a, node, r, gone) && NothingPinned(c)
    ensures forall i :: 0 <= i < |a.cache.blocks| && a.cache.blocks[i].pinned ==> i in a.Blocks()
  {
    hide IndexLess, StatsServed, SameKind;
    forall i | 0 <= i < |a.cache.blocks| && a.cache.blocks[i].pinned
      ensures i in a.Blocks()
    {
      assert i in a.taken || i in a.reused;
    }
  }

  lemma RepinnedUnpins(c: Cache, d: Cache, ids: seq<nat>)
    requires Repinned(c, d, ids, false)
    requires forall i :: 0 <= i < |c.blocks| && c.blocks[i].pinned ==> i in ids
    ensures NothingPinned(d)
  {
  }

  lemma AllocateStats(c: Cache, node: string, r: Request, other: string)
    requires Inv(c) && Allocatable(c, node) && c.Serves(other)
    ensures var d := KVCache.Allocate(c, node, r).cache;
            && d.Serves(other) && d.Serves(node) && d.stats[other].total == c.stats[other].total
            && (other != node ==> d.stats[other] == c.stats[other])
  {
    var gone := AllocateServed(c, node, r);
  }

  lemma StatsThrough(c: Cache, node: string, r: Request, other: string)
    requires Inv(c) && Allocatable(c, node) && c.Serves(other)
    ensures var a := KVCache.Allocate(c, node, r);
            && InPool(a.cache, a.Blocks()) && a.cache.Serves(node)
            && var d := Free(a.cache, node, a.Blocks(), true);
               d.Serves(other) && d.stats[other].total == c.stats[other].total && d.stats[other].spills ==
               c.stats[other].spills + (if other == node && |a.Blocks()| < r.KvBlocksNeeded() then 1 else 0)
  {
    var a := KVCache.Allocate(c, node, r);
    AllocateHandsOut(c, node, r);
    HandedOutInPool(a, node, r);
    AllocateStats(c, node, r, other);
    SpillMeansAllPinned(c, node, r);
    ReleaseAllSpec(a.cache, node, a.Blocks());
    hide KVCache.Allocate, Inv, Repinned, HandedOut, Remaining;
  }

  /** A request finds an idle cluster and leaves it idle: every node is exactly as it was and
      nothing stays pinned.  It is rejected exactly when no idle node can hold it, and if it is
      accepted it does not spill. */
  lemma ReplayRound(s: Cluster, r: Request)
    requires Between(s)
    ensures var (t, o) := Replay1(s, r);
            && Between(t) && t.nodes == s.nodes && Faithful(s.nodes, r, o) && SameSpills(s.nodes, s.cache, t.cache)
  {
    BaselinesConserveWork(s.scheduler, s.nodes, r);
    var (scheduler, choice) := Choose(s.scheduler, s.nodes, r);
    if choice.Some? {
      var k := choice.value;
      var n := s.nodes[k];
      InvIndexInPool(s.cache);
      RoundTrip(n, r.KvBlocksNeeded(), r.EstimatedMemoryGb());
      assert s.nodes[k := n] == s.nodes;
      NoSpill(s.cache, n.id, r);
      FreedUnpins(s.cache, n.id, r);
      forall j | 0 <= j < |s.nodes|
        ensures var a := KVCache.Allocate(s.cache, n.id, r);
                var d := Free(a.cache, n.id, a.Blocks(), true);
                d.Serves(s.nodes[j].id) && d.stats[s.nodes[j].id].total == s.nodes[j].kvTotal
                && d.stats[s.nodes[j].id].spills == s.cache.stats[s.nodes[j].id].spills
      {
        StatsThrough(s.cache, n.id, r, s.nodes[j].id);
      }
    }
  }

  // ------------------------------------------------------------- whole runs

  /** One round from any state that the manager serves. */
  lemma RoundKeepsSteady(s: Cluster, r: Request)
    requires Steady(s)
    ensures Steady(Replay1(s, r).0) && |Replay1(s, r).0.nodes| == |s.nodes|
  {
    hide Inv, KVCache.Allocate, Free, Choose, SomeFits, Sized, Known, Node.Allocate, Node.Release, Node.Fits,
         IndexInPool, Numbered;
    BaselinesConserveWork(s.scheduler, s.nodes, r);
    var (scheduler, choice) := Choose(s.scheduler, s.nodes, r);
    if choice.Some? {
      var n := s.nodes[choice.value];
      KnownNode(s.nodes, s.cache, choice.value);
      InvIndexInPool(s.cache);
      InvNumbered(s.cache);
      RoundKeepsKnown(s.cache, n.id, r, s.nodes);
      var a := KVCache.Allocate(s.cache, n.id, r);
      NodeReplaced(s.nodes, choice.value, r, Free(a.cache, n.id, a.Blocks(), true));
    }
  }

  lemma KnownNode(nodes: seq<Node>, c: Cache, k: nat)
    requires Known(nodes, c) && k < |nodes| && Inv(c)
    ensures c.Serves(nodes[k].id) && Allocatable(c, nodes[k].id)
  {
    InvIndexInPool(c);
  }

  lemma RoundKeepsKnown(c: Cache, node: string, r: Request, nodes: seq<Node>)
    requires Inv(c) && Allocatable(c, node) && Known(nodes, c)
    ensures var a := KVCache.Allocate(c, node, r);
            && InPool(a.cache, a.Blocks()) && a.cache.Serves(node)
            && Inv(Free(a.cache, node, a.Blocks(), true)) && Known(nodes, Free(a.cache, node, a.Blocks(), true))
  {
    FreedKeepsInv(c, node, r);
    hide Inv, KVCache.Allocate, Free;
    var a := KVCache.Allocate(c, node, r);
    forall j | 0 <= j < |nodes|
      ensures Free(a.cache, node, a.Blocks(), true).Serves(nodes[j].id)
    {
      StatsThrough(c, node, r, nodes[j].id);
    }
  }

  lemma NodeReplaced(nodes: seq<Node>, k: nat, r: Request, c: Cache)
    requires k < |nodes| && Sized(nodes) && Known(nodes, c)
    ensures var placed := nodes[k].Allocate(r.KvBlocksNeeded(), r.EstimatedMemoryGb());
            var after := nodes[k := placed.Release(r.KvBlocksNeeded(), r.EstimatedMemoryGb())];
            Sized(after) && Known(after, c)
  {
  }

  ghost function Replay(s: Cluster, trace: seq<Request>): (result: (Cluster, seq<Outcome>))
    requires Steady(s)
    ensures Steady(result.0) && |result.0.nodes| == |s.nodes| && |result.1| == |trace|
    decreases |trace|
  {
    if trace == [] then (s, [])
    else
      var n := |trace| - 1;
      var (t, done) := Replay(s, trace[..n]);
      RoundKeepsSteady(t, trace[n]);
      var (u, o) := Replay1(t, trace[n]);
      (u, done + [o])
  }

  /** For every trace and every baseline: between requests all nodes are idle and nothing is
      pinned; a request is rejected exactly when no idle node can hold it; no accepted request
      ever spills. */
  lemma {:induction false} BaselinesNeverSpill(s: Cluster, trace: seq<Request>)
    requires Between(s)
    ensures var (t, outcomes) := Replay(s, trace);
            && Between(t) && t.nodes == s.nodes
            && (forall i :: 0 <= i < |trace| ==> Faithful(s.nodes, trace[i], outcomes[i]))
            && SameSpills(s.nodes, s.cache, t.cache)
    decreases |trace|
  {
    hide Replay1, Inv, SomeFits;
    if trace != [] {
      var n := |trace| - 1;
      var (t, done) := Replay(s, trace[..n]);
      BaselinesNeverSpill(s, trace[..n]);
      ReplayRound(t, trace[n]);
      assert forall i :: 0 <= i < n ==> trace[..n][i] == trace[i];
    }
  }

  // --------------------------------------------------- the record and the counters

  /** An outcome counts as a hit or as a miss of a node. */
  predicate CountsAs(o: Outcome, node: string, hit: bool) {
    o.Completed? && o.node == node && o.hit == hit
  }

  ghost predicate MovesCounters(c: Cache, d: Cache, o: Outcome, node: string) {
    && c.Serves(node) && d.Serves(node)
    && d.stats[node].hits == c.stats[node].hits + (if CountsAs(o, node, true) then 1 else 0)
    && d.stats[node].misses == c.stats[node].misses + (if CountsAs(o, node, false) then 1 else 0)
    && d.stats[node].spills == c.stats[node].spills + (if o.Completed? && o.node == node && o.spilled then 1 else 0)
  }

  lemma AllocateMovesCounters(c: Cache, n: string, r: Request, node: string)
    requires Inv(c) && Allocatable(c, n) && c.Serves(node)
    ensures var a := KVCache.Allocate(c, n, r);
            && InPool(a.cache, a.Blocks()) && a.cache.Serves(n)
            && MovesCounters(c, Free(a.cache, n, a.Blocks(), true),
                        Completed(n, |a.Blocks()|, a.Hit(), |a.Blocks()| < r.KvBlocksNeeded()), node)
  {
    hide Inv, KVCache.Allocate, ReleaseAll, Repinned, HandedOut, Allocation.Hit;
    var a := KVCache.Allocate(c, n, r);
    StepCounts(c, AllocateOp(n, r), node);
    AllocateHandsOut(c, n, r);
    HandedOutInPool(a, n, r);
    AllocateStats(c, n, r, node);
    ReleaseAllSpec(a.cache, n, a.Blocks());
  }

  /** What a round records is what the manager counts: the chosen node gains one hit or one miss
      as reported, and a spill if one is reported; it got fewer blocks then than it asked for. */
  lemma RoundMovesCounters(s: Cluster, r: Request, node: string)
    requires Steady(s) && s.cache.Serves(node)
    ensures var (t, o) := Replay1(s, r);
            && MovesCounters(s.cache, t.cache, o, node)
            && (o.Completed? ==>
                  && (var choice := Choose(s.scheduler, s.nodes, r).1;
                      choice.Some? && choice.value < |s.nodes| && o.node == s.nodes[choice.value].id)
                  && (o.spilled <==> o.blocks < r.KvBlocksNeeded()))
  {
    hide Inv, KVCache.Allocate, Free, Choose, SomeFits, Sized, Known, Node.Fits, IndexInPool, Numbered, Allocation.Hit;
    BaselinesConserveWork(s.scheduler, s.nodes, r);
    var choice := Choose(s.scheduler, s.nodes, r).1;
    if choice.Some? {
      KnownNode(s.nodes, s.cache, choice.value);
      AllocateMovesCounters(s.cache, s.nodes[choice.value].id, r, node);
    }
  }

  /** How many outcomes of a replay count as a hit or as a miss of a node. */
  ghost function Reported(outcomes: seq<Outcome>, node: string, hit: bool): nat {
    if outcomes == [] then 0
    else Reported(outcomes[..|outcomes| - 1], node, hit)
         + (if CountsAs(outcomes[|outcomes| - 1], node, hit) then 1 else 0)
  }

  /** Over every replay, from busy nodes as well, the outcomes report the hits and the misses that
      the manager has counted on each node. */
  lemma {:induction false} ReplayReportsCounters(s: Cluster, trace: seq<Request>, node: string)
    requires Steady(s) && s.cache.Serves(node)
    ensures var (t, outcomes) := Replay(s, trace);
            && t.cache.Serves(node)
            && t.cache.stats[node].hits == s.cache.stats[node].hits + Reported(outcomes, node, true)
            && t.cache.stats[node].misses == s.cache.stats[node].misses + Reported(outcomes, node, false)
    decreases |trace|
  {
    hide Replay1, Inv, CountsAs, Steady;
    if trace != [] {
      var n := |trace| - 1;
      ReplayReportsCounters(s, trace[..n], node);
      var (t, done) := Replay(s, trace[..n]);
      RoundMovesCounters(t, trace[n], node);
      var o := Replay1(t, trace[n]).1;
      assert (done + [o])[..|done|] == done;
    }
  }

  /** On nodes with a derived pool the memory test adds nothing: rejected means larger than
      every node's whole KV pool. */
  lemma RejectedMeansTooBig(nodes: seq<Node>, r: Request)
    requires AllIdle(nodes) && forall k :: 0 <= k < |nodes| ==> nodes[k].KvWithinShare()
    ensures SomeFits(nodes, r) <==> exists k :: 0 <= k < |nodes| && r.KvBlocksNeeded() <= nodes[k].kvTotal
  {
    forall k | 0 <= k < |nodes|
      ensures nodes[k].Fits(r) <==> r.KvBlocksNeeded() <= nodes[k].kvTotal
    {
      var n := nodes[k];
      assert n.Idle() && n.KvWithinShare();
    }
  }

  /** End to end: on fresh nodes with derived pools, over any trace, a request is rejected
      exactly when it is larger than every node's whole pool, and nothing ever spills. */
  lemma FreshClustersNeverSpill(nodes: seq<Node>, scheduler: Baseline, blockSize: nat, policy: Policy,
                                read: nat -> real,
                                tick: nat, trace: seq<Request>)
    requires blockSize > 0 && DistinctIds(nodes) && AllIdle(nodes) && scheduler.Sane(|nodes|)
    requires forall k :: 0 <= k < |nodes| ==> nodes[k].KvWithinShare()
    ensures Sized(nodes)
    ensures var s := Cluster(nodes, Deploy(Empty(blockSize, policy, read, tick), nodes), scheduler);
            && Between(s)
            && var (t, outcomes) := Replay(s, trace);
               && AllIdle(t.nodes) && NothingPinned(t.cache) && PoolsMatch(nodes, t.cache)
               && (forall k :: 0 <= k < |nodes| ==> t.cache.stats[nodes[k].id].spills == 0)
               && forall i :: 0 <= i < |trace| ==>
                    (outcomes[i].Rejected? <==> forall k :: 0 <= k < |nodes| ==>
                      trace[i].KvBlocksNeeded() > nodes[k].kvTotal)
  {
    FreshIsBetween(nodes, scheduler, blockSize, policy, read, tick);
    var s := Cluster(nodes, Deploy(Empty(blockSize, policy, read, tick), nodes), scheduler);
    BaselinesNeverSpill(s, trace);
    DeployCounts(Empty(blockSize, policy, read, tick), nodes);
    forall i | 0 <= i < |trace|
      ensures Replay(s, trace).1[i].Rejected? <==> forall k :: 0 <= k < |nodes| ==>
                trace[i].KvBlocksNeeded() > nodes[k].kvTotal
    {
      RejectedMeansTooBig(nodes, trace[i]);
    }
  }

  lemma {:induction false} DeployCounts(c: Cache, nodes: seq<Node>)
    requires DistinctIds(nodes)
    ensures forall k :: 0 <= k < |nodes| ==>
              nodes[k].id in Deploy(c, nodes).stats && Deploy(c, nodes).stats[nodes[k].id].spills == 0
  {
    if nodes != [] {
      var n := |nodes| - 1;
      DeployCounts(c, nodes[..n]);
      forall k | 0 <= k < n
        ensures nodes[k] == nodes[..n][k] && nodes[k].id != nodes[n].id
      {
      }
    }
  }
}
