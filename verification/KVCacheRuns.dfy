/** What holds of the KV cache manager over every run of its operations. */
module KVCacheRuns {
  import opened Models
  import opened EvictionPolicies
  import opened BlockPools
  import opened KVCache
  import opened KVCacheProofs

  // ----------------------------------------------------------- construction

  lemma {:induction false} AddBlocksSpec(c: Cache, node: string, n: nat)
    ensures var d := AddBlocks(c, node, n);
            && |d.blocks| == |c.blocks| + n && d.blocks[..|c.blocks|] == c.blocks
            && (forall i :: |c.blocks| <= i < |d.blocks| ==>
                  d.blocks[i] == Block(i, node, 0, None, d.blocks[i].last, false))
  {
    if n != 0 {
      AddBlocksSpec(c, node, n - 1);
    }
  }

  lemma EmptyInv(blockSize: nat, policy: Policy, read: nat -> real, tick: nat)
    requires blockSize > 0
    ensures Inv(Empty(blockSize, policy, read, tick))
  {
  }

  lemma FreshRange(bs: seq<Block>, lo: nat, node: string)
    requires lo <= |bs| && (forall i :: 0 <= i < lo ==> bs[i].node != node)
    requires forall i :: lo <= i < |bs| ==> bs[i].node == node
    ensures |Ids(bs, node, Any)| == |bs| - lo
    decreases |bs|
  {
    if |bs| == lo {
      assert Ids(bs, node, Any) == {};
    } else {
      var n := |bs| - 1;
      FreshRange(bs[..n], lo, node);
      assert Ids(bs, node, Any) == Ids(bs[..n], node, Any) + {n};
    }
  }

  /** Adding a node the manager does not know yet keeps the invariant. */
  lemma AddNodeKeepsInv(c: Cache, node: string, total: nat)
    requires Inv(c) && !c.Serves(node)
    ensures Inv(AddNode(c, node, total))
    ensures AddNode(c, node, total).stats == c.stats[node := Stats(total, 0, 0, 0, 0, 0)]
    ensures Ids(AddNode(c, node, total).blocks, node, Pinned) == {}
  {
    var d := AddNode(c, node, total);
    AddBlocksSpec(c, node, total);
    hide AddBlocks;
    forall i | 0 <= i < |c.blocks|
      ensures d.blocks[i] == c.blocks[i] && d.blocks[i].node != node
    {
      assert BlockOk(c, i) && d.blocks[..|c.blocks|][i] == d.blocks[i];
    }
    forall i | 0 <= i < |d.blocks|
      ensures BlockOk(d, i) && d.blocks[i].id == i
    {
      if i < |c.blocks| {
        assert BlockOk(c, i);
      }
    }
    forall h | h in d.index
      ensures EntryOk(d, h)
    {
      assert EntryOk(c, h);
    }
    forall n | n in d.stats
      ensures CountOk(d, n)
    {
      if n == node {
        FreshRange(d.blocks, |c.blocks|, node);
        assert Ids(d.blocks, n, Live) == {};
      } else {
        assert CountOk(c, n);
        assert Ids(d.blocks, n, Live) == Ids(c.blocks, n, Live);
        assert Ids(d.blocks, n, Any) == Ids(c.blocks, n, Any);
      }
    }
  }

  // ------------------------------------------------------------- every step

  lemma ApplyKeepsInv(c: Cache, op: Op)
    requires Inv(c) && IndexInPool(c) && Callable(c, op)
    ensures Inv(Apply(c, op)) && IndexInPool(Apply(c, op))
    ensures |c.blocks| <= |Apply(c, op).blocks| && c.stats.Keys <= Apply(c, op).stats.Keys
  {
    match op {
      case AllocateOp(node, r) =>
        AllocateKeepsInv(c, node, r);
        var gone := AllocateServed(c, node, r);
      case FreeOp(node, ids) =>
        ReleaseAllSpec(c, node, ids);
        RepinnedKeepsInv(c, ReleaseAll(c, node, ids, true), ids, false);
      case ForceEvictOp(node, n) =>
        var gone := MaybeEvictSpec(c, node, n);
      case AddNodeOp(node, total) =>
        AddNodeKeepsInv(c, node, total);
        AddBlocksSpec(c, node, total);
    }
    InvIndexInPool(Apply(c, op));
  }

  /** The state after a run, if every operation is applicable where it comes.  That this is
      consistent is the safety theorem: the index and the counters agree with the pool after
      every operation. */
  ghost function TryRun(c: Cache, ops: seq<Op>): (d: Option<Cache>)
    requires Inv(c)
    ensures d.Some? ==> Inv(d.value) && |c.blocks| <= |d.value.blocks| && c.stats.Keys <= d.value.stats.Keys
    decreases |ops|
  {
    if ops == [] then Some(c)
    else
      var n := |ops| - 1;
      match TryRun(c, ops[..n])
      case None => None
      case Some(s) =>
        InvIndexInPool(s);
        if Callable(s, ops[n]) then
          ApplyKeepsInv(s, ops[n]);
          Some(Apply(s, ops[n]))
        else None
  }

  ghost predicate Runnable(c: Cache, ops: seq<Op>) {
    Inv(c) && TryRun(c, ops).Some?
  }

  ghost function Run(c: Cache, ops: seq<Op>): (d: Cache)
    requires Runnable(c, ops)
    ensures Inv(d) && |c.blocks| <= |d.blocks| && c.stats.Keys <= d.stats.Keys
  {
    TryRun(c, ops).value
  }

  /** The state before operation `k` of a run, and that the operation is applicable there. */
  lemma {:induction false} StateAt(c: Cache, ops: seq<Op>, k: nat)
    requires Runnable(c, ops) && k < |ops|
    ensures Runnable(c, ops[..k]) && Runnable(c, ops[..k + 1])
    ensures var s := Run(c, ops[..k]);
            IndexInPool(s) && Callable(s, ops[k]) && Run(c, ops[..k + 1]) == Apply(s, ops[k])
    decreases |ops|
  {
    var n := |ops| - 1;
    hide Inv, Apply, Callable;
    if k == n {
      assert ops[..n + 1] == ops;
      InvIndexInPool(Run(c, ops[..n]));
    } else {
      assert ops[..n][..k] == ops[..k] && ops[..n][..k + 1] == ops[..k + 1];
      StateAt(c, ops[..n], k);
    }
  }

  // ----------------------------------------------------------- conservation

  /** The fresh blocks of a node that one operation hands out. */
  ghost function FreshOf(c: Cache, op: Op, node: string): nat
    requires Inv(c) && Callable(c, op)
  {
    InvIndexInPool(c);
    if op.AllocateOp? && op.node == node then |Taken(c, node, op.request)| else 0
  }

  /** How many fresh blocks of a node a run handed out. */
  ghost function HandedOutFresh(c: Cache, ops: seq<Op>, node: string): nat
    requires Runnable(c, ops)
    decreases |ops|
  {
    if ops == [] then 0
    else
      var n := |ops| - 1;
      HandedOutFresh(c, ops[..n], node) + FreshOf(Run(c, ops[..n]), ops[n], node)
  }

  lemma StepConserves(c: Cache, op: Op, node: string)
    requires Inv(c) && IndexInPool(c) && Callable(c, op) && c.Serves(node)
    ensures var d := Apply(c, op);
            && d.Serves(node)
            && d.stats[node].used + d.stats[node].evictions == c.stats[node].used + c.stats[node].evictions
               + FreshOf(c, op, node)
            && (!op.ForceEvictOp? ==> d.FreeBlocks(node) <= c.FreeBlocks(node))
  {
    match op {
      case AllocateOp(m, r) =>
        var gone := AllocateServed(c, m, r);
        if m == node {
          AllocateNeverFrees(c, m, r, gone);
        }
      case FreeOp(m, ids) =>
        ReleaseAllSpec(c, m, ids);
      case ForceEvictOp(m, n) =>
        var gone := MaybeEvictSpec(c, m, n);
      case AddNodeOp(m, total) =>
        AddBlocksSpec(c, m, total);
    }
  }

  /** allocate evicts only what it then takes, so it never lowers used_blocks. */
  lemma AllocateNeverFrees(c: Cache, node: string, r: Request, gone: set<nat>)
    requires Inv(c) && Allocatable(c, node)
    requires |gone| == ToEvict(AfterLookup(c, node, r), node, Shortfall(c, node, r))
    ensures |gone| <= |Taken(c, node, r)|
  {
    var g := EvictionSpec(c, node, r);
    TakenSpec(c, node, r);
    VacantAfter(AfterLookup(c, node, r), AfterEviction(c, node, r), node, g);
  }

  /** Over every run, the fresh blocks handed out are those in use plus those evicted since. */
  lemma {:induction false} FreshIsUsedPlusEvicted(c: Cache, ops: seq<Op>, node: string)
    requires Runnable(c, ops) && c.Serves(node)
    ensures var d := Run(c, ops);
            d.stats[node].used + d.stats[node].evictions
            == c.stats[node].used + c.stats[node].evictions + HandedOutFresh(c, ops, node)
    decreases |ops|
  {
    hide Inv, Apply, Callable;
    if ops != [] {
      var n := |ops| - 1;
      FreshIsUsedPlusEvicted(c, ops[..n], node);
      var s, d := LastStep(c, ops);
      StepConserves(s, ops[n], node);
      assert HandedOutFresh(c, ops, node) == HandedOutFresh(c, ops[..n], node) + FreshOf(s, ops[n], node);
    }
  }

  lemma LastStep(c: Cache, ops: seq<Op>) returns (s: Cache, d: Cache)
    requires Runnable(c, ops) && ops != []
    ensures var n := |ops| - 1;
            && Runnable(c, ops[..n]) && s == Run(c, ops[..n]) && d == Run(c, ops)
            && Inv(s) && IndexInPool(s) && Callable(s, ops[n]) && d == Apply(s, ops[n])
  {
    var n := |ops| - 1;
    StateAt(c, ops, n);
    assert ops[..n + 1] == ops;
    s, d := Run(c, ops[..n]), Run(c, ops);
  }

  /** How one operation moves the counters that nothing else reads: an allocate is one hit if it
      reports a hit and else one miss, and one spill if it returns too few blocks. */
  lemma StepCounts(c: Cache, op: Op, node: string)
    requires Inv(c) && IndexInPool(c) && Callable(c, op) && c.Serves(node)
    ensures var d, counted := Apply(c, op), op.AllocateOp? && op.node == node;
            && d.Serves(node)
            && (counted ==>
                  var a := KVCache.Allocate(c, node, op.request);
                  && d.stats[node].hits == c.stats[node].hits + (if a.Hit() then 1 else 0)
                  && d.stats[node].misses == c.stats[node].misses + (if a.Hit() then 0 else 1)
                  && d.stats[node].spills ==
                     c.stats[node].spills + (if |a.Blocks()| < op.request.KvBlocksNeeded() then 1 else 0))
            && (!counted ==>
                  && d.stats[node].hits == c.stats[node].hits && d.stats[node].misses == c.stats[node].misses
                  && d.stats[node].spills == c.stats[node].spills)
  {
    hide KVCache.Allocate, ReleaseAll, MaybeEvict, IndexLess, SameKind, RanksKept, Taken, Reused, BlocksServed;
    if op.node != node {
      StepStatsLocal(c, op, node);
    } else {
      match op {
        case AllocateOp(m, r) =>
          var gone := AllocateServed(c, m, r);
        case FreeOp(m, ids) =>
          ReleaseAllSpec(c, m, ids);
        case ForceEvictOp(m, n) =>
          var gone := MaybeEvictSpec(c, m, n);
        case AddNodeOp(m, total) =>
      }
    }
  }

  /** How many allocates of a run on a node reported a hit, or (if not `hit`) a miss. */
  ghost function Lookups(c: Cache, ops: seq<Op>, node: string, hit: bool): nat
    requires Runnable(c, ops)
    decreases |ops|
  {
    if ops == [] then 0
    else
      var n := |ops| - 1;
      StateAt(c, ops, n);
      Lookups(c, ops[..n], node, hit) +
      (if ops[n].AllocateOp? && ops[n].node == node
          && KVCache.Allocate(Run(c, ops[..n]), node, ops[n].request).Hit() == hit
       then 1 else 0)
  }

  /** Over every run the hit and miss counters of a node count the answers that callers got. */
  lemma {:induction false} CountersCountAnswers(c: Cache, ops: seq<Op>, node: string)
    requires Runnable(c, ops) && c.Serves(node)
    ensures var d := Run(c, ops);
            && d.stats[node].hits == c.stats[node].hits + Lookups(c, ops, node, true)
            && d.stats[node].misses == c.stats[node].misses + Lookups(c, ops, node, false)
    decreases |ops|
  {
    hide Inv, Apply, Callable, KVCache.Allocate;
    if ops != [] {
      var n := |ops| - 1;
      CountersCountAnswers(c, ops[..n], node);
      var s, d := LastStep(c, ops);
      StepCounts(s, ops[n], node);
    }
  }

  /** Without force_evict, the headroom that admission control reads never grows back:
      freeing keeps blocks cached, and allocate evicts no more than it takes. */
  lemma {:induction false} HeadroomNeverGrows(c: Cache, ops: seq<Op>, node: string)
    requires Runnable(c, ops) && c.Serves(node)
    requires forall k :: 0 <= k < |ops| ==> !ops[k].ForceEvictOp?
    ensures Run(c, ops).FreeBlocks(node) <= c.FreeBlocks(node)
    decreases |ops|
  {
    hide Inv, Apply, Callable;
    if ops != [] {
      var n := |ops| - 1;
      HeadroomNeverGrows(c, ops[..n], node);
      var s, d := LastStep(c, ops);
      StepConserves(s, ops[n], node);
    }
  }

  // --------------------------------------------------------- pins and frames

  ghost predicate SameButTime(b: Block, d: Block) {
    d == b.(last := d.last)
  }

  lemma AddBlocksKeep(c: Cache, node: string, n: nat, i: nat)
    requires i < |c.blocks|
    ensures i < |AddBlocks(c, node, n).blocks| && AddBlocks(c, node, n).blocks[i] == c.blocks[i]
  {
    AddBlocksSpec(c, node, n);
    assert AddBlocks(c, node, n).blocks[..|c.blocks|][i] == c.blocks[i];
  }

  lemma PinnedNotTaken(c: Cache, a: Allocation, node: string, r: Request, gone: set<nat>, i: nat)
    requires Served(c, a, node, r, gone) && i < |c.blocks| && c.blocks[i].pinned
    ensures i !in a.taken && i < |a.cache.blocks| && SameButTime(c.blocks[i], a.cache.blocks[i])
  {
    hide IndexLess, StatsServed, SameKind;
    assert i !in Ids(c.blocks, node, Vacant) && i !in Ids(c.blocks, node, Candidate);
  }

  /** A pinned block that is not freed keeps everything but its time, and is not taken as fresh. */
  lemma StepKeepsPin(c: Cache, op: Op, i: nat)
    requires Inv(c) && IndexInPool(c) && Callable(c, op)
    requires i < |c.blocks| && c.blocks[i].pinned && (op.FreeOp? ==> i !in op.ids)
    ensures i < |Apply(c, op).blocks| && SameButTime(c.blocks[i], Apply(c, op).blocks[i])
    ensures op.AllocateOp? ==> i !in Taken(c, op.node, op.request)
  {
    assert BlockOk(c, i);
    hide KVCache.Allocate, ReleaseAll, MaybeEvict, IndexLess, SameKind, RanksKept, Taken, Reused, AfterLookup,
         LeastRanked, ToEvict, StatsServed;
    match op {
      case AllocateOp(m, r) =>
        var gone := AllocateServed(c, m, r);
        PinnedNotTaken(c, KVCache.Allocate(c, m, r), m, r, gone, i);
      case FreeOp(m, ids) =>
        ReleaseAllSpec(c, m, ids);
      case ForceEvictOp(m, n) =>
        var gone := MaybeEvictSpec(c, m, n);
        assert i !in Ids(c.blocks, m, Candidate);
      case AddNodeOp(m, total) =>
        AddBlocksKeep(c, m, total, i);
    }
  }

  /** Over every run, a pinned block that nobody frees stays pinned and keeps its tokens and
      its prefix; so it is never evicted. */
  lemma {:induction false} PinnedSurvives(c: Cache, ops: seq<Op>, i: nat)
    requires Runnable(c, ops) && i < |c.blocks| && c.blocks[i].pinned
    requires forall k :: 0 <= k < |ops| && ops[k].FreeOp? ==> i !in ops[k].ids
    ensures SameButTime(c.blocks[i], Run(c, ops).blocks[i])
    decreases |ops|
  {
    hide Inv, Apply, Callable;
    if ops != [] {
      var n := |ops| - 1;
      PinnedSurvives(c, ops[..n], i);
      var s, d := LastStep(c, ops);
      StepKeepsPin(s, ops[n], i);
    }
  }

  /** And no allocate of the run hands it out again as a fresh block. */
  lemma PinnedNeverReissued(c: Cache, ops: seq<Op>, i: nat, k: nat)
    requires Runnable(c, ops) && i < |c.blocks| && c.blocks[i].pinned
    requires k < |ops| && ops[k].AllocateOp?
    requires forall j :: 0 <= j < k && ops[j].FreeOp? ==> i !in ops[j].ids
    ensures Runnable(c, ops[..k]) && Allocatable(Run(c, ops[..k]), ops[k].node)
    ensures i !in Taken(Run(c, ops[..k]), ops[k].node, ops[k].request)
  {
    StateAt(c, ops, k);
    PinnedSurvives(c, ops[..k], i);
    StepKeepsPin(Run(c, ops[..k]), ops[k], i);
  }

  /** An operation is local to a node if it neither names another one nor frees its blocks. */
  ghost predicate Elsewhere(c: Cache, op: Op, node: string) {
    op.node != node && (op.FreeOp? ==> forall i :: i in op.ids && i < |c.blocks| ==> c.blocks[i].node != node)
  }

  lemma OthersNotServed(c: Cache, a: Allocation, node: string, r: Request, gone: set<nat>, i: nat)
    requires Served(c, a, node, r, gone) && i < |c.blocks| && c.blocks[i].node != node
    requires forall j :: j in a.reused && j < |c.blocks| ==> c.blocks[j].node == node
    ensures i < |a.cache.blocks| && a.cache.blocks[i] == c.blocks[i]
  {
    hide IndexLess, StatsServed, SameKind;
    assert i !in Ids(c.blocks, node, Vacant) + gone;
  }

  lemma StepIsLocal(c: Cache, op: Op, node: string, i: nat)
    requires Inv(c) && IndexInPool(c) && Callable(c, op) && op.node != node
    requires i < |c.blocks| && c.blocks[i].node == node && (op.FreeOp? ==> i !in op.ids)
    ensures i < |Apply(c, op).blocks| && Apply(c, op).blocks[i] == c.blocks[i]
  {
    hide KVCache.Allocate, ReleaseAll, MaybeEvict, IndexLess, SameKind, RanksKept, Taken, Reused, AfterLookup,
         LeastRanked, ToEvict, StatsServed;
    match op {
      case AllocateOp(m, r) =>
        var gone := AllocateServed(c, m, r);
        ReusedSpec(c, m, r);
        OthersNotServed(c, KVCache.Allocate(c, m, r), m, r, gone, i);
      case FreeOp(m, ids) =>
        ReleaseAllSpec(c, m, ids);
      case ForceEvictOp(m, n) =>
        var gone := MaybeEvictSpec(c, m, n);
        assert i !in gone;
      case AddNodeOp(m, total) =>
        AddBlocksKeep(c, m, total, i);
    }
  }

  lemma StepStatsLocal(c: Cache, op: Op, node: string)
    requires Inv(c) && IndexInPool(c) && Callable(c, op) && op.node != node && c.Serves(node)
    ensures node in Apply(c, op).stats && Apply(c, op).stats[node] == c.stats[node]
  {
    hide KVCache.Allocate, ReleaseAll, MaybeEvict, IndexLess, SameKind, RanksKept, Taken;
    match op {
      case AllocateOp(m, r) =>
        var gone := AllocateServed(c, m, r);
      case FreeOp(m, ids) =>
        ReleaseAllSpec(c, m, ids);
      case ForceEvictOp(m, n) =>
        var gone := MaybeEvictSpec(c, m, n);
      case AddNodeOp(m, total) =>
        AddBlocksSpec(c, m, total);
    }
  }

  lemma StepKeepsNodes(c: Cache, op: Op, i: nat)
    requires Inv(c) && IndexInPool(c) && Callable(c, op) && i < |c.blocks|
    ensures i < |Apply(c, op).blocks| && Apply(c, op).blocks[i].node == c.blocks[i].node
  {
    hide KVCache.Allocate, ReleaseAll, MaybeEvict, IndexLess, SameKind, RanksKept, Taken;
    match op {
      case AllocateOp(m, r) =>
        var gone := AllocateServed(c, m, r);
      case FreeOp(m, ids) =>
        ReleaseAllSpec(c, m, ids);
      case ForceEvictOp(m, n) =>
        var gone := MaybeEvictSpec(c, m, n);
      case AddNodeOp(m, total) =>
        AddBlocksSpec(c, m, total);
    }
  }

  /** Runs on other nodes leave a node's blocks and counters exactly as they were. */
  lemma {:induction false} NodesAreIndependent(c: Cache, ops: seq<Op>, node: string)
    requires Runnable(c, ops) && c.Serves(node)
    requires forall k :: 0 <= k < |ops| ==> Elsewhere(c, ops[k], node)
    ensures var d := Run(c, ops);
            && d.stats[node] == c.stats[node]
            && (forall i :: 0 <= i < |c.blocks| && c.blocks[i].node == node ==> d.blocks[i] == c.blocks[i])
            && (forall i :: 0 <= i < |c.blocks| ==> d.blocks[i].node == c.blocks[i].node)
    decreases |ops|
  {
    hide Inv, Apply, Callable;
    if ops != [] {
      var n := |ops| - 1;
      NodesAreIndependent(c, ops[..n], node);
      var s, d := LastStep(c, ops);
      assert Elsewhere(c, ops[n], node);
      StepStatsLocal(s, ops[n], node);
      forall i | 0 <= i < |c.blocks|
        ensures Run(c, ops).blocks[i].node == c.blocks[i].node
        ensures c.blocks[i].node == node ==> Run(c, ops).blocks[i] == c.blocks[i]
      {
        StepKeepsNodes(s, ops[n], i);
        if c.blocks[i].node == node {
          StepIsLocal(s, ops[n], node, i);
        }
      }
    }
  }

  // ---------------------------------------------------- recency under LRU

  /** Under LRU the recorded access time of every live block is its last_accessed field. */
  ghost predicate Dated(c: Cache) {
    c.policy.LRU? ==>
      forall i :: 0 <= i < |c.blocks| && c.blocks[i].tokens > 0 ==>
        i in c.policy.times && c.policy.times[i] == c.blocks[i].last
  }

  lemma {:induction false} PinAllDated(c: Cache, ids: seq<nat>)
    requires Numbered(c.blocks) && Dated(c) && InPool(c, ids)
    ensures Dated(PinAll(c, ids)) && Numbered(PinAll(c, ids).blocks)
  {
    if ids != [] {
      PinAllDated(c, ids[..|ids| - 1]);
    }
  }

  lemma {:induction false} ReleaseAllDated(c: Cache, node: string, ids: seq<nat>)
    requires Numbered(c.blocks) && Dated(c) && InPool(c, ids) && c.Serves(node)
    ensures Dated(ReleaseAll(c, node, ids, true)) && Numbered(ReleaseAll(c, node, ids, true).blocks)
  {
    if ids != [] {
      ReleaseAllDated(c, node, ids[..|ids| - 1]);
    }
  }

  lemma {:induction false} FillAllDated(c: Cache, ids: seq<nat>, hash: Option<string>)
    requires Numbered(c.blocks) && Dated(c) && InPool(c, ids)
    ensures Dated(FillAll(c, ids, hash)) && Numbered(FillAll(c, ids, hash).blocks)
  {
    if ids != [] {
      FillAllDated(c, ids[..|ids| - 1], hash);
    }
  }

  lemma {:induction false} MaybeEvictDated(c: Cache, node: string, needed: nat)
    requires Numbered(c.blocks) && Dated(c) && c.Serves(node)
    ensures Dated(MaybeEvict(c, node, needed))
    decreases Ids(c.blocks, node, Candidate)
  {
    if |Select(c.blocks, node, Vacant)| < needed && Victim(c, node).Some? {
      EvictShrinks(c, node);
      VictimIsCandidate(c, node);
      MaybeEvictDated(Evict(c, node, Victim(c, node).value), node, needed);
    }
  }

  lemma {:induction false} AddBlocksDated(c: Cache, node: string, n: nat)
    requires Numbered(c.blocks) && Dated(c)
    ensures Dated(AddBlocks(c, node, n)) && Numbered(AddBlocks(c, node, n).blocks)
  {
    if n != 0 {
      AddBlocksDated(c, node, n - 1);
    }
  }

  lemma ApplyKeepsDated(c: Cache, op: Op)
    requires Inv(c) && IndexInPool(c) && Callable(c, op) && Dated(c)
    ensures Dated(Apply(c, op))
  {
    match op {
      case AllocateOp(m, r) =>
        PinAllDated(c, Reused(c, m, r));
        MaybeEvictDated(AfterLookup(c, m, r), m, Shortfall(c, m, r));
        FillAllDated(AfterEviction(c, m, r), Taken(c, m, r), r.prefixHash);
      case FreeOp(m, ids) =>
        ReleaseAllDated(c, m, ids);
      case ForceEvictOp(m, n) =>
        MaybeEvictDated(c, m, n);
      case AddNodeOp(m, total) =>
        AddBlocksDated(c, m, total);
    }
  }

  lemma {:induction false} RunKeepsDated(c: Cache, ops: seq<Op>)
    requires Runnable(c, ops) && Dated(c)
    ensures Dated(Run(c, ops))
    decreases |ops|
  {
    hide Inv, Apply, Callable;
    if ops != [] {
      var n := |ops| - 1;
      RunKeepsDated(c, ops[..n]);
      var s, d := LastStep(c, ops);
      ApplyKeepsDated(s, ops[n]);
    }
  }

  /** After any run, LRU eviction takes the least recently accessed evictable blocks: no
      evictable survivor has an earlier last_accessed than any victim, and exactly the
      missing number goes. */
  lemma LRUEvictsOldest(c: Cache, ops: seq<Op>, node: string, needed: nat) returns (gone: set<nat>)
    requires Runnable(c, ops) && Dated(c) && c.policy.LRU? && c.Serves(node)
    ensures var s := Run(c, ops);
            && Evicted(s, MaybeEvict(s, node, needed), node, gone)
            && |gone| == ToEvict(s, node, needed)
            && (forall v, w :: v in gone && w in Ids(s.blocks, node, Candidate) - gone ==>
                  s.blocks[v].last <= s.blocks[w].last)
  {
    hide Inv, Callable, Evicted, LeastRanked, MaybeEvict, Dated;
    var s := Run(c, ops);
    RunKeepsDated(c, ops);
    RunKeepsKind(c, ops);
    InvNumbered(s);
    gone := MaybeEvictSpec(s, node, needed);
    EvictedOnlyCandidates(s, MaybeEvict(s, node, needed), node, gone);
    LeastRankedIsOldest(s, node, gone);
  }

  lemma LeastRankedIsOldest(s: Cache, node: string, gone: set<nat>)
    requires Dated(s) && s.policy.LRU? && LeastRanked(s, node, gone) && gone <= Ids(s.blocks, node, Candidate)
    ensures forall v, w :: v in gone && w in Ids(s.blocks, node, Candidate) - gone ==>
              s.blocks[v].last <= s.blocks[w].last
  {
    forall v, w | v in gone && w in Ids(s.blocks, node, Candidate) - gone
      ensures s.blocks[v].last <= s.blocks[w].last
    {
      assert !s.policy.RankOf(w).Below(s.policy.RankOf(v));
      assert v in Ids(s.blocks, node, Candidate);
    }
  }

  lemma {:induction false} RunKeepsKind(c: Cache, ops: seq<Op>)
    requires Runnable(c, ops)
    ensures SameKind(c.policy, Run(c, ops).policy)
    decreases |ops|
  {
    hide Inv, Apply, Callable;
    if ops != [] {
      var n := |ops| - 1;
      RunKeepsKind(c, ops[..n]);
      var s, d := LastStep(c, ops);
      StepKeepsKind(s, ops[n]);
    }
  }

  lemma {:induction false} AddBlocksKind(c: Cache, node: string, n: nat)
    ensures SameKind(c.policy, AddBlocks(c, node, n).policy)
  {
    if n != 0 {
      AddBlocksKind(c, node, n - 1);
    }
  }

  lemma StepKeepsKind(c: Cache, op: Op)
    requires Inv(c) && IndexInPool(c) && Callable(c, op)
    ensures SameKind(c.policy, Apply(c, op).policy)
  {
    match op {
      case AllocateOp(m, r) =>
        var gone := AllocateServed(c, m, r);
      case FreeOp(m, ids) =>
        ReleaseAllSpec(c, m, ids);
      case ForceEvictOp(m, k) =>
        var gone := MaybeEvictSpec(c, m, k);
      case AddNodeOp(m, total) =>
        AddBlocksKind(c, m, total);
    }
  }

  // -------------------------------------------- free without keeping prefixes

  /** When free(keep_prefix=False) is harmless: nothing listed is still indexed, nothing live
      on another node is listed, and the count of list entries is the count of live blocks
      they empty (or they empty the node). */
  ghost predicate CleanFree(c: Cache, node: string, ids: seq<nat>)
    requires InPool(c, ids) && c.Serves(node)
  {
    && (forall h :: h in c.index ==> Elems(c.index[h]) !! Elems(ids))
    && (forall i :: i in ids && c.blocks[i].tokens > 0 ==> c.blocks[i].node == node)
    && ((NoDup(ids) && forall i :: i in ids ==> c.blocks[i].tokens > 0)
        || Ids(c.blocks, node, Live) <= Elems(ids))
  }

  ghost predicate Dropped(c: Cache, d: Cache, ids: seq<nat>) {
    && d.blockSize == c.blockSize && d.index == c.index && |d.blocks| == |c.blocks|
    && (forall i :: 0 <= i < |c.blocks| ==>
          if i in ids
          then d.blocks[i] == c.blocks[i].(tokens := 0, hash := None, pinned := false, last := d.blocks[i].last)
          else d.blocks[i] == c.blocks[i])
  }

  lemma {:induction false} DropAllSpec(c: Cache, node: string, ids: seq<nat>)
    requires InPool(c, ids) && c.Serves(node)
    ensures Dropped(c, ReleaseAll(c, node, ids, false), ids)
  {
    if ids != [] {
      assert ids == ids[..|ids| - 1] + [ids[|ids| - 1]];
      DropAllSpec(c, node, ids[..|ids| - 1]);
    }
  }

  lemma {:induction false} DropAllStats(c: Cache, node: string, ids: seq<nat>)
    requires InPool(c, ids) && c.Serves(node)
    ensures ReleaseAll(c, node, ids, false).stats
            == c.stats[node := c.stats[node].(used := Max(0, c.stats[node].used - |ids|))]
  {
    if ids != [] {
      DropAllStats(c, node, ids[..|ids| - 1]);
    } else {
      assert c.stats[node := c.stats[node]] == c.stats;
    }
  }

  lemma DroppedLive(c: Cache, d: Cache, ids: seq<nat>, n: string)
    requires Dropped(c, d, ids)
    ensures Ids(d.blocks, n, Live) == Ids(c.blocks, n, Live) - Elems(ids)
    ensures Ids(d.blocks, n, Any) == Ids(c.blocks, n, Any)
  {
    IdsSame(c.blocks, d.blocks, n, Any);
  }

  lemma {:induction false} ElemsCount(ids: seq<nat>)
    ensures |Elems(ids)| <= |ids|
    ensures |Elems(ids)| == |ids| ==> NoDup(ids)
  {
    if ids != [] {
      ElemsCount(ids[1..]);
      assert Elems(ids) == Elems(ids[1..]) + {ids[0]};
      if ids[0] in Elems(ids[1..]) {
        assert Elems(ids) == Elems(ids[1..]);
      } else {
        assert [ids[0]] + ids[1..] == ids;
        if |Elems(ids)| == |ids| {
          NoDupCons(ids[0], ids[1..]);
        }
      }
    }
  }

  /** The counters after a drop, against the scan. */
  lemma DroppedCount(live: set<nat>, ids: seq<nat>)
    ensures Max(0, |live| - |ids|) == |live - Elems(ids)| <==>
            live <= Elems(ids) || (NoDup(ids) && Elems(ids) <= live)
  {
    ElemsCount(ids);
    var both := live * Elems(ids);
    assert live == (live - Elems(ids)) + both;
    assert |live| == |live - Elems(ids)| + |both|;
    if live <= Elems(ids) {
      assert live - Elems(ids) == {};
      SubsetCount(live, Elems(ids));
    } else if NoDup(ids) && Elems(ids) <= live {
      NoDupCount(ids);
      assert both == Elems(ids);
    } else if Max(0, |live| - |ids|) == |live - Elems(ids)| {
      assert live - Elems(ids) != {};
      SubsetCount(both, Elems(ids));
      SubsetSameSize(both, Elems(ids));
    }
  }

  lemma DroppedEntries(c: Cache, d: Cache, ids: seq<nat>, h: string)
    requires Inv(c) && Dropped(c, d, ids) && h in c.index
    ensures EntryOk(d, h) <==> Elems(c.index[h]) !! Elems(ids)
  {
    var e := c.index[h];
    assert EntryOk(c, h);
    if Elems(e) !! Elems(ids) {
      forall j | 0 <= j < |e|
        ensures d.blocks[e[j]] == c.blocks[e[j]]
      {
        assert e[j] in Elems(e);
        assert e[j] !in Elems(ids);
      }
    } else {
      var i :| i in Elems(e) && i in Elems(ids);
      var j :| 0 <= j < |e| && e[j] == i;
      assert d.blocks[e[j]].tokens == 0;
    }
  }

  /** The counter of another node is right exactly if no live block of it was dropped. */
  lemma DroppedElsewhere(c: Cache, d: Cache, ids: seq<nat>, n: string)
    requires Inv(c) && Dropped(c, d, ids) && n in c.stats && n in d.stats && d.stats[n] == c.stats[n]
    ensures CountOk(d, n) <==> Ids(c.blocks, n, Live) !! Elems(ids)
  {
    var live := Ids(c.blocks, n, Live);
    assert CountOk(c, n);
    DroppedLive(c, d, ids, n);
    if live !! Elems(ids) {
      assert live - Elems(ids) == live;
    } else {
      assert live == (live - Elems(ids)) + (live * Elems(ids));
    }
  }

  lemma DroppedHere(c: Cache, d: Cache, ids: seq<nat>, n: string)
    requires Inv(c) && Dropped(c, d, ids) && n in c.stats && n in d.stats
    requires d.stats[n] == c.stats[n].(used := Max(0, c.stats[n].used - |ids|))
    ensures CountOk(d, n) <==>
            Ids(c.blocks, n, Live) <= Elems(ids) || (NoDup(ids) && Elems(ids) <= Ids(c.blocks, n, Live))
  {
    assert CountOk(c, n);
    DroppedLive(c, d, ids, n);
    DroppedCount(Ids(c.blocks, n, Live), ids);
  }

  lemma DroppedBlocksOk(c: Cache, d: Cache, ids: seq<nat>)
    requires Inv(c) && Dropped(c, d, ids) && d.stats.Keys == c.stats.Keys
    ensures Numbered(d.blocks) && forall i :: 0 <= i < |d.blocks| ==> BlockOk(d, i)
  {
    forall i | 0 <= i < |d.blocks|
      ensures BlockOk(d, i) && d.blocks[i].id == i
    {
      assert BlockOk(c, i);
    }
  }

  /** What CleanFree says, in terms of the live blocks of each node. */
  lemma CleanFreeByNode(c: Cache, node: string, ids: seq<nat>)
    requires Inv(c) && InPool(c, ids) && c.Serves(node)
    ensures CleanFree(c, node, ids) <==>
            && (forall h :: h in c.index ==> Elems(c.index[h]) !! Elems(ids))
            && (forall n :: n in c.stats && n != node ==> Ids(c.blocks, n, Live) !! Elems(ids))
            && (Ids(c.blocks, node, Live) <= Elems(ids) || (NoDup(ids) && Elems(ids) <= Ids(c.blocks, node, Live)))
  {
    if forall n :: n in c.stats && n != node ==> Ids(c.blocks, n, Live) !! Elems(ids) {
      forall i | i in ids && c.blocks[i].tokens > 0
        ensures c.blocks[i].node == node
      {
        assert BlockOk(c, i);
        assert i in Ids(c.blocks, c.blocks[i].node, Live) && i in Elems(ids);
      }
    }
    assert forall i :: i in ids <==> i in Elems(ids);
  }

  lemma SubsetCount(a: set<nat>, b: set<nat>)
    requires a <= b
    ensures |a| <= |b|
  {
    assert b == a + (b - a);
  }

  /** free(keep_prefix=False) keeps the manager consistent exactly on clean lists. */
  lemma DropKeepsInvIffClean(c: Cache, node: string, ids: seq<nat>)
    requires Inv(c) && InPool(c, ids) && c.Serves(node)
    ensures Inv(Free(c, node, ids, false)) <==> CleanFree(c, node, ids)
  {
    var d := Free(c, node, ids, false);
    DropAllSpec(c, node, ids);
    DropAllStats(c, node, ids);
    DroppedIffByNode(c, d, node, ids);
    CleanFreeByNode(c, node, ids);
  }

  lemma DroppedIffByNode(c: Cache, d: Cache, node: string, ids: seq<nat>)
    requires Inv(c) && c.Serves(node) && Dropped(c, d, ids)
    requires d.stats == c.stats[node := c.stats[node].(used := Max(0, c.stats[node].used - |ids|))]
    ensures Inv(d) <==>
            && (forall h :: h in c.index ==> Elems(c.index[h]) !! Elems(ids))
            && (forall n :: n in c.stats && n != node ==> Ids(c.blocks, n, Live) !! Elems(ids))
            && (Ids(c.blocks, node, Live) <= Elems(ids) || (NoDup(ids) && Elems(ids) <= Ids(c.blocks, node, Live)))
  {
    DroppedBlocksOk(c, d, ids);
    DroppedHere(c, d, ids, node);
    forall h | h in c.index
      ensures EntryOk(d, h) <==> Elems(c.index[h]) !! Elems(ids)
    {
      DroppedEntries(c, d, ids, h);
    }
    forall n | n in c.stats && n != node
      ensures CountOk(d, n) <==> Ids(c.blocks, n, Live) !! Elems(ids)
    {
      DroppedElsewhere(c, d, ids, n);
    }
    assert CountOk(d, node) <==>
             (Ids(c.blocks, node, Live) <= Elems(ids) || (NoDup(ids) && Elems(ids) <= Ids(c.blocks, node, Live)));
  }

  /** What an allocate with a prefix returns is the whole entry of that prefix. */
  lemma ReturnedIsListed(c: Cache, a: Allocation, node: string, r: Request, gone: set<nat>)
    requires Inv(c) && IndexInPool(c) && a.reused == Reused(c, node, r) && Served(c, a, node, r, gone)
    requires Truthy(r.prefixHash) && a.Blocks() != []
    ensures r.prefixHash.value in a.cache.index && a.cache.index[r.prefixHash.value] == a.Blocks()
  {
    hide Inv, StatsServed, SameKind, BlocksServed;
    ReusedSpec(c, node, r);
    if a.taken == [] {
      assert a.Blocks() == a.reused == c.index[r.prefixHash.value];
      assert Elems(c.index[r.prefixHash.value]) !! gone;
    }
  }

  /** Blocks without a prefix are in no entry. */
  lemma UnlistedIsClean(c: Cache, node: string, ids: seq<nat>)
    requires Inv(c) && NoDup(ids) && c.Serves(node) && InPool(c, ids)
    requires forall i :: i in ids ==> Is(c.blocks[i], node, Live) && c.blocks[i].hash == None
    ensures CleanFree(c, node, ids)
  {
    forall h, i | h in c.index && i in c.index[h]
      ensures i !in ids
    {
      assert EntryOk(c, h);
    }
  }

  /** What an allocate leaves behind for a drop of all it returned. */
  lemma AllocatedForDrop(c: Cache, node: string, r: Request)
    requires Inv(c) && Allocatable(c, node)
    ensures var a := Allocate(c, node, r);
            && Inv(a.cache) && InPool(a.cache, a.Blocks()) && a.cache.Serves(node) && NoDup(a.Blocks())
            && (Truthy(r.prefixHash) && a.Blocks() != [] ==>
                  r.prefixHash.value in a.cache.index && a.cache.index[r.prefixHash.value] == a.Blocks())
            && (!Truthy(r.prefixHash) ==>
                  forall i :: i in a.Blocks() ==> Is(a.cache.blocks[i], node, Live) && a.cache.blocks[i].hash == None)
  {
    hide Inv, Allocate, BlocksServed, StatsServed, IndexLess, SameKind, Remaining, Taken, Reused;
    AllocateKeepsInv(c, node, r);
    AllocateHandsOut(c, node, r);
    var a := Allocate(c, node, r);
    var gone := AllocateServed(c, node, r);
    forall j | 0 <= j < |a.Blocks()|
      ensures GoodBlock(a.cache, a.Blocks()[j], node, r.prefixHash)
    {
      assert a.Blocks()[j] in a.reused || a.Blocks()[j] in a.taken;
    }
    if Truthy(r.prefixHash) && a.Blocks() != [] {
      ReturnedIsListed(c, a, node, r, gone);
    }
  }

  /** Giving back, without keeping prefixes, what an allocate returned leaves the manager
      consistent exactly if the request named no prefix or got nothing: otherwise emptied
      blocks stay in the index, fresh or reused. */
  lemma DropAfterAllocateIff(c: Cache, node: string, r: Request)
    requires Inv(c) && Allocatable(c, node)
    ensures var a := Allocate(c, node, r);
            && InPool(a.cache, a.Blocks()) && a.cache.Serves(node)
            && (Inv(Free(a.cache, node, a.Blocks(), false)) <==> !Truthy(r.prefixHash) || a.Blocks() == [])
  {
    hide Inv, Allocate, Free, InPool, Is;
    AllocatedForDrop(c, node, r);
    var a := Allocate(c, node, r);
    DropKeepsInvIffClean(a.cache, node, a.Blocks());
    if Truthy(r.prefixHash) && a.Blocks() != [] {
      assert a.Blocks()[0] in Elems(a.Blocks());
    } else {
      UnlistedIsClean(a.cache, node, a.Blocks());
    }
  }
}
