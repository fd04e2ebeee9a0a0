/** What the operations of control_plane/kv_cache_manager/kv_cache_manager.py compute,
    as functions on the value of a manager.  The class in KVCacheManager.dfy is proved
    to do exactly this in place; KVCacheProofs.dfy says what it guarantees. */
module KVCache {
  import opened Models
  import opened EvictionPolicies
  import opened BlockPools

  datatype Stats = Stats(total: nat, used: nat, hits: nat, misses: nat, evictions: nat, spills: nat)

  /** `read` and `tick` are the clock: reading number `tick` is the next one. */
  datatype Cache = Cache(
    blockSize: nat,
    blocks: seq<Block>,
    index: Index,
    stats: map<string, Stats>,
    policy: Policy,
    read: nat -> real,
    tick: nat)
  {
    /** `_blocks[node]` and `_stats[node]` exist; the code raises KeyError otherwise. */
    predicate Serves(node: string) {
      node in stats
    }

    /** free_blocks: what admission control believes is free. */
    function FreeBlocks(node: string): int
      requires Serves(node)
    {
      stats[node].total - stats[node].used
    }
  }

  // ---------------------------------------------------------- single blocks

  /** eviction_policy.on_access(block) */
  function Touch(c: Cache, i: nat): Cache
    requires i < |c.blocks|
  {
    if c.policy.LRU? then
      var now := c.read(c.tick);
      c.(policy := c.policy.OnAccess(c.blocks[i].id, now),
         blocks := c.blocks[i := c.blocks[i].(last := now)],
         tick := c.tick + 1)
    else
      c.(policy := c.policy.OnAccess(c.blocks[i].id, 0.0))
  }

  function Write(c: Cache, i: nat, b: Block): Cache
    requires i < |c.blocks|
  {
    c.(blocks := c.blocks[i := b])
  }

  function WithStats(c: Cache, node: string, s: Stats): Cache {
    c.(stats := c.stats[node := s])
  }

  /** One round of the pinning loop. */
  function Pin(c: Cache, i: nat): Cache
    requires i < |c.blocks|
  {
    Touch(Write(c, i, c.blocks[i].(pinned := true)), i)
  }

  /** One round of the loop that takes fresh blocks. */
  function Fill(c: Cache, i: nat, hash: Option<string>): Cache
    requires i < |c.blocks|
  {
    var b := c.blocks[i];
    var filled := b.(tokens := c.blockSize,
                     hash := if Truthy(hash) then hash else b.hash,
                     pinned := true,
                     last := c.read(c.tick));
    Touch(Write(c, i, filled).(tick := c.tick + 1), i)
  }

  /** One round of the release loop. */
  function Release(c: Cache, node: string, i: nat, keepPrefix: bool): Cache
    requires c.Serves(node) && i < |c.blocks|
  {
    var b := c.blocks[i].(pinned := false);
    if keepPrefix then
      Touch(Write(c, i, b), i)
    else
      var s := c.stats[node];
      Touch(WithStats(Write(c, i, b.(tokens := 0, hash := None)), node, s.(used := Max(0, s.used - 1))), i)
  }

  /** The manager serves every one of these nodes. */
  predicate Known(nodes: seq<Node>, c: Cache) {
    forall k :: 0 <= k < |nodes| ==> c.Serves(nodes[k].id)
  }

  predicate InPool(c: Cache, ids: seq<nat>) {
    Within(c.blocks, ids)
  }

  function PinAll(c: Cache, ids: seq<nat>): (r: Cache)
    requires InPool(c, ids)
    ensures |r.blocks| == |c.blocks| && r.stats == c.stats
  {
    if ids == [] then c else Pin(PinAll(c, ids[..|ids| - 1]), ids[|ids| - 1])
  }

  function FillAll(c: Cache, ids: seq<nat>, hash: Option<string>): (r: Cache)
    requires InPool(c, ids)
    ensures |r.blocks| == |c.blocks| && r.stats == c.stats
  {
    if ids == [] then c else Fill(FillAll(c, ids[..|ids| - 1], hash), ids[|ids| - 1], hash)
  }

  function ReleaseAll(c: Cache, node: string, ids: seq<nat>, keepPrefix: bool): (r: Cache)
    requires c.Serves(node) && InPool(c, ids)
    ensures |r.blocks| == |c.blocks| && r.stats.Keys == c.stats.Keys
  {
    if ids == [] then c
    else Release(ReleaseAll(c, node, ids[..|ids| - 1], keepPrefix), node, ids[|ids| - 1], keepPrefix)
  }

  // --------------------------------------------------------------- eviction

  /** One round of the eviction loop with `victim` chosen. */
  function Evict(c: Cache, node: string, victim: Block): Cache
    requires c.Serves(node) && victim.id < |c.blocks|
  {
    var s := c.stats[node];
    c.(index := Unlink(c.index, victim),
       policy := c.policy.OnFree(victim.id),
       blocks := c.blocks[victim.id := victim.(tokens := 0, hash := None, last := c.read(c.tick))],
       tick := c.tick + 1,
       stats := c.stats[node := s.(used := Max(0, s.used - 1), evictions := s.evictions + 1)])
  }

  function Victim(c: Cache, node: string): Option<Block> {
    c.policy.PickVictim(Select(c.blocks, node, Candidate))
  }

  lemma VictimIsCandidate(c: Cache, node: string)
    requires Numbered(c.blocks)
    ensures match Victim(c, node)
            case None => Ids(c.blocks, node, Candidate) == {}
            case Some(v) => v.id in Ids(c.blocks, node, Candidate) && c.blocks[v.id] == v
  {
    var s := Select(c.blocks, node, Candidate);
    SelectIds(c.blocks, node, Candidate);
    PickVictimContract(c.policy, s);
    if Victim(c, node).Some? {
      var j :| 0 <= j < |s| && s[j] == Victim(c, node).value;
    }
  }

  /** Evicting takes exactly the victim out of the candidates, which is why the loop ends. */
  lemma EvictShrinks(c: Cache, node: string)
    requires Numbered(c.blocks) && c.Serves(node) && Victim(c, node).Some?
    ensures var v := Victim(c, node).value;
            && v.id < |c.blocks|
            && Numbered(Evict(c, node, v).blocks)
            && Ids(Evict(c, node, v).blocks, node, Candidate) == Ids(c.blocks, node, Candidate) - {v.id}
            && v.id in Ids(c.blocks, node, Candidate)
  {
    VictimIsCandidate(c, node);
    var v := Victim(c, node).value;
    IdsUpdate(c.blocks, v.id, v.(tokens := 0, hash := None, last := c.read(c.tick)), node, Candidate);
  }

  /** _maybe_evict: evict until `needed` blocks are vacant or no candidate is left. */
  function MaybeEvict(c: Cache, node: string, needed: nat): (r: Cache)
    requires Numbered(c.blocks) && c.Serves(node)
    ensures Numbered(r.blocks) && |r.blocks| == |c.blocks| && r.stats.Keys == c.stats.Keys
    decreases Ids(c.blocks, node, Candidate)
  {
    if |Select(c.blocks, node, Vacant)| >= needed then c
    else
      match Victim(c, node)
      case None => c
      case Some(v) =>
        EvictShrinks(c, node);
        MaybeEvict(Evict(c, node, v), node, needed)
  }

  // ------------------------------------------------------------- operations

  predicate IndexInPool(c: Cache) {
    forall h :: h in c.index ==> InPool(c, c.index[h])
  }

  /** The cached blocks of the request's prefix that are on the node. */
  function Reused(c: Cache, node: string, r: Request): (ids: seq<nat>)
    requires IndexInPool(c)
    ensures InPool(c, ids)
  {
    if Truthy(r.prefixHash) && r.prefixHash.value in c.index
    then OnNode(c.blocks, c.index[r.prefixHash.value], node) else []
  }

  function OnNode(bs: seq<Block>, ids: seq<nat>, node: string): (r: seq<nat>)
    requires Within(bs, ids)
    ensures Within(bs, r)
  {
    if ids == [] then []
    else
      var rest := OnNode(bs, ids[..|ids| - 1], node);
      if bs[ids[|ids| - 1]].node == node then rest + [ids[|ids| - 1]] else rest
  }

  lemma {:induction false} OnNodeMembers(bs: seq<Block>, ids: seq<nat>, node: string)
    requires Within(bs, ids)
    ensures forall i :: i in OnNode(bs, ids, node) <==> i in ids && bs[i].node == node
    ensures (forall i :: i in ids ==> bs[i].node == node) ==> OnNode(bs, ids, node) == ids
    ensures (forall i :: i in ids ==> bs[i].node != node) ==> OnNode(bs, ids, node) == []
  {
    if ids != [] {
      var n := |ids| - 1;
      assert ids == ids[..n] + [ids[n]];
      OnNodeMembers(bs, ids[..n], node);
    }
  }

  datatype Allocation = Allocation(cache: Cache, reused: seq<nat>, taken: seq<nat>)
  {
    /** What the caller gets: the block list and the hit flag. */
    function Blocks(): seq<nat> {
      reused + taken
    }

    predicate Hit() {
      reused != []
    }
  }

  predicate Allocatable(c: Cache, node: string) {
    Numbered(c.blocks) && c.Serves(node) && IndexInPool(c)
  }

  /** Step 1: pin the cached prefix and count the hit or the miss. */
  function AfterLookup(c: Cache, node: string, r: Request): (s: Cache)
    requires Allocatable(c, node)
    ensures s.Serves(node) && |s.blocks| == |c.blocks|
  {
    var ids := Reused(c, node, r);
    var s := c.stats[node];
    if ids != []
    then WithStats(PinAll(c, ids), node, s.(hits := s.hits + 1))
    else WithStats(c, node, s.(misses := s.misses + 1))
  }

  lemma {:induction false} PinAllNumbered(c: Cache, ids: seq<nat>)
    requires Numbered(c.blocks) && InPool(c, ids)
    ensures Numbered(PinAll(c, ids).blocks)
  {
    if ids != [] {
      PinAllNumbered(c, ids[..|ids| - 1]);
    }
  }

  function Shortfall(c: Cache, node: string, r: Request): nat
    requires Allocatable(c, node)
  {
    Max(0, r.KvBlocksNeeded() - |Reused(c, node, r)|)
  }

  /** Step 2: make room. */
  function AfterEviction(c: Cache, node: string, r: Request): (s: Cache)
    requires Allocatable(c, node)
    ensures s.Serves(node) && |s.blocks| == |c.blocks| && Numbered(s.blocks)
  {
    PinAllNumbered(c, Reused(c, node, r));
    MaybeEvict(AfterLookup(c, node, r), node, Shortfall(c, node, r))
  }

  /** Step 3: the fresh blocks taken, fewer than the shortfall on a spill. */
  function Taken(c: Cache, node: string, r: Request): (ids: seq<nat>)
    requires Allocatable(c, node)
    ensures InPool(AfterEviction(c, node, r), ids) && |ids| <= Shortfall(c, node, r)
  {
    var e := AfterEviction(c, node, r);
    var free := Select(e.blocks, node, Fresh);
    SelectIds(e.blocks, node, Fresh);
    Refs(free[..Min(|free|, Shortfall(c, node, r))])
  }

  /** Count the taken blocks and register the prefix. */
  function Settle(filled: Cache, reused: seq<nat>, taken: seq<nat>, node: string, short: bool, hash: Option<string>)
    : Cache
    requires filled.Serves(node)
  {
    var s := filled.stats[node];
    var index := if Truthy(hash) && taken != [] then filled.index[hash.value := reused + taken] else filled.index;
    WithStats(filled.(index := index), node,
              s.(spills := s.spills + (if short then 1 else 0), used := s.used + |taken|))
  }

  /** The rest: fill and pin the taken blocks, then count and register them. */
  function Finish(e: Cache, reused: seq<nat>, taken: seq<nat>, node: string, short: bool, hash: Option<string>)
    : Allocation
    requires e.Serves(node) && InPool(e, taken)
  {
    Allocation(Settle(FillAll(e, taken, hash), reused, taken, node, short, hash), reused, taken)
  }

  function Allocate(c: Cache, node: string, r: Request): Allocation
    requires Allocatable(c, node)
  {
    Finish(AfterEviction(c, node, r), Reused(c, node, r), Taken(c, node, r), node,
           |Taken(c, node, r)| < Shortfall(c, node, r), r.prefixHash)
  }

  function Free(c: Cache, node: string, ids: seq<nat>, keepPrefix: bool): Cache
    requires c.Serves(node) && InPool(c, ids)
  {
    ReleaseAll(c, node, ids, keepPrefix)
  }

  // ----------------------------------------------------------- construction

  /** The block-creation loop of _init_node; a new KVBlock takes a reading of the clock. */
  function AddBlocks(c: Cache, node: string, n: nat): (r: Cache)
    ensures r.stats == c.stats && r.index == c.index && r.blockSize == c.blockSize
  {
    if n == 0 then c
    else
      var d := AddBlocks(c, node, n - 1);
      var b := Block(|d.blocks|, node, 0, None, d.read(d.tick), false);
      d.(blocks := d.blocks + [b],
         policy := d.policy.OnAllocate(b.id, d.read(d.tick + 1)),
         tick := d.tick + 1 + (if d.policy.LRU? then 1 else 0))
  }

  /** _init_node / add_node */
  function AddNode(c: Cache, node: string, total: nat): Cache {
    WithStats(AddBlocks(c, node, total), node, Stats(total, 0, 0, 0, 0, 0))
  }

  function Empty(blockSize: nat, policy: Policy, read: nat -> real, tick: nat): Cache {
    Cache(blockSize, [], map[], map[], policy, read, tick)
  }

  // ------------------------------------------------------------------- runs

  /** free is only ever called with keep_prefix=True by the rest of the code; a node is
      added once. */
  datatype Op =
    | AllocateOp(node: string, request: Request)
    | FreeOp(node: string, ids: seq<nat>)
    | ForceEvictOp(node: string, n: nat)
    | AddNodeOp(node: string, total: nat)

  predicate Callable(c: Cache, op: Op) {
    (op.AddNodeOp? <==> !c.Serves(op.node)) && (op.FreeOp? ==> InPool(c, op.ids))
  }

  function Apply(c: Cache, op: Op): Cache
    requires Numbered(c.blocks) && IndexInPool(c) && Callable(c, op)
  {
    match op
    case AllocateOp(node, r) => Allocate(c, node, r).cache
    case FreeOp(node, ids) => Free(c, node, ids, true)
    case ForceEvictOp(node, n) => MaybeEvict(c, node, n)
    case AddNodeOp(node, total) => AddNode(c, node, total)
  }
}
