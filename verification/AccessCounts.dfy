/** What LFU and Belady know of a block after any run of the manager's operations, in terms of
    what those operations did with the block, and what they therefore evict. */
module AccessCounts {
  import opened Models
  import opened AccessHistories
  import opened EvictionPolicies
  import opened BlockPools
  import opened KVCache
  import opened KVCacheProofs
  import opened KVCacheRuns

  /** What one operation does with block i, as its caller sees it: an allocate uses the blocks
      it reuses and fills the ones it takes; what was live and is taken or empty afterwards was
      evicted; free uses each block as often as it is listed. */
  function Deeds(c: Cache, op: Op, i: nat): seq<Deed>
    requires Numbered(c.blocks) && IndexInPool(c) && Callable(c, op)
  {
    var live := i < |c.blocks| && c.blocks[i].tokens > 0;
    match op
    case AllocateOp(node, r) =>
      var a := KVCache.Allocate(c, node, r);
      var gone := i in a.taken || (i < |a.cache.blocks| && a.cache.blocks[i].tokens == 0);
      (if i in a.reused then [Used] else []) +
      (if live && i !in a.reused && gone then [Emptied] else []) +
      (if i in a.taken then [Filled] else [])
    case FreeOp(_, ids) => Repeated(Used, Occurrences(ids, i))
    case ForceEvictOp(_, _) =>
      var bs := KVCache.Apply(c, op).blocks;
      if live && i < |bs| && bs[i].tokens == 0 then [Emptied] else []
    case AddNodeOp(_, _) => if |c.blocks| <= i < |KVCache.Apply(c, op).blocks| then [Announced] else []
  }

  /** What a whole run does with it. */
  ghost function History(c: Cache, ops: seq<Op>, i: nat): seq<Deed>
    requires Runnable(c, ops)
    decreases |ops|
  {
    if ops == [] then []
    else
      var n := |ops| - 1;
      StateAt(c, ops, n);
      InvNumbered(KVCacheRuns.Run(c, ops[..n]));
      History(c, ops[..n], i) + Deeds(KVCacheRuns.Run(c, ops[..n]), ops[n], i)
  }

  // ------------------------------------------------------------- the operations

  lemma {:induction false} PinAllFollows(c: Cache, ids: seq<nat>, i: nat)
    requires Numbered(c.blocks) && InPool(c, ids)
    ensures Follows(c.policy, PinAll(c, ids).policy, i, Repeated(Used, Occurrences(ids, i)))
  {
    hide Follows;
    if ids == [] {
      FollowsSelf(c.policy, i);
    } else {
      var n := |ids| - 1;
      var before := PinAll(c, ids[..n]);
      PinAllFollows(c, ids[..n], i);
      PinAllNumbered(c, ids[..n]);
      TouchFollows(Write(before, ids[n], before.blocks[ids[n]].(pinned := true)), ids[n], i, Used);
      RepeatedSnoc(Used, ids, i);
      FollowsTrans(c.policy, before.policy, PinAll(c, ids).policy, i, Repeated(Used, Occurrences(ids[..n], i)),
                   if ids[n] == i then [Used] else []);
    }
  }

  lemma TouchFollows(c: Cache, j: nat, i: nat, d: Deed)
    requires j < |c.blocks| && c.blocks[j].id == j && (d.Used? || d.Filled?)
    ensures Follows(c.policy, Touch(c, j).policy, i, if j == i then [d] else [])
  {
    AccessFollows(c.policy, j, c.read(c.tick), i, d);
    AccessFollows(c.policy, j, 0.0, i, d);
  }

  lemma {:induction false} ReleaseAllNumbered(c: Cache, node: string, ids: seq<nat>)
    requires Numbered(c.blocks) && InPool(c, ids) && c.Serves(node)
    ensures Numbered(ReleaseAll(c, node, ids, true).blocks)
  {
    if ids != [] {
      ReleaseAllNumbered(c, node, ids[..|ids| - 1]);
    }
  }

  lemma {:induction false} ReleaseAllFollows(c: Cache, node: string, ids: seq<nat>, i: nat)
    requires Numbered(c.blocks) && InPool(c, ids) && c.Serves(node)
    ensures Follows(c.policy, ReleaseAll(c, node, ids, true).policy, i, Repeated(Used, Occurrences(ids, i)))
  {
    hide Follows;
    if ids == [] {
      FollowsSelf(c.policy, i);
    } else {
      var n := |ids| - 1;
      var before := ReleaseAll(c, node, ids[..n], true);
      ReleaseAllFollows(c, node, ids[..n], i);
      ReleaseAllNumbered(c, node, ids[..n]);
      TouchFollows(Write(before, ids[n], before.blocks[ids[n]].(pinned := false)), ids[n], i, Used);
      RepeatedSnoc(Used, ids, i);
      FollowsTrans(c.policy, before.policy, ReleaseAll(c, node, ids, true).policy, i,
                   Repeated(Used, Occurrences(ids[..n], i)), if ids[n] == i then [Used] else []);
    }
  }

  lemma {:induction false} FillAllNumbered(c: Cache, ids: seq<nat>, hash: Option<string>)
    requires Numbered(c.blocks) && InPool(c, ids)
    ensures Numbered(FillAll(c, ids, hash).blocks)
  {
    if ids != [] {
      FillAllNumbered(c, ids[..|ids| - 1], hash);
    }
  }

  lemma {:induction false} FillAllFollows(c: Cache, ids: seq<nat>, hash: Option<string>, i: nat)
    requires Numbered(c.blocks) && InPool(c, ids)
    ensures Follows(c.policy, FillAll(c, ids, hash).policy, i, Repeated(Filled, Occurrences(ids, i)))
  {
    hide Follows;
    if ids == [] {
      FollowsSelf(c.policy, i);
    } else {
      var n := |ids| - 1;
      var before := FillAll(c, ids[..n], hash);
      FillAllFollows(c, ids[..n], hash, i);
      FillAllNumbered(c, ids[..n], hash);
      FillFollows(before, ids[n], hash, i);
      RepeatedSnoc(Filled, ids, i);
      FollowsTrans(c.policy, before.policy, FillAll(c, ids, hash).policy, i,
                   Repeated(Filled, Occurrences(ids[..n], i)), if ids[n] == i then [Filled] else []);
    }
  }

  lemma FillFollows(c: Cache, j: nat, hash: Option<string>, i: nat)
    requires j < |c.blocks| && c.blocks[j].id == j
    ensures Follows(c.policy, Fill(c, j, hash).policy, i, if j == i then [Filled] else [])
  {
    AccessFollows(c.policy, j, c.read(c.tick + 1), i, Filled);
    AccessFollows(c.policy, j, 0.0, i, Filled);
  }

  lemma {:induction false} MaybeEvictFollows(c: Cache, node: string, needed: nat, i: nat)
    requires Numbered(c.blocks) && c.Serves(node)
    ensures var d := MaybeEvict(c, node, needed);
            && Follows(c.policy, d.policy, i, EmptiedBy(c.blocks, d.blocks, i))
            && (i < |c.blocks| && c.blocks[i].tokens == 0 ==> d.blocks[i].tokens == 0)
    decreases Ids(c.blocks, node, Candidate)
  {
    hide Follows;
    if |Select(c.blocks, node, Vacant)| < needed && Victim(c, node).Some? {
      EvictShrinks(c, node);
      VictimIsCandidate(c, node);
      var v := Victim(c, node).value;
      var e := Evict(c, node, v);
      MaybeEvictFollows(e, node, needed, i);
      var d := MaybeEvict(c, node, needed);
      FreeFollows(c.policy, v.id, i);
      FollowsTrans(c.policy, e.policy, d.policy, i, if v.id == i then [Emptied] else [],
                   EmptiedBy(e.blocks, d.blocks, i));
      assert v.id == i ==> EmptiedBy(e.blocks, d.blocks, i) == [];
      assert [Emptied] + [] == [Emptied] && [] + EmptiedBy(e.blocks, d.blocks, i) == EmptiedBy(e.blocks, d.blocks, i);
    } else {
      FollowsSelf(c.policy, i);
    }
  }

  /** The policy has an entry for the block. */
  ghost predicate Recorded(p: Policy, i: nat) {
    match p
    case LRU(times) => i in times
    case LFU(freq) => i in freq
    case Belady(future) => i in future
    case Plugged(_, _) => false
  }

  /** What is evicted is forgotten; of other blocks nothing is. */
  lemma {:induction false} EvictedIsForgotten(c: Cache, node: string, needed: nat, i: nat)
    requires Numbered(c.blocks) && c.Serves(node)
    ensures var d := MaybeEvict(c, node, needed);
            Recorded(d.policy, i) <==> Recorded(c.policy, i) && EmptiedBy(c.blocks, d.blocks, i) == []
    ensures i < |c.blocks| && c.blocks[i].tokens == 0 ==> MaybeEvict(c, node, needed).blocks[i].tokens == 0
    decreases Ids(c.blocks, node, Candidate)
  {
    if |Select(c.blocks, node, Vacant)| < needed && Victim(c, node).Some? {
      EvictShrinks(c, node);
      VictimIsCandidate(c, node);
      EvictedIsForgotten(Evict(c, node, Victim(c, node).value), node, needed, i);
    }
  }

  lemma {:induction false} AddBlocksFollows(c: Cache, node: string, n: nat, i: nat)
    ensures var d := AddBlocks(c, node, n);
            |d.blocks| == |c.blocks| + n &&
            Follows(c.policy, d.policy, i, if |c.blocks| <= i < |d.blocks| then [Announced] else [])
  {
    hide Follows;
    if n == 0 {
      FollowsSelf(c.policy, i);
    } else {
      AddBlocksFollows(c, node, n - 1, i);
      var d := AddBlocks(c, node, n - 1);
      AnnounceFollows(d.policy, |d.blocks|, d.read(d.tick + 1), i);
      var before := if |c.blocks| <= i < |d.blocks| then [Announced] else [];
      var now := if |d.blocks| == i then [Announced] else [];
      FollowsTrans(c.policy, d.policy, AddBlocks(c, node, n).policy, i, before, now);
      assert before + now == if |c.blocks| <= i < |d.blocks| + 1 then [Announced] else [];
    }
  }

  lemma LookupFollows(c: Cache, node: string, r: Request, i: nat)
    requires Inv(c) && Allocatable(c, node)
    ensures Follows(c.policy, AfterLookup(c, node, r).policy, i, if i in Reused(c, node, r) then [Used] else [])
  {
    hide Inv, Follows, Reused, PinAll;
    InvNumbered(c);
    ReusedSpec(c, node, r);
    var ids := Reused(c, node, r);
    PinAllFollows(c, ids, i);
    OnceFollows(c.policy, PinAll(c, ids).policy, Used, ids, i);
    if ids == [] {
      FollowsSelf(c.policy, i);
    }
  }

  /** The eviction inside allocate, as the caller sees it. */
  lemma EmptiedInAllocate(c: Cache, node: string, r: Request, i: nat)
    requires Inv(c) && Allocatable(c, node)
    ensures var a := KVCache.Allocate(c, node, r);
            var gone := i in a.taken || (i < |a.cache.blocks| && a.cache.blocks[i].tokens == 0);
            var live := i < |c.blocks| && c.blocks[i].tokens > 0;
            EmptiedBy(AfterLookup(c, node, r).blocks, AfterEviction(c, node, r).blocks, i)
            == if live && i !in a.reused && gone then [Emptied] else []
  {
    hide Inv, AfterLookup, AfterEviction, LeastRanked, IndexLess, RanksKept, Taken, Reused, Settle, FillAll,
         Remaining, ToEvict, Shortfall, Select, SameKind;
    LookupSpec(c, node, r);
    ReusedSpec(c, node, r);
    var gone := EvictionSpec(c, node, r);
    TakenSpec(c, node, r);
    FinishSpec(AfterEviction(c, node, r), Reused(c, node, r), Taken(c, node, r), node,
               |Taken(c, node, r)| < Shortfall(c, node, r), r.prefixHash);
    EmptiedCondition(c, AfterLookup(c, node, r), AfterEviction(c, node, r), KVCache.Allocate(c, node, r), node,
                     |Taken(c, node, r)| < Shortfall(c, node, r), r.prefixHash, gone, i);
  }

  lemma EmptiedCondition(c: Cache, l: Cache, e: Cache, a: Allocation, node: string, short: bool,
                         hash: Option<string>, gone: set<nat>, i: nat)
    requires c.blockSize > 0 && Repinned(c, l, a.reused, true) && Evicted(l, e, node, gone)
    requires Finished(e, a, node, short, hash)
    requires forall j :: j in a.taken ==> j in Ids(e.blocks, node, Vacant)
    requires forall j :: j in a.reused ==> j < |c.blocks| && c.blocks[j].tokens > 0
    ensures EmptiedBy(l.blocks, e.blocks, i)
            == if i < |c.blocks| && c.blocks[i].tokens > 0 && i !in a.reused
                  && (i in a.taken || (i < |a.cache.blocks| && a.cache.blocks[i].tokens == 0))
               then [Emptied] else []
  {
    hide IndexLess, RanksKept, SameKind;
    if i < |c.blocks| {
      assert i in a.taken ==> i in Ids(e.blocks, node, Vacant);
      assert i in gone ==> i in Ids(l.blocks, node, Candidate);
      var f := a.cache.(index := e.index, stats := e.stats);
      assert f.blocks[i] == a.cache.blocks[i];
    }
  }

  lemma FinishFollows(c: Cache, node: string, r: Request, i: nat)
    requires Inv(c) && Allocatable(c, node)
    ensures Follows(AfterEviction(c, node, r).policy, KVCache.Allocate(c, node, r).cache.policy, i,
                    if i in Taken(c, node, r) then [Filled] else [])
  {
    hide Inv, Follows, Taken, AfterEviction, FillAll;
    var gone := EvictionSpec(c, node, r);
    TakenSpec(c, node, r);
    var e, ids := AfterEviction(c, node, r), Taken(c, node, r);
    FillAllFollows(e, ids, r.prefixHash, i);
    OnceFollows(e.policy, FillAll(e, ids, r.prefixHash).policy, Filled, ids, i);
  }

  lemma AllocateFollows(c: Cache, node: string, r: Request, i: nat)
    requires Inv(c) && Allocatable(c, node)
    ensures Follows(c.policy, KVCache.Allocate(c, node, r).cache.policy, i, Deeds(c, AllocateOp(node, r), i))
  {
    hide Inv, Follows, Taken, AfterEviction, AfterLookup, Reused, EmptiedBy;
    var l, e, a := AfterLookup(c, node, r), AfterEviction(c, node, r), KVCache.Allocate(c, node, r);
    LookupSpec(c, node, r);
    InvNumbered(l);
    LookupFollows(c, node, r, i);
    MaybeEvictFollows(l, node, Shortfall(c, node, r), i);
    EvictionOf(c, node, r);
    EmptiedInAllocate(c, node, r, i);
    FinishFollows(c, node, r, i);
    var used, emptied, filled := if i in a.reused then [Used] else [], EmptiedBy(l.blocks, e.blocks, i),
                                 if i in a.taken then [Filled] else [];
    FollowsTrans(c.policy, l.policy, e.policy, i, used, emptied);
    FollowsTrans(c.policy, e.policy, a.cache.policy, i, used + emptied, filled);
  }

  lemma EvictionOf(c: Cache, node: string, r: Request)
    requires Allocatable(c, node) && Numbered(AfterLookup(c, node, r).blocks)
    ensures AfterEviction(c, node, r) == MaybeEvict(AfterLookup(c, node, r), node, Shortfall(c, node, r))
  {
    hide MaybeEvict, AfterLookup, Shortfall;
  }

  lemma ApplyFollows(c: Cache, op: Op, i: nat)
    requires Inv(c) && IndexInPool(c) && Callable(c, op)
    ensures Follows(c.policy, Apply(c, op).policy, i, Deeds(c, op, i))
  {
    hide Inv, Follows, KVCache.Allocate, MaybeEvict, ReleaseAll, AddBlocks;
    InvNumbered(c);
    match op {
      case AllocateOp(node, r) =>
        AllocateFollows(c, node, r, i);
      case FreeOp(node, ids) =>
        ReleaseAllFollows(c, node, ids, i);
      case ForceEvictOp(node, n) =>
        MaybeEvictFollows(c, node, n, i);
      case AddNodeOp(node, total) =>
        AddBlocksFollows(c, node, total, i);
    }
  }

  /** After every run LFU has counted, and Belady consumed, exactly what the operations did. */
  lemma {:induction false} RunFollows(c: Cache, ops: seq<Op>, i: nat)
    requires Runnable(c, ops)
    ensures Follows(c.policy, Run(c, ops).policy, i, History(c, ops, i))
    decreases |ops|
  {
    hide Inv, Apply, Callable, Follows, Deeds;
    if ops == [] {
      FollowsSelf(c.policy, i);
    } else {
      var n := |ops| - 1;
      RunFollows(c, ops[..n], i);
      var s, d := LastStep(c, ops);
      InvNumbered(s);
      ApplyFollows(s, ops[n], i);
      FollowsTrans(c.policy, s.policy, d.policy, i, History(c, ops[..n], i), Deeds(s, ops[n], i));
    }
  }

  /** The accesses that a run leaves a block with: since it was last emptied or created, if it
      was, and else on top of the ones recorded at the start. */
  ghost function Uses(c: Cache, ops: seq<Op>, i: nat): nat
    requires Runnable(c, ops) && c.policy.LFU?
  {
    Tally(CountOf(c.policy.freq, i), History(c, ops, i))
  }

  /** The known uses that a run leaves to come. */
  ghost function Ahead(c: Cache, ops: seq<Op>, i: nat): seq<real>
    requires Runnable(c, ops) && c.policy.Belady?
  {
    Consume(FutureOf(c.policy.future, i), History(c, ops, i))
  }

  /** After any run, the blocks that LFU gives up were accessed no more often than any evictable
      block it keeps. */
  lemma LFUEvictsLeastUsed(c: Cache, ops: seq<Op>, node: string, needed: nat) returns (gone: set<nat>)
    requires Runnable(c, ops) && c.policy.LFU? && c.Serves(node)
    ensures var s := Run(c, ops);
            && Evicted(s, MaybeEvict(s, node, needed), node, gone)
            && |gone| == ToEvict(s, node, needed)
            && (forall v, w :: v in gone && w in Ids(s.blocks, node, Candidate) - gone ==>
                  Uses(c, ops, v) <= Uses(c, ops, w))
  {
    hide Inv, Callable, Evicted, MaybeEvict, History, Tally, Is;
    var s := Run(c, ops);
    gone := MaybeEvictSpec(s, node, needed);
    forall v, w | v in gone && w in Ids(s.blocks, node, Candidate) - gone
      ensures Uses(c, ops, v) <= Uses(c, ops, w)
    {
      RunFollows(c, ops, v);
      RunFollows(c, ops, w);
    }
  }

  /** And Belady keeps no evictable block that is used later than one it gives up. */
  lemma BeladyEvictsFurthest(c: Cache, ops: seq<Op>, node: string, needed: nat) returns (gone: set<nat>)
    requires Runnable(c, ops) && c.policy.Belady? && c.Serves(node)
    ensures var s := Run(c, ops);
            && Evicted(s, MaybeEvict(s, node, needed), node, gone)
            && |gone| == ToEvict(s, node, needed)
            && (forall v, w :: v in gone && w in Ids(s.blocks, node, Candidate) - gone ==>
                  !UsedLater(Ahead(c, ops, w), Ahead(c, ops, v)))
  {
    hide Inv, Callable, Evicted, MaybeEvict, History, Consume, Is;
    var s := Run(c, ops);
    gone := MaybeEvictSpec(s, node, needed);
    forall v, w | v in gone && w in Ids(s.blocks, node, Candidate) - gone
      ensures !UsedLater(Ahead(c, ops, w), Ahead(c, ops, v))
    {
      RunFollows(c, ops, v);
      RunFollows(c, ops, w);
      BeladyRanks(s.policy.future, w, v);
    }
  }

  /** What one operation can do with a block, by whether it is live before and afterwards. */
  ghost predicate Sensible(live: bool, after: bool, h: seq<Deed>) {
    || (h == [] && (live ==> after))
    || h == [Emptied]
    || (h == [Emptied] + [Filled] && after)
    || (h == [Filled] && !live && after)
    || (exists n :: h == Repeated(Used, n) && live && after)
  }

  lemma SensibleCounts(start: nat, live: bool, after: bool, h: seq<Deed>)
    requires Sensible(live, after, h) && (live || start == 0)
    ensures Tally(start, h) == SinceFilled(start, h) && (after || Tally(start, h) == 0)
  {
    assert ([Emptied] + [Filled])[..1] == [Emptied];
    if n :| h == Repeated(Used, n) && live && after {
      UsedCounts(start, n);
    }
  }

  ghost predicate LiveAt(c: Cache, i: nat) {
    i < |c.blocks| && c.blocks[i].tokens > 0
  }

  /** free is given only live blocks. */
  ghost predicate FreesLive(c: Cache, op: Op) {
    op.FreeOp? ==> forall i :: i in op.ids ==> LiveAt(c, i)
  }

  lemma AllocateLive(c: Cache, node: string, r: Request, i: nat)
    requires Inv(c) && Allocatable(c, node)
    ensures var a := KVCache.Allocate(c, node, r);
            && |a.cache.blocks| == |c.blocks|
            && (i in a.reused ==> i !in a.taken && LiveAt(c, i))
            && (i in a.reused || i in a.taken ==> LiveAt(a.cache, i))
  {
    hide Inv, KVCache.Allocate, Remaining, Reused, Taken, IndexLess, SameKind, StatsServed, NoDup;
    var a := KVCache.Allocate(c, node, r);
    AllocateHandsOut(c, node, r);
    var gone := AllocateServed(c, node, r);
    ReusedSpec(c, node, r);
    assert i in a.reused || i in a.taken ==> GoodBlock(a.cache, i, node, r.prefixHash);
    if i in a.reused {
      ApartBlocks(a, i);
    }
  }

  lemma ApartBlocks(a: Allocation, i: nat)
    requires NoDup(a.Blocks()) && i in a.reused
    ensures i !in a.taken
  {
    var j :| 0 <= j < |a.reused| && a.reused[j] == i;
    forall k | 0 <= k < |a.taken|
      ensures a.taken[k] != i
    {
      assert a.Blocks()[j] != a.Blocks()[|a.reused| + k];
    }
  }

  lemma AllocateSensible(c: Cache, node: string, r: Request, i: nat)
    requires Inv(c) && Allocatable(c, node) && i < |c.blocks|
    ensures Sensible(LiveAt(c, i), LiveAt(KVCache.Allocate(c, node, r).cache, i), Deeds(c, AllocateOp(node, r), i))
  {
    hide Inv, KVCache.Allocate;
    AllocateLive(c, node, r, i);
    assert Repeated(Used, 1) == [] + [Used];
  }

  lemma ApplySensible(c: Cache, op: Op, i: nat)
    requires Inv(c) && IndexInPool(c) && Callable(c, op) && FreesLive(c, op) && i < |c.blocks|
    ensures Sensible(LiveAt(c, i), LiveAt(Apply(c, op), i), Deeds(c, op, i))
  {
    hide Inv, KVCache.Allocate, Served, Remaining, IndexLess, RanksKept, SameKind, MaybeEvict, ReleaseAll, AddBlocks;
    InvNumbered(c);
    match op {
      case AllocateOp(node, r) =>
        AllocateSensible(c, node, r, i);
      case FreeOp(node, ids) =>
        ReleaseAllSpec(c, node, ids);
        if i !in ids {
          OccursNever(ids, i);
        }
      case ForceEvictOp(node, n) =>
        MaybeEvictFollows(c, node, n, i);
      case AddNodeOp(node, total) =>
        AddBlocksKeep(c, node, total, i);
    }
  }

  lemma SamePool(c: Cache, op: Op)
    requires Inv(c) && IndexInPool(c) && Callable(c, op) && !op.AddNodeOp?
    ensures |Apply(c, op).blocks| == |c.blocks|
  {
    hide Inv, KVCache.Allocate, IndexLess, RanksKept, SameKind, MaybeEvict, ReleaseAll;
    InvNumbered(c);
    if op.AllocateOp? {
      AllocateLive(c, op.node, op.request, 0);
    }
  }

  lemma AnnouncedBy(c: Cache, op: Op, i: nat)
    requires Inv(c) && IndexInPool(c) && Callable(c, op) && |c.blocks| <= i < |Apply(c, op).blocks|
    ensures Deeds(c, op, i) == [Announced] && !LiveAt(Apply(c, op), i)
  {
    if op.AddNodeOp? {
      AddBlocksSpec(c, op.node, op.total);
    } else {
      SamePool(c, op);
      assert false;
    }
  }

  /** The counts after one more operation. */
  lemma CountStep(c: Cache, op: Op, i: nat)
    requires Inv(c) && IndexInPool(c) && Callable(c, op) && FreesLive(c, op) && c.policy.LFU?
    requires i < |Apply(c, op).blocks| && (i < |c.blocks| && !LiveAt(c, i) ==> CountOf(c.policy.freq, i) == 0)
    ensures var d := Apply(c, op);
            && d.policy.LFU?
            && (i < |c.blocks| ==> CountOf(d.policy.freq, i) == SinceFilled(CountOf(c.policy.freq, i), Deeds(c, op, i)))
            && (i >= |c.blocks| ==> Deeds(c, op, i) == [Announced] && CountOf(d.policy.freq, i) == 0)
            && (LiveAt(d, i) || CountOf(d.policy.freq, i) == 0)
  {
    hide Inv, Apply, Callable, Deeds, SinceFilled, FreesLive, Sensible, LiveAt, CountOf;
    InvNumbered(c);
    ApplyFollows(c, op, i);
    if i < |c.blocks| {
      ApplySensible(c, op, i);
      SensibleCounts(CountOf(c.policy.freq, i), LiveAt(c, i), LiveAt(Apply(c, op), i), Deeds(c, op, i));
    } else {
      AnnouncedBy(c, op, i);
    }
  }

  /** Over every run in which free is given only live blocks, started with no count recorded for
      an empty block: LFU's count of every block is the number of its accesses since it was last
      filled, and an empty block has none. */
  lemma {:induction false} LFUCountsSinceFilled(c: Cache, ops: seq<Op>, i: nat)
    requires Runnable(c, ops) && c.policy.LFU? && i < |Run(c, ops).blocks|
    requires forall j :: 0 <= j < |c.blocks| && !LiveAt(c, j) ==> CountOf(c.policy.freq, j) == 0
    requires forall k :: 0 <= k < |ops| && Runnable(c, ops[..k]) ==> FreesLive(Run(c, ops[..k]), ops[k])
    ensures var d := Run(c, ops);
            && d.policy.LFU?
            && CountOf(d.policy.freq, i) == SinceFilled(CountOf(c.policy.freq, i), History(c, ops, i))
            && (LiveAt(d, i) || CountOf(d.policy.freq, i) == 0)
    decreases |ops|
  {
    hide Inv, Apply, Callable, Deeds, FreesLive, LiveAt, CountOf;
    if ops != [] {
      var n := |ops| - 1;
      var s, d := LastStep(c, ops);
      InvNumbered(s);
      forall k | 0 <= k < n && Runnable(c, ops[..n][..k])
        ensures FreesLive(Run(c, ops[..n][..k]), ops[..n][k])
      {
        assert ops[..n][..k] == ops[..k];
      }
      if i < |s.blocks| {
        LFUCountsSinceFilled(c, ops[..n], i);
      }
      RunKeepsKind(c, ops[..n]);
      CountStep(s, ops[n], i);
      SinceFilledAppend(CountOf(c.policy.freq, i), History(c, ops[..n], i), Deeds(s, ops[n], i));
    }
  }

  /** Over every run: the count is that of the accesses since the last filling exactly if the block
      was not freed while it was empty. */
  lemma CountsSinceFilledIff(c: Cache, ops: seq<Op>, i: nat)
    requires Runnable(c, ops) && c.policy.LFU?
    ensures var d, start, h := Run(c, ops), CountOf(c.policy.freq, i), History(c, ops, i);
            && d.policy.LFU?
            && (CountOf(d.policy.freq, i) == SinceFilled(start, h) <==> Early(start, h) == 0)
  {
    hide Inv, History, Tally, SinceFilled, Early, CountOf;
    RunFollows(c, ops, i);
    EarlyIsTheRest(CountOf(c.policy.freq, i), History(c, ops, i));
  }

  lemma OneMore(c: Cache, ops: seq<Op>, op: Op, i: nat)
    requires Runnable(c, ops) && Callable(Run(c, ops), op)
    ensures var s := Run(c, ops);
            && Numbered(s.blocks) && IndexInPool(s)
            && Runnable(c, ops + [op]) && Run(c, ops + [op]) == Apply(s, op)
            && History(c, ops + [op], i) == History(c, ops, i) + Deeds(s, op, i)
  {
    hide Inv, Apply, Callable, Deeds;
    var all := ops + [op];
    assert all[..|all| - 1] == ops;
    InvNumbered(Run(c, ops));
    InvIndexInPool(Run(c, ops));
  }

  /** One empty block, freed. */
  lemma FreedEmptyBlock(blockSize: nat, read: nat -> real) returns (c: Cache, ops: seq<Op>)
    requires blockSize > 0
    ensures c == Empty(blockSize, LFU(map[]), read, 0) && ops == [AddNodeOp("n", 1), FreeOp("n", [0])]
    ensures Runnable(c, ops) && History(c, ops, 0) == [Announced, Used]
    ensures var s := Run(c, ops);
            && |s.blocks| == 1 && s.Serves("n") && s.index == map[]
            && s.blocks[0].node == "n" && s.blocks[0].tokens == 0 && !s.blocks[0].pinned
  {
    hide Inv, Apply;
    c := Empty(blockSize, LFU(map[]), read, 0);
    EmptyInv(blockSize, LFU(map[]), read, 0);
    OneMore(c, [], AddNodeOp("n", 1), 0);
    assert [] + [AddNodeOp("n", 1)] == [AddNodeOp("n", 1)];
    var s := AddedBlock(c);
    OneMore(c, [AddNodeOp("n", 1)], FreeOp("n", [0]), 0);
    ops := [AddNodeOp("n", 1)] + [FreeOp("n", [0])];
    ReleaseAllSpec(s, "n", [0]);
    assert FreeOp("n", [0]).ids[..0] == [];
    assert Occurrences([0], 0) == 1;
    assert Repeated(Used, 1) == [] + [Used];
    FreedBlock(s);
  }

  lemma AddedBlock(c: Cache) returns (s: Cache)
    requires c.blocks == [] && c.index == map[] && c.stats == map[] && c.blockSize > 0
    ensures Numbered(c.blocks) && IndexInPool(c) && s == Apply(c, AddNodeOp("n", 1))
    ensures |s.blocks| == 1 && s.Serves("n") && s.index == map[]
    ensures s.blocks[0].node == "n" && s.blocks[0].tokens == 0 && !s.blocks[0].pinned
  {
    s := Apply(c, AddNodeOp("n", 1));
    AddBlocksSpec(c, "n", 1);
  }

  lemma FreedBlock(s: Cache)
    requires |s.blocks| == 1 && Numbered(s.blocks) && IndexInPool(s) && s.Serves("n") && s.index == map[]
    requires s.blocks[0].node == "n" && s.blocks[0].tokens == 0 && !s.blocks[0].pinned
    ensures var d := Apply(s, FreeOp("n", [0]));
            && |d.blocks| == 1 && d.Serves("n") && d.index == map[]
            && d.blocks[0].node == "n" && d.blocks[0].tokens == 0 && !d.blocks[0].pinned
  {
    ReleaseAllSpec(s, "n", [0]);
  }

  /** A manager where the two differ: its one block is freed before it was ever filled. */
  lemma FreeingEmptyCounts(blockSize: nat, read: nat -> real, r: Request) returns (c: Cache, ops: seq<Op>)
    requires blockSize > 0 && r.prefixHash == None
    ensures Runnable(c, ops) && c == Empty(blockSize, LFU(map[]), read, 0)
    ensures ops == [AddNodeOp("n", 1), FreeOp("n", [0]), AllocateOp("n", r)]
    ensures Uses(c, ops, 0) == 2 && SinceFilled(0, History(c, ops, 0)) == 1
  {
    hide Inv, KVCache.Allocate, Apply, TryRun;
    var before: seq<Op>;
    c, before := FreedEmptyBlock(blockSize, read);
    var s := Run(c, before);
    OneMore(c, before, AllocateOp("n", r), 0);
    ops := before + [AllocateOp("n", r)];
    TakesTheBlock(s, r);
    assert History(c, ops, 0) == [Announced, Used, Filled];
    assert [Announced, Used, Filled][..2] == [Announced, Used] && [Announced, Used][..1] == [Announced];
  }

  lemma TakesTheBlock(s: Cache, r: Request)
    requires Inv(s) && Allocatable(s, "n") && r.prefixHash == None
    requires |s.blocks| == 1 && s.blocks[0].node == "n" && s.blocks[0].tokens == 0 && !s.blocks[0].pinned
    ensures Deeds(s, AllocateOp("n", r), 0) == [Filled]
  {
    hide Inv, KVCache.Allocate, Served, Taken, AfterLookup, AfterEviction, ToEvict, LeastRanked, Shortfall;
    var a := KVCache.Allocate(s, "n", r);
    AllocateHandsOut(s, "n", r);
    var gone := AllocateServed(s, "n", r);
    OneUnpinned(s);
    assert |a.taken| == 1 && GoodBlock(a.cache, a.taken[0], "n", None) && |a.cache.blocks| == 1 by {
      AllocateLive(s, "n", r, 0);
    }
    assert [] + [] + [Filled] == [Filled];
  }

  lemma OneUnpinned(s: Cache)
    requires |s.blocks| == 1 && s.blocks[0].node == "n" && !s.blocks[0].pinned
    ensures Remaining(s, "n", []) == {0}
  {
  }
}
