/** The class of control_plane/kv_cache_manager/kv_cache_manager.py: it updates blocks, the
    prefix index, the counters, the policy and the clock in place, and each method is proved
    to do what its function in KVCache.dfy says. */
module KVCacheManagers {
  import opened Models
  import opened EvictionPolicies
  import opened BlockPools
  import opened KVCache
  import opened KVCacheProofs
  import opened KVCacheRuns

  function BlockIds(bs: seq<KVBlock>): (r: seq<nat>)
    ensures |r| == |bs| && forall i :: 0 <= i < |bs| ==> r[i] == bs[i].id
  {
    seq(|bs|, i requires 0 <= i < |bs| => bs[i].id)
  }

  function IndexIds(prefixCache: map<string, seq<KVBlock>>): Index {
    map h | h in prefixCache :: BlockIds(prefixCache[h])
  }

  class KVCacheManager {
    const blockSize: nat
    const policy: EvictionPolicy
    const clock: Clock
    var pool: seq<KVBlock>
    var prefixCache: map<string, seq<KVBlock>>
    var stats: map<string, Stats>
    ghost var view: Cache  // the value of the manager, kept equal to Snapshot()

    function Snapshot(): Cache
      reads this, pool, policy, clock
    {
      Cache(blockSize, Views(pool), IndexIds(prefixCache), stats, policy.state, clock.read, clock.tick)
    }

    ghost predicate Holds(b: KVBlock)
      reads this`pool
    {
      b.id < |pool| && pool[b.id] == b
    }

    ghost predicate Owns(bs: seq<KVBlock>)
      reads this`pool
    {
      forall j :: 0 <= j < |bs| ==> Holds(bs[j])
    }

    ghost predicate Wired()
      reads this, pool, policy, clock
    {
      && policy.clock == clock
      && (forall i :: 0 <= i < |pool| ==> pool[i].id == i)
      && (forall h :: h in prefixCache ==> Owns(prefixCache[h]))
      && view == Snapshot()
    }

    ghost predicate Valid()
      reads this, pool, policy, clock
    {
      Wired() && Inv(view)
    }

    constructor (blockSize: nat, policy: EvictionPolicy, clock: Clock)
      requires blockSize > 0 && policy.clock == clock
      ensures Valid() && view == Empty(blockSize, policy.state, clock.read, clock.tick)
      ensures this.policy == policy && this.clock == clock && pool == []
    {
      this.blockSize, this.policy, this.clock := blockSize, policy, clock;
      pool, prefixCache, stats := [], map[], map[];
      view := Empty(blockSize, policy.state, clock.read, clock.tick);
      new;
      assert Snapshot() == view;
      EmptyInv(blockSize, policy.state, clock.read, clock.tick);
    }

    /** One round of the block-creation loop. */
    method AddBlock(node: string)
      requires Wired()
      modifies this`pool, this`view, policy`state, clock`tick
      ensures Wired() && view == AddBlocks(old(view), node, 1)
      ensures exists b :: fresh(b) && pool == old(pool) + [b]
    {
      var now := Reading();
      var b := new KVBlock(|pool|, node, now);
      Append(b);
      assert AddBlocks(old(view), node, 0) == old(view);
    }

    /** policy.on_allocate(block); blocks.append(block) */
    method Append(b: KVBlock)
      requires Wired() && b.id == |pool| && b !in pool
      modifies this`pool, this`view, policy`state, clock`tick
      ensures Wired() && pool == old(pool) + [b]
      ensures view == old(view).(blocks := old(view).blocks + [b.View()],
                                 policy := old(view).policy.OnAllocate(b.id, old(view).read(old(view).tick)),
                                 tick := old(view).tick + (if old(view).policy.LRU? then 1 else 0))
    {
      policy.OnAllocate(b);
      ghost var before := Views(pool);
      pool := pool + [b];
      assert Views(pool) == before + [b.View()];
      view := view.(blocks := Views(pool), policy := policy.state, tick := clock.tick);
      forall h | h in prefixCache
        ensures Owns(prefixCache[h])
      {
        assert forall j :: 0 <= j < |prefixCache[h]| ==> old(Holds(prefixCache[h][j]));
      }
    }

    /** _init_node and add_node: the new blocks go to the end of the pool. */
    method AddNode(node: string, total: nat)
      requires Wired() && !view.Serves(node)
      modifies this`pool, this`view, this`stats, policy`state, clock`tick
      ensures Wired() && view == KVCache.AddNode(old(view), node, total)
      ensures Inv(old(view)) ==> Inv(view)
      ensures old(pool) <= pool && fresh(pool[|old(pool)|..])
    {
      hide Wired, Inv;
      ghost var start := view;
      for n := 0 to total
        invariant Wired() && old(pool) <= pool && fresh(pool[|old(pool)|..])
        invariant view == AddBlocks(start, node, n)
      {
        ghost var before := pool;
        AddBlock(node);
        AddOneMore(start, node, n);
        assert pool[|old(pool)|..] == before[|old(pool)|..] + [pool[|before|]];
      }
      PutStats(node, Stats(total, 0, 0, 0, 0, 0));
      if Inv(start) {
        AddNodeKeepsInv(start, node, total);
      }
    }

    method PutStats(node: string, s: Stats)
      requires Wired()
      modifies this`stats, this`view
      ensures Wired() && view == WithStats(old(view), node, s)
    {
      stats := stats[node := s];
      view := WithStats(view, node, s);
    }

    /** A list comprehension over `_blocks[node]`. */
    method Scan(node: string, kind: Kind) returns (r: seq<KVBlock>)
      requires Wired()
      ensures Owns(r) && Views(r) == Select(view.blocks, node, kind)
    {
      r := [];
      ghost var all := Views(pool);
      for i := 0 to |pool|
        invariant Owns(r) && Views(r) == Select(all[..i], node, kind)
      {
        assert all[..i + 1][..i] == all[..i] && all[..i + 1][i] == pool[i].View();
        if Is(pool[i].View(), node, kind) {
          assert Views(r + [pool[i]]) == Views(r) + [pool[i].View()];
          r := r + [pool[i]];
        }
      }
      assert all[..|pool|] == all;
    }

    method Access(b: KVBlock)
      requires Wired() && Holds(b)
      modifies this`view, policy`state, clock`tick, b`lastAccessed
      ensures Wired() && view == Touch(old(view), b.id)
    {
      policy.OnAccess(b);
      assert Views(pool) == old(Views(pool))[b.id := b.View()];
      view := Touch(view, b.id);
    }

    lemma ViewOf(b: KVBlock)
      requires Wired() && Holds(b)
      ensures b.id < |view.blocks| && view.blocks[b.id] == b.View() && view.blockSize == blockSize
    {
    }

    /** A reading of the clock. */
    method Reading() returns (now: real)
      requires Wired()
      modifies this`view, clock`tick
      ensures Wired() && now == old(view).read(old(view).tick) && view == old(view).(tick := old(view).tick + 1)
    {
      now := clock.Now();
      view := view.(tick := view.tick + 1);
    }

    method PinBlock(b: KVBlock)
      requires Wired() && Holds(b)
      modifies this`view, policy`state, clock`tick, b
      ensures Wired() && view == Pin(old(view), b.id)
    {
      b.pinned := true;
      assert Views(pool) == old(Views(pool))[b.id := b.View()];
      view := Write(view, b.id, b.View());
      Access(b);
    }

    method FillBlock(b: KVBlock, hash: Option<string>)
      requires Wired() && Holds(b)
      modifies this`view, policy`state, clock`tick, b
      ensures Wired() && view == Fill(old(view), b.id, hash)
    {
      hide Wired;
      ViewOf(b);
      var now := Reading();
      MarkInUse(b, hash, now);
      Access(b);
    }

    method MarkInUse(b: KVBlock, hash: Option<string>, now: real)
      requires Wired() && Holds(b)
      modifies this`view, b
      ensures Wired() && Holds(b)
      ensures view == Write(old(view), b.id,
                            old(b.View()).(tokens := blockSize,
                              hash := if Truthy(hash) then hash else old(b.prefixHash),
                                           pinned := true, last := now))
    {
      b.tokensUsed := blockSize;
      if Truthy(hash) {
        b.prefixHash := hash;
      }
      b.pinned := true;
      b.lastAccessed := now;
      assert Views(pool) == old(Views(pool))[b.id := b.View()];
      view := Write(view, b.id, b.View());
    }

    method ReleaseBlock(node: string, b: KVBlock, keepPrefix: bool)
      requires Wired() && Holds(b) && view.Serves(node)
      modifies this`view, this`stats, policy`state, clock`tick, b
      ensures Wired() && view == KVCache.Release(old(view), node, b.id, keepPrefix)
    {
      b.pinned := false;
      if !keepPrefix {
        b.tokensUsed := 0;
        b.prefixHash := None;
        stats := stats[node := stats[node].(used := Max(0, stats[node].used - 1))];
      }
      assert Views(pool) == old(Views(pool))[b.id := b.View()];
      view := Write(view, b.id, b.View()).(stats := stats);
      Access(b);
    }

    /** What the eviction loop does to the prefix index. */
    method UnlinkBlock(victim: KVBlock)
      requires Wired() && Holds(victim)
      modifies this`prefixCache, this`view
      ensures Wired() && view == old(view).(index := Unlink(old(view).index, victim.View()))
    {
      var hash := victim.prefixHash;
      if Truthy(hash) && hash.value in prefixCache {
        var cached := RemoveBlock(prefixCache[hash.value], victim);
        UnlinkIds(prefixCache, victim.View(), cached);
        prefixCache := if cached == [] then prefixCache - {hash.value} else prefixCache[hash.value := cached];
      }
      view := view.(index := Unlink(view.index, victim.View()));
    }

    /** `if victim in cached: cached.remove(victim)` */
    method RemoveBlock(cached: seq<KVBlock>, victim: KVBlock) returns (r: seq<KVBlock>)
      requires Wired() && Owns(cached) && Holds(victim)
      ensures Owns(r)
      ensures BlockIds(r) ==
              if victim.id in BlockIds(cached) then Remove(BlockIds(cached), victim.id) else BlockIds(cached)
    {
      var k := 0;
      while k < |cached| && cached[k] != victim
        invariant 0 <= k <= |cached|
        invariant forall j :: 0 <= j < k ==> cached[j] != victim && cached[j].id != victim.id
      {
        k := k + 1;
      }
      if k == |cached| {
        return cached;
      }
      r := cached[..k] + cached[k + 1..];
      RemoveAt(BlockIds(cached), victim.id, k);
      assert BlockIds(cached)[k] == victim.id;
      assert BlockIds(r) == BlockIds(cached)[..k] + BlockIds(cached)[k + 1..];
    }

    /** The body of the eviction loop, once a victim is chosen. */
    method EvictBlock(node: string, victim: KVBlock)
      requires Wired() && Holds(victim) && view.Serves(node)
      modifies this`prefixCache, this`stats, this`view, policy`state, clock`tick, victim
      ensures Wired() && view == Evict(old(view), node, old(victim.View()))
    {
      hide Wired;
      UnlinkBlock(victim);
      DropFromPolicy(victim);
      ResetBlock(victim);
      var s := Counters(node);
      PutStats(node, s.(used := Max(0, s.used - 1), evictions := s.evictions + 1));
    }

    method DropFromPolicy(victim: KVBlock)
      requires Wired()
      modifies this`view, policy`state
      ensures Wired() && view == old(view).(policy := old(view).policy.OnFree(victim.id))
    {
      policy.OnFree(victim);
      view := view.(policy := policy.state);
    }

    method ResetBlock(victim: KVBlock)
      requires Wired() && Holds(victim)
      modifies this`view, clock`tick, victim
      ensures Wired() && Holds(victim)
      ensures view == Write(old(view), victim.id,
                            old(victim.View()).(tokens := 0, hash := None, last := old(view).read(old(view).tick))).(
                      tick := old(view).tick + 1)
    {
      var now := Reading();
      victim.tokensUsed := 0;
      victim.prefixHash := None;
      victim.lastAccessed := now;
      assert Views(pool) == old(Views(pool))[victim.id := victim.View()];
      view := Write(view, victim.id, victim.View());
    }

    method ChooseVictim(node: string) returns (victim: Option<KVBlock>)
      requires Wired()
      ensures match victim
              case None => Victim(view, node) == None
              case Some(b) => Holds(b) && b in pool && Victim(view, node) == Some(b.View())
    {
      var candidates := Scan(node, Candidate);
      victim := policy.PickVictim(candidates);
    }

    method MaybeEvict(node: string, needed: nat) returns (evicted: nat)
      requires Wired() && Numbered(view.blocks) && view.Serves(node)
      modifies this`prefixCache, this`stats, this`view, policy`state, clock`tick, pool
      ensures Wired() && view == KVCache.MaybeEvict(old(view), node, needed)
      ensures evicted + |Select(old(view).blocks, node, Vacant)| == |Select(view.blocks, node, Vacant)|
    {
      hide Wired;
      ghost var goal := KVCache.MaybeEvict(view, node, needed);
      var vacant := Scan(node, Vacant);
      var freeCount := |vacant|;
      evicted := 0;
      while freeCount < needed
        invariant Wired() && Numbered(view.blocks) && view.Serves(node)
        invariant freeCount == |Select(view.blocks, node, Vacant)|
        invariant evicted + |Select(old(view).blocks, node, Vacant)| == freeCount
        invariant KVCache.MaybeEvict(view, node, needed) == goal
        decreases Ids(view.blocks, node, Candidate)
      {
        var victim := ChooseVictim(node);
        if victim.None? {
          break;
        }
        EvictShrinks(view, node);
        CountVacant(view, node);
        EvictBlock(node, victim.value);
        freeCount := freeCount + 1;
        evicted := evicted + 1;
      }
    }

    method ForceEvict(node: string, n: nat) returns (evicted: nat)
      requires Wired() && view.Serves(node)
      modifies this`prefixCache, this`stats, this`view, policy`state, clock`tick, pool
      ensures Wired() && Numbered(old(view).blocks) && view == KVCache.MaybeEvict(old(view), node, n)
      ensures evicted == ToEvict(old(view), node, n)
      ensures Inv(old(view)) ==> Inv(view)
    {
      WiredIsAllocatable(node);
      hide Wired, Inv;
      EvictCount(view, node, n);
      if Inv(view) {
        ghost var gone := MaybeEvictSpec(view, node, n);
      }
      evicted := MaybeEvict(node, n);
    }

    /** The object structure alone makes every operation applicable, consistent or not. */
    lemma WiredIsAllocatable(node: string)
      requires Wired() && view.Serves(node)
      ensures Allocatable(view, node)
    {
      forall h | h in view.index
        ensures InPool(view, view.index[h])
      {
        OwnedInPool(prefixCache[h]);
      }
    }

    /** free(): with keepPrefix the manager stays consistent whatever the list. */
    method Free(node: string, blocks: seq<KVBlock>, keepPrefix: bool)
      requires Wired() && view.Serves(node) && Owns(blocks)
      modifies this`stats, this`view, policy`state, clock`tick, pool
      ensures Wired() && InPool(old(view), BlockIds(blocks))
      ensures view == KVCache.Free(old(view), node, BlockIds(blocks), keepPrefix)
      ensures Inv(old(view)) ==> (Inv(view) <==> keepPrefix || CleanFree(old(view), node, BlockIds(blocks)))
    {
      hide Wired, Inv;
      ghost var c := view;
      ghost var ids := BlockIds(blocks);
      OwnedInPool(blocks);
      for i := 0 to |blocks|
        invariant Wired() && InPool(c, ids) && view == ReleaseAll(c, node, ids[..i], keepPrefix)
      {
        assert ids[..i + 1][..i] == ids[..i] && ids[..i + 1][i] == blocks[i].id;
        assert Holds(blocks[i]);
        ReleaseBlock(node, blocks[i], keepPrefix);
      }
      assert ids[..|blocks|] == ids;
      if Inv(c) {
        if keepPrefix {
          ReleaseAllSpec(c, node, ids);
          RepinnedKeepsInv(c, view, ids, false);
        } else {
          DropKeepsInvIffClean(c, node, ids);
        }
      }
    }

    method Allocate(node: string, r: Request) returns (blocks: seq<KVBlock>, hit: bool)
      requires Wired() && view.Serves(node)
      modifies this`prefixCache, this`stats, this`view, policy`state, clock`tick, pool
      ensures Wired() && Owns(blocks)
      ensures Inv(old(view)) ==> Inv(view)
      ensures Allocatable(old(view), node)
      ensures var a := KVCache.Allocate(old(view), node, r);
              view == a.cache && BlockIds(blocks) == a.Blocks() && hit == a.Hit()
    {
      hide *;
      ghost var c := view;
      WiredIsAllocatable(node);
      if Inv(c) {
        AllocateKeepsInv(c, node, r);
      }
      var reused, shortfall := Prepare(node, r);
      var taken := Take(node, reused, shortfall, r.prefixHash);
      AllocateFrom(c, node, r, BlockIds(taken));
      hit := reused != [];
      blocks := reused + taken;
      OwnsConcat(reused, taken);
      assert BlockIds(blocks) == BlockIds(reused) + BlockIds(taken);
    }

    lemma OwnsConcat(a: seq<KVBlock>, b: seq<KVBlock>)
      requires Owns(a) && Owns(b)
      ensures Owns(a + b)
    {
    }

    /** Lookup and eviction: everything allocate does before it takes fresh blocks. */
    method Prepare(node: string, r: Request) returns (reused: seq<KVBlock>, shortfall: nat)
      requires Wired() && Allocatable(view, node)
      modifies this`prefixCache, this`stats, this`view, policy`state, clock`tick, pool
      ensures Wired() && Owns(reused)
      ensures view == AfterEviction(old(view), node, r) && BlockIds(reused) == Reused(old(view), node, r)
      ensures shortfall == Shortfall(old(view), node, r)
    {
      ghost var c := view;
      hide Wired, Select, PinAll;
      PinAllNumbered(c, Reused(c, node, r));
      reused := Lookup(node, r);
      shortfall := Max(0, r.KvBlocksNeeded() - |reused|);
      var evicted := MaybeEvict(node, shortfall);
    }

    lemma OwnedInPool(bs: seq<KVBlock>)
      requires Wired() && Owns(bs)
      ensures InPool(view, BlockIds(bs)) && forall j :: 0 <= j < |bs| ==> bs[j] in pool
    {
      forall j | 0 <= j < |bs|
        ensures bs[j] in pool && bs[j].id < |pool|
      {
        assert Holds(bs[j]);
      }
    }

    /** The prefix lookup of allocate. */
    method Lookup(node: string, r: Request) returns (reused: seq<KVBlock>)
      requires Wired() && Allocatable(view, node)
      modifies this`stats, this`view, policy`state, clock`tick, pool
      ensures Wired() && Owns(reused)
      ensures view == AfterLookup(old(view), node, r) && BlockIds(reused) == Reused(old(view), node, r)
    {
      hide Wired;
      reused := Find(node, r);
      PinBlocks(reused);
      var s := Counters(node);
      PutStats(node, if reused != [] then s.(hits := s.hits + 1) else s.(misses := s.misses + 1));
      assert reused == [] ==> PinAll(old(view), BlockIds(reused)) == old(view);
    }

    method Counters(node: string) returns (s: Stats)
      requires Wired() && view.Serves(node)
      ensures s == view.stats[node]
    {
      s := stats[node];
    }

    method Find(node: string, r: Request) returns (reused: seq<KVBlock>)
      requires Wired() && Allocatable(view, node)
      ensures Owns(reused) && BlockIds(reused) == Reused(view, node, r)
    {
      reused := [];
      if Truthy(r.prefixHash) && r.prefixHash.value in prefixCache {
        reused := CachedOn(node, prefixCache[r.prefixHash.value]);
      }
    }

    method PinBlocks(bs: seq<KVBlock>)
      requires Wired() && Owns(bs)
      modifies this`view, policy`state, clock`tick, pool
      ensures Wired() && InPool(old(view), BlockIds(bs))
      ensures view == PinAll(old(view), BlockIds(bs))
    {
      hide Wired;
      ghost var c := view;
      ghost var ids := BlockIds(bs);
      OwnedInPool(bs);
      for i := 0 to |bs|
        invariant Wired() && InPool(c, ids) && view == PinAll(c, ids[..i])
      {
        assert ids[..i + 1][..i] == ids[..i] && ids[..i + 1][i] == bs[i].id;
        assert Holds(bs[i]);
        PinBlock(bs[i]);
      }
      assert ids[..|bs|] == ids;
    }

    /** `[b for b in cached if b.node_id == node_id]` */
    method CachedOn(node: string, cached: seq<KVBlock>) returns (r: seq<KVBlock>)
      requires Wired() && Owns(cached)
      ensures Owns(r) && Within(view.blocks, BlockIds(cached))
      ensures BlockIds(r) == OnNode(view.blocks, BlockIds(cached), node)
    {
      r := [];
      ghost var ids := BlockIds(cached);
      for i := 0 to |cached|
        invariant Owns(r) && BlockIds(r) == OnNode(view.blocks, ids[..i], node)
      {
        assert ids[..i + 1][..i] == ids[..i] && ids[..i + 1][i] == cached[i].id;
        assert Holds(cached[i]);
        if cached[i].node == node {
          assert BlockIds(r + [cached[i]]) == BlockIds(r) + [cached[i].id];
          r := r + [cached[i]];
        }
      }
      assert ids[..|cached|] == ids;
    }

    /** The fresh part of allocate: take vacant blocks, fill them, count and index them. */
    method Take(node: string, reused: seq<KVBlock>, shortfall: nat, hash: Option<string>) returns (taken: seq<KVBlock>)
      requires Wired() && Owns(reused) && Numbered(view.blocks) && view.Serves(node)
      modifies this`prefixCache, this`stats, this`view, policy`state, clock`tick, pool
      ensures Wired() && Owns(taken)
      ensures InPool(old(view), BlockIds(taken))
      ensures var free := Select(old(view).blocks, node, Fresh);
              BlockIds(taken) == Refs(free[..Min(|free|, shortfall)])
      ensures view == Finish(old(view), BlockIds(reused), BlockIds(taken), node, |taken| < shortfall, hash).cache
    {
      hide Wired, Is;
      ghost var e := view;
      var free := Scan(node, Fresh);
      var n := Min(|free|, shortfall);
      taken := free[..n];
      OwnedInPool(taken);
      assert BlockIds(taken) == Refs(Select(e.blocks, node, Fresh)[..n]);
      FillBlocks(taken, hash);
      SettleUp(node, reused, taken, n < shortfall, hash);
    }

    method SettleUp(node: string, reused: seq<KVBlock>, taken: seq<KVBlock>, short: bool, hash: Option<string>)
      requires Wired() && Owns(reused) && Owns(taken) && view.Serves(node)
      modifies this`prefixCache, this`stats, this`view
      ensures Wired() && view == Settle(old(view), BlockIds(reused), BlockIds(taken), node, short, hash)
    {
      hide Wired;
      assert BlockIds(reused + taken) == BlockIds(reused) + BlockIds(taken);
      if Truthy(hash) && taken != [] {
        Register(hash.value, reused + taken);
      }
      var s := Counters(node);
      PutStats(node, s.(spills := s.spills + (if short then 1 else 0), used := s.used + |taken|));
    }

    method Register(h: string, bs: seq<KVBlock>)
      requires Wired() && Owns(bs)
      modifies this`prefixCache, this`view
      ensures Wired() && view == old(view).(index := old(view).index[h := BlockIds(bs)])
    {
      prefixCache := prefixCache[h := bs];
      view := view.(index := view.index[h := BlockIds(bs)]);
      assert IndexIds(prefixCache) == view.index;
    }

    method FillBlocks(taken: seq<KVBlock>, hash: Option<string>)
      requires Wired() && Owns(taken)
      modifies this`view, policy`state, clock`tick, pool
      ensures Wired() && InPool(old(view), BlockIds(taken))
      ensures view == FillAll(old(view), BlockIds(taken), hash)
    {
      hide Wired;
      ghost var e := view;
      ghost var ids := BlockIds(taken);
      OwnedInPool(taken);
      for i := 0 to |taken|
        invariant Wired() && InPool(e, ids) && view == FillAll(e, ids[..i], hash)
      {
        assert ids[..i + 1][..i] == ids[..i] && ids[..i + 1][i] == taken[i].id;
        assert Holds(taken[i]);
        FillBlock(taken[i], hash);
      }
      assert ids[..|taken|] == ids;
    }
  }

  lemma AddOneMore(c: Cache, node: string, n: nat)
    ensures AddBlocks(AddBlocks(c, node, n), node, 1) == AddBlocks(c, node, n + 1)
  {
    assert AddBlocks(AddBlocks(c, node, n), node, 0) == AddBlocks(c, node, n);
  }

  lemma {:induction false} RemoveAt(s: seq<nat>, x: nat, k: nat)
    requires k < |s| && s[k] == x && forall j :: 0 <= j < k ==> s[j] != x
    ensures Remove(s, x) == s[..k] + s[k + 1..]
  {
    if k > 0 {
      RemoveAt(s[1..], x, k - 1);
    }
  }

  lemma UnlinkIds(prefixCache: map<string, seq<KVBlock>>, victim: Block, rest: seq<KVBlock>)
    requires Truthy(victim.hash) && victim.hash.value in prefixCache
    requires var ids := BlockIds(prefixCache[victim.hash.value]);
             BlockIds(rest) == if victim.id in ids then Remove(ids, victim.id) else ids
    ensures IndexIds(if rest == [] then prefixCache - {victim.hash.value} else prefixCache[victim.hash.value := rest])
            == Unlink(IndexIds(prefixCache), victim)
  {
  }

  lemma CountVacant(c: Cache, node: string)
    requires Numbered(c.blocks) && c.Serves(node) && Victim(c, node).Some?
    ensures var v := Victim(c, node).value;
            && v.id < |c.blocks|
            && |Select(Evict(c, node, v).blocks, node, Vacant)| == |Select(c.blocks, node, Vacant)| + 1
  {
    VictimIsCandidate(c, node);
    var v := Victim(c, node).value;
    VacantGrows(c, node, v);
    SelectCount(c.blocks, node, Vacant);
    SelectCount(Evict(c, node, v).blocks, node, Vacant);
  }

  /** How many blocks the eviction loop takes, whether the manager is consistent or not. */
  lemma {:induction false} EvictCount(c: Cache, node: string, needed: nat)
    requires Numbered(c.blocks) && c.Serves(node)
    ensures |Select(KVCache.MaybeEvict(c, node, needed).blocks, node, Vacant)|
            == |Select(c.blocks, node, Vacant)| + ToEvict(c, node, needed)
    decreases Ids(c.blocks, node, Candidate)
  {
    SelectCount(c.blocks, node, Vacant);
    VictimIsCandidate(c, node);
    hide Ids, Evict, Select;
    if |Select(c.blocks, node, Vacant)| < needed && Victim(c, node).Some? {
      EvictShrinks(c, node);
      CountVacant(c, node);
      var d := Evict(c, node, Victim(c, node).value);
      SelectCount(d.blocks, node, Vacant);
      OneFewer(Ids(c.blocks, node, Candidate), Ids(d.blocks, node, Candidate), Victim(c, node).value.id);
      EvictCount(d, node, needed);
    }
  }

  lemma OneFewer(a: set<nat>, b: set<nat>, x: nat)
    requires x in a && b == a - {x}
    ensures |a| == |b| + 1
  {
  }

  lemma AllocateFrom(c: Cache, node: string, r: Request, taken: seq<nat>)
    requires Allocatable(c, node)
    requires var free := Select(AfterEviction(c, node, r).blocks, node, Fresh);
             taken == Refs(free[..Min(|free|, Shortfall(c, node, r))])
    ensures InPool(AfterEviction(c, node, r), taken)
    ensures var a := Allocate(c, node, r);
            && a == Finish(AfterEviction(c, node, r), Reused(c, node, r), taken, node,
                           |taken| < Shortfall(c, node, r), r.prefixHash)
            && a.Blocks() == Reused(c, node, r) + taken && (a.Hit() <==> Reused(c, node, r) != [])
  {
    hide Select, AfterEviction, Reused, Settle, FillAll;
    assert taken == Taken(c, node, r);
  }
}
