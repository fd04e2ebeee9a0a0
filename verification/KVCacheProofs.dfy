/** The guarantees of the KV cache manager: what each operation keeps, what one call
    hands out, and what holds over every run. */
module KVCacheProofs {
  import opened Models
  import opened EvictionPolicies
  import opened BlockPools
  import opened KVCache

  // -------------------------------------------------------------- invariant

  ghost predicate BlockOk(c: Cache, i: nat)
    requires i < |c.blocks|
  {
    var b := c.blocks[i];
    && b.node in c.stats
    && (b.tokens == 0 || b.tokens == c.blockSize)
    && (b.tokens == 0 ==> !b.pinned && b.hash == None)
    && (b.hash.Some? ==> b.hash.value != "")
  }

  /** An index entry is a non-empty list of distinct live blocks of one node that carry the hash. */
  ghost predicate EntryOk(c: Cache, h: string)
    requires h in c.index
  {
    var e := c.index[h];
    && h != "" && e != [] && NoDup(e) && Within(c.blocks, e)
    && (forall j :: 0 <= j < |e| ==>
          && c.blocks[e[j]].tokens > 0
          && c.blocks[e[j]].hash == Some(h)
          && c.blocks[e[j]].node == c.blocks[e[0]].node)
  }

  /** The counters of a node agree with a scan of its pool. */
  ghost predicate CountOk(c: Cache, node: string)
    requires node in c.stats
  {
    && c.stats[node].used == |Ids(c.blocks, node, Live)|
    && c.stats[node].total == |Ids(c.blocks, node, Any)|
  }

  ghost predicate Inv(c: Cache) {
    && c.blockSize > 0
    && Numbered(c.blocks)
    && (forall i :: 0 <= i < |c.blocks| ==> BlockOk(c, i))
    && (forall h :: h in c.index ==> EntryOk(c, h))
    && (forall n :: n in c.stats ==> CountOk(c, n))
  }

  /** With nothing live or vacant miscounted, "total - used" is the number of vacant blocks. */
  lemma FreeBlocksIsVacant(c: Cache, node: string)
    requires Inv(c) && c.Serves(node)
    ensures c.FreeBlocks(node) == |Ids(c.blocks, node, Vacant)| == |Ids(c.blocks, node, Fresh)|
    ensures Ids(c.blocks, node, Vacant) == Ids(c.blocks, node, Fresh)
  {
    forall i | 0 <= i < |c.blocks|
      ensures Is(c.blocks[i], node, Vacant) <==> Is(c.blocks[i], node, Any) && !Is(c.blocks[i], node, Live)
      ensures Is(c.blocks[i], node, Vacant) <==> Is(c.blocks[i], node, Fresh)
    {
      assert BlockOk(c, i);
    }
    assert Ids(c.blocks, node, Any) == Ids(c.blocks, node, Live) + Ids(c.blocks, node, Vacant);
    assert Ids(c.blocks, node, Live) !! Ids(c.blocks, node, Vacant);
    assert Ids(c.blocks, node, Vacant) == Ids(c.blocks, node, Fresh);
    assert CountOk(c, node);
  }

  // ------------------------------------------------- pinning and unpinning

  ghost predicate SameKind(p: Policy, q: Policy) {
    (p.LRU? <==> q.LRU?) && (p.LFU? <==> q.LFU?) && (p.Belady? <==> q.Belady?)
  }

  ghost predicate Repin(bs: seq<Block>, cs: seq<Block>, ids: seq<nat>, flag: bool) {
    && |cs| == |bs|
    && (forall i :: 0 <= i < |bs| ==>
          if i in ids then cs[i] == bs[i].(pinned := flag, last := cs[i].last) else cs[i] == bs[i])
  }

  /** `d` is `c` with the listed blocks pinned or unpinned and possibly re-dated. */
  ghost predicate Repinned(c: Cache, d: Cache, ids: seq<nat>, flag: bool) {
    && d.blockSize == c.blockSize && d.index == c.index && d.read == c.read
    && SameKind(c.policy, d.policy)
    && Repin(c.blocks, d.blocks, ids, flag)
  }

  lemma {:induction false} PinAllSpec(c: Cache, ids: seq<nat>)
    requires InPool(c, ids)
    ensures Repinned(c, PinAll(c, ids), ids, true) && PinAll(c, ids).stats == c.stats
  {
    if ids != [] {
      assert ids == ids[..|ids| - 1] + [ids[|ids| - 1]];
      PinAllSpec(c, ids[..|ids| - 1]);
    }
  }

  lemma {:induction false} ReleaseAllSpec(c: Cache, node: string, ids: seq<nat>)
    requires InPool(c, ids) && c.Serves(node)
    ensures Repinned(c, ReleaseAll(c, node, ids, true), ids, false) && ReleaseAll(c, node, ids, true).stats == c.stats
  {
    if ids != [] {
      assert ids == ids[..|ids| - 1] + [ids[|ids| - 1]];
      ReleaseAllSpec(c, node, ids[..|ids| - 1]);
    }
  }

  ghost predicate SameCounts(s: map<string, Stats>, t: map<string, Stats>) {
    && s.Keys == t.Keys
    && forall n :: n in s ==> t[n].used == s[n].used && t[n].total == s[n].total
  }

  /** Pinning live blocks, or unpinning any, keeps the invariant. */
  lemma RepinnedKeepsInv(c: Cache, d: Cache, ids: seq<nat>, flag: bool)
    requires Inv(c) && Repinned(c, d, ids, flag) && SameCounts(c.stats, d.stats)
    requires flag ==> forall i :: i in ids && i < |c.blocks| ==> c.blocks[i].tokens > 0
    ensures Inv(d)
  {
    forall i | 0 <= i < |d.blocks|
      ensures BlockOk(d, i) && d.blocks[i].id == i
    {
      assert BlockOk(c, i);
    }
    forall h | h in d.index
      ensures EntryOk(d, h)
    {
      assert EntryOk(c, h);
    }
    forall n | n in d.stats
      ensures CountOk(d, n)
    {
      assert CountOk(c, n);
      IdsSame(c.blocks, d.blocks, n, Live);
      IdsSame(c.blocks, d.blocks, n, Any);
    }
  }

  // --------------------------------------------------------------- eviction

  ghost predicate IndexLess(a: Index, b: Index, gone: set<nat>) {
    && (forall h :: h in b ==> h in a && Elems(b[h]) == Elems(a[h]) - gone)
    && (forall h :: h in a && h !in b ==> Elems(a[h]) <= gone)
    && (forall h :: h in a && Elems(a[h]) !! gone ==> h in b && b[h] == a[h])
  }

  ghost predicate BlocksLess(bs: seq<Block>, cs: seq<Block>, gone: set<nat>) {
    && |cs| == |bs|
    && (forall i :: 0 <= i < |bs| ==>
          if i in gone then cs[i] == bs[i].(tokens := 0, hash := None, last := cs[i].last) else cs[i] == bs[i])
  }

  ghost predicate RanksKept(p: Policy, q: Policy, gone: set<nat>) {
    SameKind(p, q) && forall i :: i !in gone ==> q.RankOf(i) == p.RankOf(i)
  }

  /** `d` is `c` after the blocks `gone` of the node were evicted, and nothing else. */
  ghost predicate Evicted(c: Cache, d: Cache, node: string, gone: set<nat>) {
    && c.Serves(node)
    && d.blockSize == c.blockSize && d.read == c.read
    && RanksKept(c.policy, d.policy, gone)
    && gone <= Ids(c.blocks, node, Candidate)
    && BlocksLess(c.blocks, d.blocks, gone)
    && IndexLess(c.index, d.index, gone)
    && c.stats[node].used >= |gone|
    && d.stats == c.stats[node := c.stats[node].(
         used := c.stats[node].used - |gone|, evictions := c.stats[node].evictions + |gone|)]
  }

  lemma UnlinkIsLess(c: Cache, v: Block)
    requires Inv(c) && v.id < |c.blocks| && v == c.blocks[v.id]
    ensures IndexLess(c.index, Unlink(c.index, v), {v.id})
    ensures forall h :: h in Unlink(c.index, v) ==> Unlink(c.index, v)[h] != [] && NoDup(Unlink(c.index, v)[h])
  {
    forall h | h in c.index
      ensures c.index[h] != [] && NoDup(c.index[h])
      ensures v.id in c.index[h] ==> v.hash == Some(h) && h != ""
    {
      assert EntryOk(c, h);
    }
    UnlinkSpec(c.index, v);
    if Truthy(v.hash) && v.hash.value in c.index {
      RemoveSpec(c.index[v.hash.value], v.id);
    }
  }

  /** One eviction: the victim and nothing else goes, and the clamp at 0 does not fire. */
  lemma EvictOne(c: Cache, node: string)
    requires Inv(c) && c.Serves(node) && Victim(c, node).Some?
    ensures var v := Victim(c, node).value;
            && v.id < |c.blocks|
            && Evicted(c, Evict(c, node, v), node, {v.id})
  {
    VictimIsCandidate(c, node);
    var v := Victim(c, node).value;
    UnlinkIsLess(c, v);
    assert v.id in Ids(c.blocks, node, Live);
    assert CountOk(c, node);
    FreeKeepsRanks(c.policy, v.id);
    hide Inv, IndexLess, Unlink, RanksKept, Victim;
  }

  lemma FreeKeepsRanks(p: Policy, id: nat)
    ensures RanksKept(p, p.OnFree(id), {id})
  {
  }

  lemma EvictedEntryOk(c: Cache, d: Cache, node: string, gone: set<nat>, h: string)
    requires Inv(c) && Evicted(c, d, node, gone) && h in d.index
    requires d.index[h] != [] && NoDup(d.index[h])
    ensures EntryOk(d, h)
  {
    assert EntryOk(c, h);
    forall j | 0 <= j < |d.index[h]|
      ensures d.index[h][j] in c.index[h] && d.index[h][j] !in gone
    {
      assert d.index[h][j] in Elems(d.index[h]);
    }
  }

  lemma EvictedCountOk(c: Cache, d: Cache, node: string, gone: set<nat>, n: string)
    requires Inv(c) && Evicted(c, d, node, gone) && n in d.stats
    ensures CountOk(d, n)
  {
    assert CountOk(c, n);
    IdsSame(c.blocks, d.blocks, n, Any);
    if n == node {
      assert Ids(d.blocks, n, Live) == Ids(c.blocks, n, Live) - gone;
      assert gone <= Ids(c.blocks, n, Live);
    } else {
      assert forall i :: i in gone ==> i in Ids(c.blocks, node, Candidate);
      IdsSame(c.blocks, d.blocks, n, Live);
    }
  }

  /** Evicting unpinned blocks keeps the invariant. */
  lemma EvictedKeepsInv(c: Cache, d: Cache, node: string, gone: set<nat>)
    requires Inv(c) && Evicted(c, d, node, gone)
    requires forall h :: h in d.index ==> d.index[h] != [] && NoDup(d.index[h])
    ensures Inv(d)
  {
    forall i | 0 <= i < |d.blocks|
      ensures BlockOk(d, i) && d.blocks[i].id == i
    {
      assert BlockOk(c, i);
      assert i in gone ==> i in Ids(c.blocks, node, Candidate);
    }
    forall h | h in d.index
      ensures EntryOk(d, h)
    {
      EvictedEntryOk(c, d, node, gone, h);
    }
    forall n | n in d.stats
      ensures CountOk(d, n)
    {
      EvictedCountOk(c, d, node, gone, n);
    }
  }

  lemma IndexLessTrans(a: Index, b: Index, c: Index, gone: set<nat>, more: set<nat>)
    requires IndexLess(a, b, gone) && IndexLess(b, c, more)
    ensures IndexLess(a, c, gone + more)
  {
    forall h | h in a && Elems(a[h]) !! (gone + more)
      ensures h in c && c[h] == a[h]
    {
      assert Elems(a[h]) !! gone && Elems(a[h]) !! more;
    }
  }

  lemma RanksKeptTrans(p: Policy, q: Policy, r: Policy, gone: set<nat>, more: set<nat>)
    requires RanksKept(p, q, gone) && RanksKept(q, r, more)
    ensures RanksKept(p, r, gone + more)
  {
  }

  lemma BlocksLessTrans(bs: seq<Block>, cs: seq<Block>, ds: seq<Block>, node: string, gone: set<nat>, more: set<nat>)
    requires BlocksLess(bs, cs, gone) && BlocksLess(cs, ds, more)
    requires gone <= Ids(bs, node, Candidate) && more <= Ids(cs, node, Candidate)
    ensures BlocksLess(bs, ds, gone + more) && gone !! more && more <= Ids(bs, node, Candidate)
  {
    forall i | i in more
      ensures i !in gone && i in Ids(bs, node, Candidate)
    {
      assert i in Ids(cs, node, Candidate);
    }
  }

  lemma EvictedTrans(c: Cache, d: Cache, e: Cache, node: string, gone: set<nat>, more: set<nat>)
    requires Evicted(c, d, node, gone) && Evicted(d, e, node, more)
    ensures gone !! more && Evicted(c, e, node, gone + more)
  {
    hide IndexLess, RanksKept, BlocksLess, Ids;
    BlocksLessTrans(c.blocks, d.blocks, e.blocks, node, gone, more);
    RanksKeptTrans(c.policy, d.policy, e.policy, gone, more);
    IndexLessTrans(c.index, d.index, e.index, gone, more);
    assert |gone + more| == |gone| + |more|;
  }

  ghost function ToEvict(c: Cache, node: string, needed: nat): nat {
    Min(Max(0, needed - |Ids(c.blocks, node, Vacant)|), |Ids(c.blocks, node, Candidate)|)
  }

  /** No evictable block that survives would have gone before one that was taken. */
  ghost predicate LeastRanked(c: Cache, node: string, gone: set<nat>) {
    c.policy.Ranked() ==>
      forall v, s :: v in gone && s in Ids(c.blocks, node, Candidate) - gone ==>
        !c.policy.RankOf(s).Below(c.policy.RankOf(v))
  }

  /** The eviction loop takes out exactly as many blocks as are missing, or all that
      can go, and under LRU, LFU and Belady they are a set of least rank. */
  lemma {:induction false} MaybeEvictSpec(c: Cache, node: string, needed: nat) returns (gone: set<nat>)
    requires Inv(c) && c.Serves(node)
    ensures Inv(MaybeEvict(c, node, needed))
    ensures Evicted(c, MaybeEvict(c, node, needed), node, gone)
    ensures |gone| == ToEvict(c, node, needed)
    ensures LeastRanked(c, node, gone)
    decreases Ids(c.blocks, node, Candidate)
  {
    SelectCount(c.blocks, node, Vacant);
    InvNumbered(c);
    VictimIsCandidate(c, node);
    hide Inv, Evicted, LeastRanked, Evict, Is, Select;
    if |Select(c.blocks, node, Vacant)| >= needed || Victim(c, node).None? {
      gone := {};
      EvictedNone(c, node);
    } else {
      var v := Victim(c, node).value;
      var d := EvictOnce(c, node);
      EvictShrinks(c, node);
      var rest := MaybeEvictSpec(d, node, needed);
      EvictedOnlyCandidates(d, MaybeEvict(d, node, needed), node, rest);
      EvictedTrans(c, d, MaybeEvict(d, node, needed), node, {v.id}, rest);
      gone := {v.id} + rest;
      VictimRanksLeast(c, node, rest);
    }
  }

  lemma InvNumbered(c: Cache)
    requires Inv(c)
    ensures Numbered(c.blocks)
  {
  }

  lemma EvictedNone(c: Cache, node: string)
    requires c.Serves(node)
    ensures Evicted(c, c, node, {}) && LeastRanked(c, node, {})
  {
    assert c.stats[node := c.stats[node]] == c.stats;
  }

  lemma EvictedOnlyCandidates(c: Cache, d: Cache, node: string, gone: set<nat>)
    requires Evicted(c, d, node, gone)
    ensures gone <= Ids(c.blocks, node, Candidate)
  {
  }

  lemma EvictOnce(c: Cache, node: string) returns (d: Cache)
    requires Inv(c) && c.Serves(node) && Victim(c, node).Some?
    ensures var v := Victim(c, node).value;
            && v.id < |c.blocks|
            && d == Evict(c, node, v)
            && Inv(d)
            && Evicted(c, d, node, {v.id})
            && |Ids(d.blocks, node, Vacant)| == |Ids(c.blocks, node, Vacant)| + 1
            && v.id in Ids(c.blocks, node, Candidate)
            && |Ids(d.blocks, node, Candidate)| == |Ids(c.blocks, node, Candidate)| - 1
  {
    VictimIsCandidate(c, node);
    var v := Victim(c, node).value;
    d := Evict(c, node, v);
    EvictOne(c, node);
    UnlinkIsLess(c, v);
    EvictedKeepsInv(c, d, node, {v.id});
    VacantGrows(c, node, v);
    EvictShrinks(c, node);
  }

  lemma VacantGrows(c: Cache, node: string, v: Block)
    requires Numbered(c.blocks) && c.Serves(node) && v.id in Ids(c.blocks, node, Candidate) && v == c.blocks[v.id]
    ensures |Ids(Evict(c, node, v).blocks, node, Vacant)| == |Ids(c.blocks, node, Vacant)| + 1
  {
    IdsUpdate(c.blocks, v.id, v.(tokens := 0, hash := None, last := c.read(c.tick)), node, Vacant);
  }

  lemma VictimRanksLeast(c: Cache, node: string, rest: set<nat>)
    requires Inv(c) && c.Serves(node) && Victim(c, node).Some?
    requires var v := Victim(c, node).value;
             v.id < |c.blocks| && Evicted(c, Evict(c, node, v), node, {v.id}) &&
               LeastRanked(Evict(c, node, v), node, rest)
    requires rest <= Ids(c.blocks, node, Candidate) - {Victim(c, node).value.id}
    ensures LeastRanked(c, node, {Victim(c, node).value.id} + rest)
  {
    var v := Victim(c, node).value;
    var d := Evict(c, node, v);
    if c.policy.Ranked() {
      var s := Select(c.blocks, node, Candidate);
      PickVictimContract(c.policy, s);
      SelectIds(c.blocks, node, Candidate);
      EvictShrinks(c, node);
      forall w, x | w in {v.id} + rest && x in Ids(c.blocks, node, Candidate) - ({v.id} + rest)
        ensures !c.policy.RankOf(x).Below(c.policy.RankOf(w))
      {
        if w == v.id {
          assert c.blocks[x] in s && c.blocks[x].id == x;
        } else {
          assert x in Ids(d.blocks, node, Candidate) - rest;
        }
      }
    }
  }

  // ------------------------------------------------------------- allocation

  /** `d` is `c` with the listed blocks taken into use for `hash`. */
  ghost predicate Filled(c: Cache, d: Cache, ids: seq<nat>, hash: Option<string>) {
    && d.blockSize == c.blockSize && d.index == c.index && d.stats == c.stats && d.read == c.read
    && SameKind(c.policy, d.policy)
    && |d.blocks| == |c.blocks|
    && (forall i :: 0 <= i < |c.blocks| ==>
          if i in ids then
            d.blocks[i] == c.blocks[i].(tokens := c.blockSize, hash := if Truthy(hash) then hash else c.blocks[i].hash,
                                        pinned := true, last := d.blocks[i].last)
          else d.blocks[i] == c.blocks[i])
  }

  lemma {:induction false} FillAllSpec(c: Cache, ids: seq<nat>, hash: Option<string>)
    requires InPool(c, ids)
    ensures Filled(c, FillAll(c, ids, hash), ids, hash)
  {
    if ids != [] {
      assert ids == ids[..|ids| - 1] + [ids[|ids| - 1]];
      FillAllSpec(c, ids[..|ids| - 1], hash);
    }
  }

  lemma InvIndexInPool(c: Cache)
    requires Inv(c)
    ensures IndexInPool(c)
  {
    forall h | h in c.index
      ensures InPool(c, c.index[h])
    {
      assert EntryOk(c, h);
    }
  }

  /** A prefix is reused whole or not at all, because an entry lies on one node. */
  lemma ReusedSpec(c: Cache, node: string, r: Request)
    requires Inv(c) && IndexInPool(c)
    ensures var ids := Reused(c, node, r);
            && NoDup(ids)
            && (forall i :: i in ids ==>
                  i < |c.blocks| && Is(c.blocks[i], node, Live) && c.blocks[i].hash == r.prefixHash)
            && (ids != [] ==>
                  Truthy(r.prefixHash) && r.prefixHash.value in c.index && ids == c.index[r.prefixHash.value])
  {
    if Truthy(r.prefixHash) && r.prefixHash.value in c.index {
      assert EntryOk(c, r.prefixHash.value);
      EntryOnNode(c, r.prefixHash.value, node);
    }
  }

  lemma EntryOnNode(c: Cache, h: string, node: string)
    requires h in c.index && InPool(c, c.index[h]) && EntryOk(c, h)
    ensures var ids := OnNode(c.blocks, c.index[h], node);
            (ids == [] || ids == c.index[h]) && forall i :: i in ids ==> i < |c.blocks| && c.blocks[i].node == node
  {
    var e := c.index[h];
    OnNodeMembers(c.blocks, e, node);
    assert c.blocks[e[0]].node != node ==> forall i :: i in e ==> c.blocks[i].node != node;
  }

  function LookupStats(s: Stats, hit: bool): Stats {
    if hit then s.(hits := s.hits + 1) else s.(misses := s.misses + 1)
  }

  /** Looking the prefix up pins its blocks, counts the hit or miss, and changes nothing else. */
  lemma LookupSpec(c: Cache, node: string, r: Request)
    requires Inv(c) && Allocatable(c, node)
    ensures var l := AfterLookup(c, node, r);
            var ids := Reused(c, node, r);
            && Inv(l)
            && Repinned(c, l, ids, true)
            && l.stats == c.stats[node := LookupStats(c.stats[node], ids != [])]
  {
    var ids := Reused(c, node, r);
    ReusedSpec(c, node, r);
    PinAllSpec(c, ids);
    assert ids == [] ==> PinAll(c, ids) == c;
    RepinnedKeepsInv(c, AfterLookup(c, node, r), ids, true);
  }

  /** The blocks that are unpinned once the reused ones are pinned. */
  ghost function Remaining(c: Cache, node: string, reused: seq<nat>): set<nat> {
    Ids(c.blocks, node, Unpinned) - Elems(reused)
  }

  lemma RemainingSplit(bs: seq<Block>, cs: seq<Block>, node: string, ids: seq<nat>)
    requires Repin(bs, cs, ids, true)
    requires forall i :: i in ids ==> i < |bs| && Is(bs[i], node, Live)
    ensures Ids(cs, node, Unpinned) == Ids(bs, node, Unpinned) - Elems(ids)
    ensures Ids(cs, node, Vacant) == Ids(bs, node, Vacant)
    ensures |Ids(cs, node, Candidate)| + |Ids(cs, node, Vacant)| == |Ids(bs, node, Unpinned) - Elems(ids)|
  {
    UnpinnedSplit(cs, node);
    forall i | 0 <= i < |bs|
      ensures Is(cs[i], node, Unpinned) <==> Is(bs[i], node, Unpinned) && i !in ids
      ensures Is(cs[i], node, Vacant) <==> Is(bs[i], node, Vacant)
    {
    }
    assert Ids(cs, node, Unpinned) == Ids(bs, node, Unpinned) - Elems(ids);
    assert Ids(cs, node, Vacant) == Ids(bs, node, Vacant);
  }

  /** The eviction inside allocate: it stops short only when everything left is vacant. */
  lemma EvictionSpec(c: Cache, node: string, r: Request) returns (gone: set<nat>)
    requires Inv(c) && Allocatable(c, node)
    ensures var l, e := AfterLookup(c, node, r), AfterEviction(c, node, r);
            && Inv(e) && Evicted(l, e, node, gone) && LeastRanked(l, node, gone)
            && |gone| == ToEvict(l, node, Shortfall(c, node, r))
    ensures Min(Shortfall(c, node, r), |Ids(AfterEviction(c, node, r).blocks, node, Vacant)|)
            == Min(Shortfall(c, node, r), |Remaining(c, node, Reused(c, node, r))|)
  {
    var l := AfterLookup(c, node, r);
    LookupSpec(c, node, r);
    gone := MaybeEvictSpec(l, node, Shortfall(c, node, r));
    ReusedSpec(c, node, r);
    RoomAfter(c, l, AfterEviction(c, node, r), node, Reused(c, node, r), Shortfall(c, node, r), gone);
  }

  lemma RoomAfter(c: Cache, l: Cache, e: Cache, node: string, ids: seq<nat>, need: nat, gone: set<nat>)
    requires Repinned(c, l, ids, true) && Evicted(l, e, node, gone) && |gone| == ToEvict(l, node, need)
    requires forall i :: i in ids ==> i < |c.blocks| && Is(c.blocks[i], node, Live)
    ensures Min(need, |Ids(e.blocks, node, Vacant)|) == Min(need, |Remaining(c, node, ids)|)
  {
    hide Evicted, Is, Ids, SameCounts, Repin;
    VacantAfter(l, e, node, gone);
    RemainingSplit(c.blocks, l.blocks, node, ids);
  }

  /** The fresh blocks: vacant once eviction is over, distinct, and as many as asked for or available. */
  lemma TakenSpec(c: Cache, node: string, r: Request)
    requires Inv(c) && Allocatable(c, node) && Inv(AfterEviction(c, node, r))
    ensures var e := AfterEviction(c, node, r);
            var t := Taken(c, node, r);
            && NoDup(t)
            && (forall i :: i in t ==> i in Ids(e.blocks, node, Vacant))
            && |t| == Min(Shortfall(c, node, r), |Ids(e.blocks, node, Vacant)|)
  {
    var e := AfterEviction(c, node, r);
    FreeBlocksIsVacant(e, node);
    SelectIds(e.blocks, node, Fresh);
    var free := Select(e.blocks, node, Fresh);
    var t := Taken(c, node, r);
    forall i | i in t
      ensures i in Ids(e.blocks, node, Vacant)
    {
      var j :| 0 <= j < |t| && t[j] == i;
      assert free[j].id in Ids(e.blocks, node, Fresh);
    }
  }

  lemma VacantAfter(c: Cache, d: Cache, node: string, gone: set<nat>)
    requires Evicted(c, d, node, gone)
    ensures |Ids(d.blocks, node, Vacant)| == |Ids(c.blocks, node, Vacant)| + |gone|
    ensures Ids(d.blocks, node, Vacant) == Ids(c.blocks, node, Vacant) + gone
    ensures Ids(d.blocks, node, Candidate) == Ids(c.blocks, node, Candidate) - gone
  {
    hide IndexLess, SameKind, RanksKept;
    assert Ids(d.blocks, node, Vacant) == Ids(c.blocks, node, Vacant) + gone;
    assert Ids(c.blocks, node, Vacant) !! gone;
  }

  /** Taking vacant blocks into use, counting them and indexing them keeps the invariant. */
  lemma FilledKeepsInv(e: Cache, d: Cache, node: string, taken: seq<nat>, hash: Option<string>)
    requires Inv(e) && e.Serves(node) && Filled(e, d.(index := e.index, stats := e.stats), taken, hash)
    requires NoDup(taken) && forall i :: i in taken ==> i in Ids(e.blocks, node, Vacant)
    requires d.stats.Keys == e.stats.Keys
    requires d.stats[node].used == e.stats[node].used + |taken| && d.stats[node].total == e.stats[node].total
    requires forall n :: n in e.stats && n != node ==> d.stats[n] == e.stats[n]
    requires forall h :: h in d.index ==> (h in e.index && d.index[h] == e.index[h]) || EntryOk(d, h)
    ensures Inv(d)
  {
    var f := d.(index := e.index, stats := e.stats);
    forall i | 0 <= i < |d.blocks|
      ensures BlockOk(d, i) && d.blocks[i].id == i
    {
      assert BlockOk(e, i) && f.blocks[i] == d.blocks[i];
      assert i in taken ==> i in Ids(e.blocks, node, Vacant);
    }
    forall h | h in d.index
      ensures EntryOk(d, h)
    {
      if h in e.index && d.index[h] == e.index[h] {
        FilledEntryOk(e, d, node, taken, hash, h);
      }
    }
    forall n | n in d.stats
      ensures CountOk(d, n)
    {
      assert CountOk(e, n);
      IdsSame(e.blocks, f.blocks, n, Any);
      FilledLive(e, f, node, taken, hash, n);
      NoDupCount(taken);
    }
  }

  lemma FilledEntryOk(e: Cache, d: Cache, node: string, taken: seq<nat>, hash: Option<string>, h: string)
    requires Inv(e) && Filled(e, d.(index := e.index, stats := e.stats), taken, hash)
    requires forall i :: i in taken ==> i in Ids(e.blocks, node, Vacant)
    requires h in e.index && h in d.index && d.index[h] == e.index[h]
    ensures EntryOk(d, h)
  {
    var f := d.(index := e.index, stats := e.stats);
    assert EntryOk(e, h);
    forall j | 0 <= j < |e.index[h]|
      ensures d.blocks[e.index[h][j]] == e.blocks[e.index[h][j]]
    {
      assert e.index[h][j] !in taken;
      assert f.blocks[e.index[h][j]] == e.blocks[e.index[h][j]];
    }
  }

  lemma FilledLive(e: Cache, f: Cache, node: string, taken: seq<nat>, hash: Option<string>, n: string)
    requires e.blockSize > 0 && Filled(e, f, taken, hash)
    requires forall i :: i in taken ==> i in Ids(e.blocks, node, Vacant)
    ensures n == node ==>
              && Ids(f.blocks, n, Live) == Ids(e.blocks, n, Live) + Elems(taken)
              && Ids(e.blocks, n, Live) !! Elems(taken)
    ensures n != node ==> Ids(f.blocks, n, Live) == Ids(e.blocks, n, Live)
  {
    forall i | i in taken
      ensures e.blocks[i].tokens == 0 && e.blocks[i].node == node
    {
      assert i in Ids(e.blocks, node, Vacant);
    }
    if n == node {
      assert Ids(f.blocks, n, Live) == Ids(e.blocks, n, Live) + Elems(taken);
    } else {
      IdsSame(e.blocks, f.blocks, n, Live);
    }
  }

  /** What allocate does to the pool: evicted blocks are emptied, reused ones pinned,
      taken ones filled and pinned, and every other block is left as it was. */
  ghost predicate BlocksServed(bs: seq<Block>, cs: seq<Block>, size: nat, hash: Option<string>,
                               reused: seq<nat>, taken: seq<nat>, gone: set<nat>) {
    && |cs| == |bs|
    && (forall i :: 0 <= i < |bs| ==>
          if i in taken then
            cs[i] == bs[i].(tokens := size, hash := if Truthy(hash) then hash else None, pinned := true,
                            last := cs[i].last)
          else if i in reused then cs[i] == bs[i].(pinned := true, last := cs[i].last)
          else if i in gone then cs[i] == bs[i].(tokens := 0, hash := None, last := cs[i].last)
          else cs[i] == bs[i])
  }

  function StatsServed(s: Stats, needed: nat, reused: nat, taken: nat, gone: nat): Stats
    requires s.used + taken >= gone
  {
    LookupStats(s, reused != 0).(
      used := s.used + taken - gone,
      evictions := s.evictions + gone,
      spills := s.spills + (if reused + taken < needed then 1 else 0))
  }

  /** The whole effect of one allocate call. */
  ghost predicate Served(c: Cache, a: Allocation, node: string, r: Request, gone: set<nat>) {
    var d := a.cache;
    && c.Serves(node)
    && d.blockSize == c.blockSize && d.read == c.read && SameKind(c.policy, d.policy)
    && BlocksServed(c.blocks, d.blocks, c.blockSize, r.prefixHash, a.reused, a.taken, gone)
    && gone <= Ids(c.blocks, node, Candidate) - Elems(a.reused)
    && (forall i :: i in a.taken ==> i in Ids(c.blocks, node, Vacant) + gone)
    && c.stats[node].used + |a.taken| >= |gone|
    && d.stats == c.stats[node := StatsServed(c.stats[node], r.KvBlocksNeeded(), |a.reused|, |a.taken|, |gone|)]
    && (exists less :: IndexLess(c.index, less, gone)
                    && d.index == if Truthy(r.prefixHash) && a.taken != []
                                  then less[r.prefixHash.value := a.Blocks()] else less)
  }

  lemma ServedBlocks(c: Cache, l: Cache, e: Cache, f: Cache, node: string, reused: seq<nat>, taken: seq<nat>,
                     gone: set<nat>, hash: Option<string>)
    requires Inv(e) && Repinned(c, l, reused, true) && Evicted(l, e, node, gone) && Filled(e, f, taken, hash)
    requires forall i :: i in taken ==> i in Ids(e.blocks, node, Vacant)
    ensures BlocksServed(c.blocks, f.blocks, c.blockSize, hash, reused, taken, gone)
    ensures forall i :: i in taken ==> i in Ids(c.blocks, node, Vacant) + gone
    ensures gone <= Ids(c.blocks, node, Candidate) - Elems(reused)
  {
    forall i | i in gone
      ensures i in Ids(c.blocks, node, Candidate) && i !in reused
    {
      assert i in Ids(l.blocks, node, Candidate);
    }
    forall i | i in taken
      ensures i !in reused && i in Ids(c.blocks, node, Vacant) + gone && e.blocks[i].hash == None
    {
      assert i in Ids(e.blocks, node, Vacant) && BlockOk(e, i);
    }
  }

  /** The last step of allocate, seen from the state after eviction. */
  ghost predicate Finished(e: Cache, a: Allocation, node: string, short: bool, hash: Option<string>) {
    var d := a.cache;
    && e.Serves(node)
    && Filled(e, d.(index := e.index, stats := e.stats), a.taken, hash)
    && d.stats == e.stats[node := e.stats[node].(
         spills := e.stats[node].spills + (if short then 1 else 0), used := e.stats[node].used + |a.taken|)]
    && d.index == if Truthy(hash) && a.taken != [] then e.index[hash.value := a.Blocks()] else e.index
  }

  lemma FinishSpec(e: Cache, reused: seq<nat>, taken: seq<nat>, node: string, short: bool, hash: Option<string>)
    requires e.Serves(node) && InPool(e, taken)
    ensures Finished(e, Finish(e, reused, taken, node, short, hash), node, short, hash)
  {
    var a := Finish(e, reused, taken, node, short, hash);
    FillAllSpec(e, taken, hash);
    assert a.cache.(index := e.index, stats := e.stats) == FillAll(e, taken, hash);
  }

  lemma ServedFrom(c: Cache, l: Cache, e: Cache, a: Allocation, node: string, r: Request, gone: set<nat>)
    requires Inv(e) && c.Serves(node) && Repinned(c, l, a.reused, true) && Evicted(l, e, node, gone)
    requires l.stats == c.stats[node := LookupStats(c.stats[node], a.reused != [])]
    requires Finished(e, a, node, |a.reused| + |a.taken| < r.KvBlocksNeeded(), r.prefixHash)
    requires forall i :: i in a.taken ==> i in Ids(e.blocks, node, Vacant)
    ensures Served(c, a, node, r, gone)
  {
    hide Inv, BlocksServed, BlocksLess, Repin, IndexLess, Is, Policy.RankOf;
    var f := a.cache.(index := e.index, stats := e.stats);
    ServedBlocks(c, l, e, f, node, a.reused, a.taken, gone, r.prefixHash);
    assert IndexLess(c.index, e.index, gone);
  }

  /** allocate does this and nothing else. */
  lemma AllocateServed(c: Cache, node: string, r: Request) returns (gone: set<nat>)
    requires Inv(c) && Allocatable(c, node)
    ensures Served(c, Allocate(c, node, r), node, r, gone)
    ensures Allocate(c, node, r).reused == Reused(c, node, r) && Allocate(c, node, r).taken == Taken(c, node, r)
    ensures |gone| == ToEvict(AfterLookup(c, node, r), node, Shortfall(c, node, r))
    ensures LeastRanked(AfterLookup(c, node, r), node, gone)
  {
    LookupSpec(c, node, r);
    gone := EvictionSpec(c, node, r);
    TakenSpec(c, node, r);
    FinishSpec(AfterEviction(c, node, r), Reused(c, node, r), Taken(c, node, r), node,
               |Taken(c, node, r)| < Shortfall(c, node, r), r.prefixHash);
    ServedFrom(c, AfterLookup(c, node, r), AfterEviction(c, node, r), Allocate(c, node, r), node, r, gone);
  }

  /** allocate keeps the index and the counters equal to the pool. */
  lemma AllocateKeepsInv(c: Cache, node: string, r: Request)
    requires Inv(c) && Allocatable(c, node)
    ensures Inv(Allocate(c, node, r).cache)
  {
    var gone := AllocateServed(c, node, r);
    var also := EvictionSpec(c, node, r);
    TakenSpec(c, node, r);
    FinishSpec(AfterEviction(c, node, r), Reused(c, node, r), Taken(c, node, r), node,
               |Taken(c, node, r)| < Shortfall(c, node, r), r.prefixHash);
    FinishedKeepsInv(c, AfterEviction(c, node, r), Allocate(c, node, r), node, r, gone,
                     |Taken(c, node, r)| < Shortfall(c, node, r));
  }

  lemma FinishedKeepsInv(c: Cache, e: Cache, a: Allocation, node: string, r: Request, gone: set<nat>, short: bool)
    requires Inv(c) && IndexInPool(c) && a.reused == Reused(c, node, r)
    requires Served(c, a, node, r, gone)
    requires Inv(e) && Finished(e, a, node, short, r.prefixHash)
    requires NoDup(a.taken) && forall i :: i in a.taken ==> i in Ids(e.blocks, node, Vacant)
    ensures Inv(a.cache)
  {
    if Truthy(r.prefixHash) && a.taken != [] {
      TakenApart(c, node, r, a.taken, gone);
      ServedBlocksGood(c, a, node, r, gone);
      NewEntryOk(a, node, r.prefixHash);
    }
    FilledKeepsInv(e, a.cache, node, a.taken, r.prefixHash);
  }

  lemma NewEntryOk(a: Allocation, node: string, hash: Option<string>)
    requires Truthy(hash) && hash.value in a.cache.index && a.cache.index[hash.value] == a.Blocks() != []
    requires NoDup(a.Blocks()) && HandedOut(a, node, hash)
    ensures EntryOk(a.cache, hash.value)
  {
    forall j | 0 <= j < |a.Blocks()|
      ensures GoodBlock(a.cache, a.Blocks()[j], node, hash)
    {
      if j < |a.reused| {
        assert a.Blocks()[j] in a.reused;
      } else {
        assert a.Blocks()[j] in a.taken;
      }
    }
  }

  /** A live, pinned block of the node that carries the prefix. */
  ghost predicate GoodBlock(c: Cache, i: nat, node: string, hash: Option<string>) {
    && i < |c.blocks|
    && Is(c.blocks[i], node, Live) && c.blocks[i].pinned
    && c.blocks[i].hash == (if Truthy(hash) then hash else None)
  }

  ghost predicate HandedOut(a: Allocation, node: string, hash: Option<string>) {
    forall i :: i in a.reused || i in a.taken ==> GoodBlock(a.cache, i, node, hash)
  }

  lemma TakenApart(c: Cache, node: string, r: Request, taken: seq<nat>, gone: set<nat>)
    requires Inv(c) && IndexInPool(c) && NoDup(taken)
    requires forall i :: i in taken ==> i in Ids(c.blocks, node, Vacant) + gone
    requires gone <= Ids(c.blocks, node, Candidate) - Elems(Reused(c, node, r))
    ensures forall i :: i in taken ==> i < |c.blocks| && i !in Reused(c, node, r) && c.blocks[i].node == node
    ensures NoDup(Reused(c, node, r) + taken)
  {
    ReusedSpec(c, node, r);
    forall i | i in taken
      ensures i < |c.blocks| && i !in Reused(c, node, r) && c.blocks[i].node == node
    {
      assert i in Ids(c.blocks, node, Vacant) || i in gone;
    }
    NoDupConcat(Reused(c, node, r), taken);
  }

  lemma ServedBlocksGood(c: Cache, a: Allocation, node: string, r: Request, gone: set<nat>)
    requires Inv(c) && IndexInPool(c) && a.reused == Reused(c, node, r)
    requires Served(c, a, node, r, gone)
    requires forall i :: i in a.taken ==> i < |c.blocks| && c.blocks[i].node == node
    ensures HandedOut(a, node, r.prefixHash)
  {
    ReusedSpec(c, node, r);
    forall i | i in a.reused || i in a.taken
      ensures GoodBlock(a.cache, i, node, r.prefixHash)
    {
      assert i < |c.blocks|;
    }
  }

  lemma NoDupConcat(s: seq<nat>, t: seq<nat>)
    requires NoDup(s) && NoDup(t) && forall i :: i in t ==> i !in s
    ensures NoDup(s + t)
  {
    forall i, j | 0 <= i < j < |s + t|
      ensures (s + t)[i] != (s + t)[j]
    {
      if i < |s| <= j {
        assert t[j - |s|] in t && s[i] in s;
      }
    }
  }

  /** What a caller of allocate receives: distinct, live, pinned blocks of its node that
      carry its prefix, exactly as many as were wanted or as the unpinned rest allows. */
  lemma AllocateHandsOut(c: Cache, node: string, r: Request)
    requires Inv(c) && Allocatable(c, node)
    ensures var a := Allocate(c, node, r);
            && NoDup(a.Blocks()) && HandedOut(a, node, r.prefixHash)
            && |a.Blocks()| == |a.reused| + Min(Max(0, r.KvBlocksNeeded() - |a.reused|), |Remaining(c, node, a.reused)|)
  {
    hide Inv, Evicted, LeastRanked, AfterLookup, AfterEviction, Is;
    var gone := AllocateServed(c, node, r);
    var also := EvictionSpec(c, node, r);
    TakenSpec(c, node, r);
    TakenApart(c, node, r, Taken(c, node, r), gone);
    ServedBlocksGood(c, Allocate(c, node, r), node, r, gone);
  }

  /** The spill counter rises exactly when the caller got too few blocks, and then every
      block of the node is pinned. */
  lemma SpillMeansAllPinned(c: Cache, node: string, r: Request)
    requires Inv(c) && Allocatable(c, node)
    ensures var a := Allocate(c, node, r);
            var short := |a.Blocks()| < r.KvBlocksNeeded();
            && a.cache.stats[node].spills == c.stats[node].spills + (if short then 1 else 0)
            && (short ==> Ids(a.cache.blocks, node, Unpinned) == {})
            && (short <==> r.KvBlocksNeeded() > |a.reused| + |Remaining(c, node, a.reused)|)
  {
    var a := Allocate(c, node, r);
    AllocateHandsOut(c, node, r);
    var gone := AllocateServed(c, node, r);
    if |a.Blocks()| < r.KvBlocksNeeded() {
      TakenSpecNoDup(c, node, r);
      TakenApart(c, node, r, a.taken, gone);
      ShortLeavesNone(c, a, node, r.prefixHash, gone);
    }
  }

  lemma TakenSpecNoDup(c: Cache, node: string, r: Request)
    requires Inv(c) && Allocatable(c, node)
    ensures NoDup(Taken(c, node, r))
  {
    var gone := EvictionSpec(c, node, r);
    TakenSpec(c, node, r);
  }

  lemma ShortLeavesNone(c: Cache, a: Allocation, node: string, hash: Option<string>, gone: set<nat>)
    requires BlocksServed(c.blocks, a.cache.blocks, c.blockSize, hash, a.reused, a.taken, gone)
    requires gone <= Ids(c.blocks, node, Candidate)
    requires forall i :: i in a.taken ==> i !in a.reused && i in Ids(c.blocks, node, Vacant) + gone
    requires NoDup(a.taken) && |a.taken| == |Remaining(c, node, a.reused)|
    ensures Ids(a.cache.blocks, node, Unpinned) == {}
  {
    var rest := Remaining(c, node, a.reused);
    forall i | i in a.taken
      ensures i in rest
    {
      assert i in Ids(c.blocks, node, Vacant) || i in Ids(c.blocks, node, Candidate);
    }
    NoDupCount(a.taken);
    SubsetSameSize(Elems(a.taken), rest);
    forall i | 0 <= i < |c.blocks|
      ensures !Is(a.cache.blocks[i], node, Unpinned)
    {
      if Is(c.blocks[i], node, Unpinned) && i !in a.reused {
        assert i in rest;
        assert i in a.taken;
      }
    }
  }

  lemma SubsetSameSize(a: set<nat>, b: set<nat>)
    requires a <= b && |a| == |b|
    ensures a == b
  {
    assert |b - a| == |b| - |a|;
  }
}
