/** The cache simulator of simulator/cache_eviction/cache_sim.py: one flat pool, no pins, and
    a dictionary from prefix hash to blocks.  Blocks are values here; a block is known by its
    place in the pool. */
module CacheSimulator {
  import opened Models
  import opened EvictionPolicies
  import opened BlockPools

  const NODE := "sim"

  datatype Sim = Sim(
    blockSize: nat,
    blocks: seq<Block>,
    index: Index,
    policy: Policy,
    read: nat -> real,
    tick: nat,
    hits: nat,
    misses: nat,
    evictions: nat,
    spills: nat)

  // ------------------------------------------------------- what a round does

  /** policy.on_access(b) */
  function Touch(s: Sim, i: nat): Sim
    requires i < |s.blocks|
  {
    if s.policy.LRU? then
      var now := s.read(s.tick);
      s.(policy := s.policy.OnAccess(i, now), blocks := s.blocks[i := s.blocks[i].(last := now)], tick := s.tick + 1)
    else s.(policy := s.policy.OnAccess(i, 0.0))
  }

  function TouchAll(s: Sim, ids: seq<nat>): (t: Sim)
    requires Within(s.blocks, ids)
    ensures |t.blocks| == |s.blocks|
  {
    if ids == [] then s else Touch(TouchAll(s, ids[..|ids| - 1]), ids[|ids| - 1])
  }

  /** One eviction; unlike the manager's, it leaves last_accessed alone. */
  function Evict(s: Sim, victim: Block): Sim
    requires victim.id < |s.blocks|
  {
    s.(index := Unlink(s.index, victim),
       policy := s.policy.OnFree(victim.id),
       blocks := s.blocks[victim.id := victim.(tokens := 0, hash := None)],
       evictions := s.evictions + 1)
  }

  function Victim(s: Sim): Option<Block> {
    s.policy.PickVictim(Select(s.blocks, NODE, Candidate))
  }

  lemma VictimIsCandidate(s: Sim)
    requires Numbered(s.blocks)
    ensures match Victim(s)
            case None => Ids(s.blocks, NODE, Candidate) == {}
            case Some(v) => v.id in Ids(s.blocks, NODE, Candidate) && s.blocks[v.id] == v
  {
    var candidates := Select(s.blocks, NODE, Candidate);
    SelectIds(s.blocks, NODE, Candidate);
    PickVictimContract(s.policy, candidates);
    if Victim(s).Some? {
      var j :| 0 <= j < |candidates| && candidates[j] == Victim(s).value;
    }
  }

  lemma EvictMoves(s: Sim)
    requires Numbered(s.blocks) && Victim(s).Some?
    ensures var v := Victim(s).value;
            && v.id < |s.blocks| && Numbered(Evict(s, v).blocks) && v.id in Ids(s.blocks, NODE, Candidate)
            && Ids(Evict(s, v).blocks, NODE, Candidate) == Ids(s.blocks, NODE, Candidate) - {v.id}
            && Ids(Evict(s, v).blocks, NODE, Vacant) == Ids(s.blocks, NODE, Vacant) + {v.id}
  {
    VictimIsCandidate(s);
    var v := Victim(s).value;
    IdsUpdate(s.blocks, v.id, v.(tokens := 0, hash := None), NODE, Candidate);
    IdsUpdate(s.blocks, v.id, v.(tokens := 0, hash := None), NODE, Vacant);
  }

  /** The eviction loop: victims join the end of the free list. */
  function MakeRoom(s: Sim, free: seq<nat>, needed: nat): (r: (Sim, seq<nat>))
    requires Numbered(s.blocks)
    ensures Numbered(r.0.blocks) && |r.0.blocks| == |s.blocks|
    decreases Ids(s.blocks, NODE, Candidate)
  {
    if |free| >= needed then (s, free)
    else
      match Victim(s)
      case None => (s.(spills := s.spills + 1), free)
      case Some(v) =>
        EvictMoves(s);
        MakeRoom(Evict(s, v), free + [v.id], needed)
  }

  /** One round of the allocation loop. */
  function Fill(s: Sim, i: nat, hash: Option<string>): Sim
    requires i < |s.blocks|
  {
    s.(blocks := s.blocks[i := s.blocks[i].(tokens := s.blockSize, hash := hash)],
       policy := s.policy.OnAllocate(i, s.read(s.tick)),
       tick := s.tick + (if s.policy.LRU? then 1 else 0))
  }

  function FillAll(s: Sim, ids: seq<nat>, hash: Option<string>): (t: Sim)
    requires Within(s.blocks, ids)
    ensures |t.blocks| == |s.blocks|
  {
    if ids == [] then s else Fill(FillAll(s, ids[..|ids| - 1], hash), ids[|ids| - 1], hash)
  }

  function Listed(index: Index, hash: Option<string>): seq<nat> {
    if Truthy(hash) && hash.value in index then index[hash.value] else []
  }

  /** The lookup: a hit is counted when the dictionary has an entry, even an empty one. */
  function Lookup(s: Sim, r: Request): (t: Sim)
    requires Within(s.blocks, Listed(s.index, r.prefixHash))
    ensures |t.blocks| == |s.blocks|
  {
    if Truthy(r.prefixHash) && r.prefixHash.value in s.index
    then var t := TouchAll(s, s.index[r.prefixHash.value]); t.(hits := t.hits + 1)
    else s.(misses := s.misses + 1)
  }

  function Needed(s: Sim, r: Request): nat {
    Max(0, r.KvBlocksNeeded() - |Listed(s.index, r.prefixHash)|)
  }

  /** After the eviction loop: fill the first free blocks and list them under the prefix. */
  function Settle(s: Sim, free: seq<nat>, needed: nat, hash: Option<string>): Sim
    requires Within(s.blocks, free)
  {
    var taken := free[..Min(|free|, needed)];
    var filled := FillAll(s, taken, hash);
    if Truthy(hash) then filled.(index := filled.index[hash.value := Listed(filled.index, hash) + taken]) else filled
  }

  // -------------------------------------------------------------- invariant

  /** The live blocks that carry a prefix. */
  ghost function Carriers(bs: seq<Block>, h: string): set<nat> {
    set i: nat | i < |bs| && bs[i].tokens > 0 && bs[i].hash == Some(h)
  }

  ghost predicate BlockOk(b: Block, i: nat, size: nat) {
    b.id == i && b.node == NODE && !b.pinned && (b.tokens == 0 || b.tokens == size) &&
      (b.tokens == 0 ==> b.hash == None)
  }

  ghost predicate PoolOk(s: Sim) {
    s.blockSize > 0 && forall i :: 0 <= i < |s.blocks| ==> BlockOk(s.blocks[i], i, s.blockSize)
  }

  ghost predicate EntryExact(s: Sim, h: string)
    requires h in s.index
  {
    h != "" && s.index[h] != [] && NoDup(s.index[h]) && Elems(s.index[h]) == Carriers(s.blocks, h)
  }

  /** The dictionary lists exactly the carriers of each prefix, and only prefixes that have some. */
  ghost predicate IndexExact(s: Sim) {
    && (forall h :: h in s.index ==> EntryExact(s, h))
    && (forall h :: h != "" && Carriers(s.blocks, h) != {} ==> h in s.index)
  }

  ghost predicate Exact(s: Sim) {
    PoolOk(s) && IndexExact(s)
  }

  lemma ExactBasics(s: Sim)
    requires PoolOk(s)
    ensures Numbered(s.blocks)
    ensures |Ids(s.blocks, NODE, Candidate)| + |Ids(s.blocks, NODE, Vacant)| == |s.blocks|
    ensures Ids(s.blocks, NODE, Candidate) == Ids(s.blocks, NODE, Live)
  {
    forall i | 0 <= i < |s.blocks|
      ensures s.blocks[i].id == i
      ensures Is(s.blocks[i], NODE, Unpinned)
      ensures Is(s.blocks[i], NODE, Candidate) <==> Is(s.blocks[i], NODE, Live)
    {
      assert BlockOk(s.blocks[i], i, s.blockSize);
    }
    UnpinnedSplit(s.blocks, NODE);
    AllIds(s.blocks, NODE);
  }

  lemma {:induction false} AllIds(bs: seq<Block>, node: string)
    requires forall i :: 0 <= i < |bs| ==> Is(bs[i], node, Unpinned)
    ensures |Ids(bs, node, Unpinned)| == |bs|
  {
    if bs == [] {
      assert Ids(bs, node, Unpinned) == {};
    } else {
      AllIds(bs[..|bs| - 1], node);
      IdsLast(bs, node, Unpinned);
    }
  }

  /** Blocks that differ at most in their time. */
  ghost predicate SameButTimes(bs: seq<Block>, cs: seq<Block>) {
    |cs| == |bs| && forall i :: 0 <= i < |bs| ==> cs[i] == bs[i].(last := cs[i].last)
  }

  lemma {:induction false} TouchAllSpec(s: Sim, ids: seq<nat>)
    requires Within(s.blocks, ids)
    ensures var t := TouchAll(s, ids);
            && SameButTimes(s.blocks, t.blocks)
            && t == s.(blocks := t.blocks, policy := t.policy, tick := t.tick)
  {
    if ids != [] {
      TouchAllSpec(s, ids[..|ids| - 1]);
    }
  }

  lemma TimesDoNotMatter(s: Sim, t: Sim)
    requires Exact(s) && SameButTimes(s.blocks, t.blocks) && t.index == s.index && t.blockSize == s.blockSize
    ensures Exact(t)
    ensures Ids(t.blocks, NODE, Vacant) == Ids(s.blocks, NODE, Vacant)
    ensures Ids(t.blocks, NODE, Candidate) == Ids(s.blocks, NODE, Candidate)
  {
    forall i | 0 <= i < |t.blocks|
      ensures BlockOk(t.blocks[i], i, t.blockSize)
    {
      assert BlockOk(s.blocks[i], i, s.blockSize);
    }
    forall h
      ensures Carriers(t.blocks, h) == Carriers(s.blocks, h)
    {
    }
    IdsSame(s.blocks, t.blocks, NODE, Vacant);
    IdsSame(s.blocks, t.blocks, NODE, Candidate);
  }

  // --------------------------------------------------------------- eviction

  lemma CarriersAfterEvict(bs: seq<Block>, v: Block, h: string)
    requires v.id < |bs| && bs[v.id] == v
    ensures Carriers(bs[v.id := v.(tokens := 0, hash := None)], h) == Carriers(bs, h) - {v.id}
    ensures v.hash != Some(h) ==> v.id !in Carriers(bs, h)
  {
  }

  lemma EvictKeepsExact(s: Sim)
    requires Exact(s) && Numbered(s.blocks) && Victim(s).Some?
    ensures Victim(s).value.id < |s.blocks| && Exact(Evict(s, Victim(s).value))
  {
    VictimIsCandidate(s);
    var v := Victim(s).value;
    var t := Evict(s, v);
    UnlinkSpec(s.index, v);
    forall i | 0 <= i < |t.blocks|
      ensures BlockOk(t.blocks[i], i, t.blockSize)
    {
      assert BlockOk(s.blocks[i], i, s.blockSize);
    }
    forall h
      ensures h in t.index ==> EntryExact(t, h)
      ensures h != "" && Carriers(t.blocks, h) != {} ==> h in t.index
    {
      UnlinkedEntry(s, v, h);
    }
  }

  lemma UnlinkedEntry(s: Sim, v: Block, h: string)
    requires Exact(s) && v.id < |s.blocks| && s.blocks[v.id] == v
    ensures var t := Unlink(s.index, v);
            var left := Carriers(s.blocks[v.id := v.(tokens := 0, hash := None)], h);
            && (h in t ==> h != "" && t[h] != [] && NoDup(t[h]) && Elems(t[h]) == left)
            && (h != "" && left != {} ==> h in t)
  {
    CarriersAfterEvict(s.blocks, v, h);
    if v.hash == Some(h) && h in s.index {
      assert BlockOk(v, v.id, s.blockSize);
      assert v.id in Elems(s.index[h]);
      RemoveSpec(s.index[h], v.id);
      var rest := Remove(s.index[h], v.id);
      assert Elems(rest) == Elems(s.index[h]) - {v.id};
      assert rest == [] ==> Elems(rest) == {};
    }
  }

  ghost predicate FreeList(s: Sim, free: seq<nat>) {
    NoDup(free) && Elems(free) == Ids(s.blocks, NODE, Vacant)
  }

  /** What the eviction loop leaves: the counters tell exactly what happened. */
  ghost predicate Roomy(s: Sim, t: Sim, free: seq<nat>, needed: nat) {
    var gap := Max(0, needed - |Ids(s.blocks, NODE, Vacant)|);
    var evicted := Min(gap, |Ids(s.blocks, NODE, Candidate)|);
    && t.blockSize == s.blockSize && |t.blocks| == |s.blocks| && t.hits == s.hits && t.misses == s.misses
    && t.evictions == s.evictions + evicted
    && t.spills == s.spills + (if needed > |s.blocks| then 1 else 0)
    && |free| == |Ids(s.blocks, NODE, Vacant)| + evicted
  }

  lemma {:induction false} MakeRoomSpec(s: Sim, free: seq<nat>, needed: nat)
    requires Exact(s) && Numbered(s.blocks) && FreeList(s, free)
    ensures var (t, out) := MakeRoom(s, free, needed);
            Exact(t) && FreeList(t, out) && Roomy(s, t, out, needed)
    decreases Ids(s.blocks, NODE, Candidate)
  {
    NoDupCount(free);
    ExactBasics(s);
    VictimIsCandidate(s);
    hide Exact, IndexExact, Carriers, NoDup, Elems;
    if |free| < needed {
      if Victim(s).None? {
        SpillKeepsExact(s);
      } else {
        var v := Victim(s).value;
        hide Roomy, FreeList, Ids, Evict, Victim;
        EvictKeepsExact(s);
        EvictMoves(s);
        FreeListGrows(s, free, v);
        MakeRoomSpec(Evict(s, v), free + [v.id], needed);
        RoomyStep(s, v, MakeRoom(s, free, needed).0, MakeRoom(s, free, needed).1, needed);
      }
    }
  }

  lemma RoomyStep(s: Sim, v: Block, t: Sim, free: seq<nat>, needed: nat)
    requires v.id < |s.blocks| && v.id in Ids(s.blocks, NODE, Candidate) && |Ids(s.blocks, NODE, Vacant)| < needed
    requires Ids(Evict(s, v).blocks, NODE, Candidate) == Ids(s.blocks, NODE, Candidate) - {v.id}
    requires |Ids(Evict(s, v).blocks, NODE, Vacant)| == |Ids(s.blocks, NODE, Vacant)| + 1
    requires Roomy(Evict(s, v), t, free, needed)
    ensures Roomy(s, t, free, needed)
  {
    hide Ids;
    assert |Ids(s.blocks, NODE, Candidate)| == |Ids(Evict(s, v).blocks, NODE, Candidate)| + 1;
  }

  lemma SpillKeepsExact(s: Sim)
    requires Exact(s)
    ensures Exact(s.(spills := s.spills + 1))
  {
  }

  lemma FreeListGrows(s: Sim, free: seq<nat>, v: Block)
    requires v.id in Ids(s.blocks, NODE, Candidate) && s.blocks[v.id] == v && FreeList(s, free)
    requires Ids(Evict(s, v).blocks, NODE, Vacant) == Ids(s.blocks, NODE, Vacant) + {v.id}
    ensures FreeList(Evict(s, v), free + [v.id])
    ensures |Ids(Evict(s, v).blocks, NODE, Vacant)| == |Ids(s.blocks, NODE, Vacant)| + 1
  {
    assert v.id !in Ids(s.blocks, NODE, Vacant);
    assert v.id !in Elems(free);
    assert Elems(free + [v.id]) == Elems(free) + {v.id};
  }

  // ---------------------------------------------------------------- filling

  /** `cs` is `bs` with exactly the listed blocks filled under `hash`. */
  ghost predicate Filled(bs: seq<Block>, cs: seq<Block>, ids: seq<nat>, size: nat, hash: Option<string>) {
    && |cs| == |bs|
    && forall i :: 0 <= i < |bs| ==> cs[i] == if i in ids then bs[i].(tokens := size, hash := hash) else bs[i]
  }

  lemma {:induction false} FillAllSpec(s: Sim, ids: seq<nat>, hash: Option<string>)
    requires Within(s.blocks, ids)
    ensures var t := FillAll(s, ids, hash);
            && Filled(s.blocks, t.blocks, ids, s.blockSize, hash)
            && t == s.(blocks := t.blocks, policy := t.policy, tick := t.tick)
  {
    if ids != [] {
      var n := |ids| - 1;
      FillAllSpec(s, ids[..n], hash);
      assert ids == ids[..n] + [ids[n]];
    }
  }

  lemma FilledCarriers(bs: seq<Block>, cs: seq<Block>, ids: seq<nat>, size: nat, hash: Option<string>, h: string)
    requires Within(bs, ids) && size > 0 && Filled(bs, cs, ids, size, hash)
    requires forall i :: i in ids ==> bs[i].tokens == 0 && bs[i].hash == None
    ensures Carriers(cs, h) == Carriers(bs, h) + (if hash == Some(h) then Elems(ids) else {})
    ensures Carriers(bs, h) !! Elems(ids)
  {
  }

  /** What Settle leaves, as long as it does not list a prefix under no block at all. */
  lemma SettleKeepsExact(s: Sim, free: seq<nat>, needed: nat, hash: Option<string>)
    requires Exact(s) && FreeList(s, free) && Within(s.blocks, free)
    requires Truthy(hash) ==> Listed(s.index, hash) != [] || (free != [] && needed > 0)
    ensures var t := Settle(s, free, needed, hash);
            && Exact(t)
            && Ids(t.blocks, NODE, Vacant) == Ids(s.blocks, NODE, Vacant) - Elems(free[..Min(|free|, needed)])
  {
    var k := Min(|free|, needed);
    var taken := free[..k];
    var t := Settle(s, free, needed, hash);
    FillAllSpec(s, taken, hash);
    TakenAreVacant(s, free, k);
    forall i | 0 <= i < |t.blocks|
      ensures BlockOk(t.blocks[i], i, t.blockSize)
      ensures Is(t.blocks[i], NODE, Vacant) <==> Is(s.blocks[i], NODE, Vacant) && i !in taken
    {
      assert BlockOk(s.blocks[i], i, s.blockSize);
    }
    assert Ids(t.blocks, NODE, Vacant) == Ids(s.blocks, NODE, Vacant) - Elems(taken);
    forall h
      ensures h in t.index ==> EntryExact(t, h)
      ensures h != "" && Carriers(t.blocks, h) != {} ==> h in t.index
    {
      SettledEntry(s, t, taken, hash, h);
    }
  }

  lemma TakenAreVacant(s: Sim, free: seq<nat>, k: nat)
    requires PoolOk(s) && FreeList(s, free) && k <= |free|
    ensures NoDup(free[..k]) && Within(s.blocks, free[..k])
    ensures forall i :: i in free[..k] ==> s.blocks[i].tokens == 0 && s.blocks[i].hash == None
  {
    forall j | 0 <= j < k
      ensures free[..k][j] < |s.blocks| && s.blocks[free[j]].tokens == 0 && s.blocks[free[j]].hash == None
    {
      assert free[j] in Elems(free);
      assert BlockOk(s.blocks[free[j]], free[j], s.blockSize);
    }
  }

  lemma SettledEntry(s: Sim, t: Sim, taken: seq<nat>, hash: Option<string>, h: string)
    requires Exact(s) && Within(s.blocks, taken) && NoDup(taken)
    requires forall i :: i in taken ==> s.blocks[i].tokens == 0 && s.blocks[i].hash == None
    requires Filled(s.blocks, t.blocks, taken, s.blockSize, hash)
    requires t.index == if Truthy(hash) then s.index[hash.value := Listed(s.index, hash) + taken] else s.index
    requires Truthy(hash) ==> Listed(s.index, hash) + taken != []
    ensures h in t.index ==> EntryExact(t, h)
    ensures h != "" && Carriers(t.blocks, h) != {} ==> h in t.index
  {
    FilledCarriers(s.blocks, t.blocks, taken, s.blockSize, hash, h);
    if Truthy(hash) && h == hash.value {
      var before := Listed(s.index, hash);
      assert Elems(before) == Carriers(s.blocks, h);
      assert forall i :: i in before ==> i in Elems(before);
      assert forall i :: i in taken ==> i in Elems(taken);
      assert Elems(before + taken) == Elems(before) + Elems(taken);
      NoDupAppend(before, taken);
    }
  }

  lemma NoDupAppend(a: seq<nat>, b: seq<nat>)
    requires NoDup(a) && NoDup(b) && Elems(a) !! Elems(b)
    ensures NoDup(a + b)
  {
    forall i, j | 0 <= i < |a| && 0 <= j < |b|
      ensures a[i] != b[j]
    {
      assert a[i] in Elems(a) && b[j] in Elems(b);
    }
  }

  // ----------------------------------------------------------- whole rounds

  /** With no block at all the dictionary can only hold empty lists. */
  ghost predicate Hollow(s: Sim) {
    s.blocks == [] && s.blockSize > 0 && forall h :: h in s.index ==> h != "" && s.index[h] == []
  }

  ghost predicate Ready(s: Sim) {
    if s.blocks == [] then Hollow(s) else Exact(s)
  }

  /** The free list that a round starts from. */
  function Free(s: Sim): seq<nat> {
    Refs(Select(s.blocks, NODE, Vacant))
  }

  lemma LookupFacts(s: Sim, r: Request)
    requires Ready(s)
    ensures Within(s.blocks, Listed(s.index, r.prefixHash))
    ensures var t := Lookup(s, r);
            && Ready(t) && Numbered(t.blocks) && FreeList(t, Free(t)) && Within(t.blocks, Free(t))
            && |t.blocks| == |s.blocks| && t.blockSize == s.blockSize && t.index == s.index
            && t.evictions == s.evictions && t.spills == s.spills
            && Ids(t.blocks, NODE, Vacant) == Ids(s.blocks, NODE, Vacant)
  {
    EntriesWithin(s, r.prefixHash);
    var listed := Listed(s.index, r.prefixHash);
    TouchAllSpec(s, listed);
    var t := Lookup(s, r);
    if s.blocks != [] {
      TimesDoNotMatter(s, t);
      ExactBasics(t);
    }
    FreeIsVacant(t);
  }

  lemma EntriesWithin(s: Sim, hash: Option<string>)
    requires Ready(s)
    ensures Within(s.blocks, Listed(s.index, hash))
  {
    var listed := Listed(s.index, hash);
    if listed != [] {
      forall j | 0 <= j < |listed|
        ensures listed[j] < |s.blocks|
      {
        assert listed[j] in Elems(listed);
      }
    }
  }

  lemma FreeIsVacant(s: Sim)
    requires Numbered(s.blocks)
    ensures FreeList(s, Free(s)) && Within(s.blocks, Free(s))
  {
    var vacant := Select(s.blocks, NODE, Vacant);
    SelectIds(s.blocks, NODE, Vacant);
    forall i | i in Ids(s.blocks, NODE, Vacant)
      ensures i in Free(s)
    {
      var j :| 0 <= j < |vacant| && vacant[j] == s.blocks[i];
      assert Free(s)[j] == i;
    }
  }

  /** The state after the eviction loop, and the free list. */
  function Room(s: Sim, r: Request): (Sim, seq<nat>)
    requires Ready(s)
  {
    LookupFacts(s, r);
    MakeRoom(Lookup(s, r), Free(Lookup(s, r)), Needed(s, r))
  }

  /** The loop body of run. */
  function Round(s: Sim, r: Request): Sim
    requires Ready(s)
  {
    RoomIsSafe(s, r);
    Settle(Room(s, r).0, Room(s, r).1, Needed(s, r), r.prefixHash)
  }

  lemma RoomIsSafe(s: Sim, r: Request)
    requires Ready(s)
    ensures Within(s.blocks, Listed(s.index, r.prefixHash))
    ensures var (t, free) := Room(s, r);
            && Within(t.blocks, free) && (s.blocks != [] ==> Exact(t) && FreeList(t, free))
            && Roomy(Lookup(s, r), t, free, Needed(s, r))
            && (s.blocks == [] ==> free == [] && t.index == s.index && t.blocks == [] && t.blockSize == s.blockSize)
  {
    LookupFacts(s, r);
    var looked := Lookup(s, r);
    if s.blocks != [] {
      MakeRoomSpec(looked, Free(looked), Needed(s, r));
      FreeWithin(Room(s, r).0, Room(s, r).1);
    } else {
      assert Ids(looked.blocks, NODE, Candidate) == {};
      VictimIsCandidate(looked);
      NoDupCount(Free(looked));
      assert Ids(looked.blocks, NODE, Vacant) == {};
    }
  }

  lemma FreeWithin(s: Sim, free: seq<nat>)
    requires FreeList(s, free)
    ensures Within(s.blocks, free)
  {
    forall j | 0 <= j < |free|
      ensures free[j] < |s.blocks|
    {
      assert free[j] in Elems(free);
    }
  }

  /** The blocks a request still asks for once the carriers of its prefix are counted. */
  ghost function Residual(s: Sim, r: Request): nat {
    var carried := if Truthy(r.prefixHash) then |Carriers(s.blocks, r.prefixHash.value)| else 0;
    Max(0, r.KvBlocksNeeded() - carried)
  }

  lemma ResidualIsNeeded(s: Sim, r: Request)
    requires Exact(s)
    ensures Needed(s, r) == Residual(s, r)
    ensures Listed(s.index, r.prefixHash) != [] <==> Truthy(r.prefixHash) && r.prefixHash.value in s.index
    ensures Truthy(r.prefixHash) ==> (r.prefixHash.value in s.index <==> Carriers(s.blocks, r.prefixHash.value) != {})
  {
    if Truthy(r.prefixHash) && r.prefixHash.value in s.index {
      NoDupCount(s.index[r.prefixHash.value]);
      assert s.index[r.prefixHash.value][0] in Elems(s.index[r.prefixHash.value]);
    }
  }

  lemma LookupCounts(s: Sim, r: Request)
    requires Ready(s)
    ensures Within(s.blocks, Listed(s.index, r.prefixHash))
    ensures var t := Lookup(s, r);
            var hit := Truthy(r.prefixHash) && r.prefixHash.value in s.index;
            t.hits == s.hits + (if hit then 1 else 0) && t.misses == s.misses + (if hit then 0 else 1)
  {
    EntriesWithin(s, r.prefixHash);
    TouchAllSpec(s, Listed(s.index, r.prefixHash));
  }

  lemma RestAfter(free: seq<nat>, k: nat)
    requires NoDup(free) && k <= |free|
    ensures |Elems(free) - Elems(free[..k])| == |free| - k
  {
    NoDupCount(free[k..]);
    assert free == free[..k] + free[k..];
    forall x | x in free[k..]
      ensures x !in free[..k]
    {
    }
    assert Elems(free) - Elems(free[..k]) == Elems(free[k..]);
  }

  /** The second half of a round: the first `needed` free blocks are filled. */
  lemma SettleCounts(s: Sim, free: seq<nat>, needed: nat, hash: Option<string>)
    requires Exact(s) && FreeList(s, free) && Within(s.blocks, free)
    requires Truthy(hash) ==> Listed(s.index, hash) != [] || (free != [] && needed > 0)
    ensures var t := Settle(s, free, needed, hash);
            && Exact(t) && |t.blocks| == |s.blocks|
            && t.hits == s.hits && t.misses == s.misses && t.spills == s.spills && t.evictions == s.evictions
            && |Ids(t.blocks, NODE, Vacant)| == Max(0, |free| - needed)
            && (Truthy(hash) ==> Carriers(t.blocks, hash.value) != {})
  {
    var k := Min(|free|, needed);
    SettleKeepsExact(s, free, needed, hash);
    RestAfter(free, k);
    FillAllSpec(s, free[..k], hash);
    var t := Settle(s, free, needed, hash);
    if Truthy(hash) {
      assert t.index[hash.value][0] in Elems(t.index[hash.value]);
    }
  }

  /** One request, in full: the dictionary stays exact, a hit means that some live block
      carries the prefix, a spill means that the residual demand exceeds the capacity, and
      the evictions are what the vacant blocks cannot cover and the pool can. */
  lemma RoundSpec(s: Sim, r: Request)
    requires Exact(s) && s.blocks != []
    ensures var t := Round(s, r);
            var hit := Truthy(r.prefixHash) && Carriers(s.blocks, r.prefixHash.value) != {};
            var vacant := |Ids(s.blocks, NODE, Vacant)|;
            && Exact(t) && |t.blocks| == |s.blocks|
            && t.hits == s.hits + (if hit then 1 else 0)
            && t.misses == s.misses + (if hit then 0 else 1)
            && t.spills == s.spills + (if Residual(s, r) > |s.blocks| then 1 else 0)
            && vacant <= |s.blocks|
            && t.evictions == s.evictions + Min(Max(0, Residual(s, r) - vacant), |s.blocks| - vacant)
            && |Ids(t.blocks, NODE, Vacant)| == Max(0, vacant - Residual(s, r))
            && (Truthy(r.prefixHash) ==> Carriers(t.blocks, r.prefixHash.value) != {})
  {
    LookupFacts(s, r);
    RoomIsSafe(s, r);
    ResidualIsNeeded(s, r);
    ExactBasics(s);
    ExactBasics(Lookup(s, r));
    LookupCounts(s, r);
    hide Exact, Carriers, Ids, FreeList, Needed, Residual;
    SettleCounts(Room(s, r).0, Room(s, r).1, Needed(s, r), r.prefixHash);
  }

  /** With no block a round only records the prefix, and always spills. */
  lemma HollowRound(s: Sim, r: Request)
    requires Hollow(s)
    ensures var t := Round(s, r);
            var known := Truthy(r.prefixHash) && r.prefixHash.value in s.index;
            && Hollow(t)
            && t.index.Keys == s.index.Keys + (if Truthy(r.prefixHash) then {r.prefixHash.value} else {})
            && t.hits == s.hits + (if known then 1 else 0)
            && t.misses == s.misses + (if known then 0 else 1)
            && t.spills == s.spills + 1
            && t.evictions == s.evictions
  {
    LookupFacts(s, r);
    RoomIsSafe(s, r);
    LookupCounts(s, r);
    assert Ids(Lookup(s, r).blocks, NODE, Vacant) == {};
    assert Ids(Lookup(s, r).blocks, NODE, Candidate) == {};
    FillAllSpec(Room(s, r).0, [], r.prefixHash);
  }

  lemma RoundKeepsReady(s: Sim, r: Request)
    requires Ready(s)
    ensures Ready(Round(s, r)) && |Round(s, r).blocks| == |s.blocks|
  {
    hide Exact;
    if s.blocks == [] {
      HollowRound(s, r);
    } else {
      RoundSpec(s, r);
    }
  }

  lemma EntryHasBlock(s: Sim, h: string)
    requires Exact(s) && h in s.index
    ensures s.blocks != []
  {
    assert s.index[h][0] in Elems(s.index[h]);
  }

  /** Exactly when a request leaves the dictionary exact: never through the code's own
      fault on a pool with a block, always when it names a prefix to an empty pool. */
  lemma RoundExactIff(s: Sim, r: Request)
    requires Exact(s)
    ensures Ready(s)
    ensures Exact(Round(s, r)) <==> s.blocks != [] || !Truthy(r.prefixHash)
  {
    forall h | h in s.index
      ensures s.blocks != []
    {
      EntryHasBlock(s, h);
    }
    if s.blocks == [] {
      assert s.index.Keys == {};
      HollowRound(s, r);
      var t := Round(s, r);
      if Truthy(r.prefixHash) {
        assert r.prefixHash.value in t.index.Keys && t.index[r.prefixHash.value] == [];
      } else {
        assert t.index.Keys == {};
      }
    } else {
      RoundSpec(s, r);
    }
  }

  // ------------------------------------------------------------- whole runs

  /** The state that run starts from: every block is stamped as it is created. */
  function Start(totalBlocks: nat, blockSize: nat, policy: Policy, read: nat -> real): Sim {
    Sim(blockSize, seq(totalBlocks, i requires 0 <= i < totalBlocks => Block(i, NODE, 0, None, read(i), false)),
        map[], policy, read, totalBlocks, 0, 0, 0, 0)
  }

  lemma StartIsReady(totalBlocks: nat, blockSize: nat, policy: Policy, read: nat -> real)
    requires blockSize > 0
    ensures var s := Start(totalBlocks, blockSize, policy, read);
            Ready(s) && Exact(s) && |Ids(s.blocks, NODE, Vacant)| == totalBlocks
  {
    var s := Start(totalBlocks, blockSize, policy, read);
    assert forall i :: 0 <= i < |s.blocks| ==> s.blocks[i].tokens == 0;
    assert Ids(s.blocks, NODE, Candidate) == {};
    assert PoolOk(s);
    ExactBasics(s);
  }

  function Run(s: Sim, trace: seq<Request>): (t: Sim)
    requires Ready(s)
    ensures Ready(t) && |t.blocks| == |s.blocks|
  {
    if trace == [] then s
    else
      var before := Run(s, trace[..|trace| - 1]);
      RoundKeepsReady(before, trace[|trace| - 1]);
      Round(before, trace[|trace| - 1])
  }

  /** Over any trace on a pool with a block: the dictionary is exact at every request
      boundary (every prefix of a trace is a trace), every request is one hit or one miss,
      and the spills are the requests whose residual demand exceeded the whole pool. */
  lemma {:induction false} RunIsExact(s: Sim, trace: seq<Request>)
    requires Exact(s) && s.blocks != []
    ensures var t := Run(s, trace);
            && Exact(t)
            && t.hits + t.misses == s.hits + s.misses + |trace|
            && t.spills == s.spills + Oversized(s, trace)
  {
    if trace != [] {
      var n := |trace| - 1;
      RunIsExact(s, trace[..n]);
      RoundSpec(Run(s, trace[..n]), trace[n]);
    }
  }

  /** How many requests of a trace met a pool smaller than their residual demand. */
  ghost function Oversized(s: Sim, trace: seq<Request>): nat
    requires Ready(s)
  {
    if trace == [] then 0
    else
      var n := |trace| - 1;
      Oversized(s, trace[..n]) + (if Residual(Run(s, trace[..n]), trace[n]) > |s.blocks| then 1 else 0)
  }

  /** No spill is ever counted when every request fits the pool by itself. */
  lemma {:induction false} FittingTracesNeverSpill(s: Sim, trace: seq<Request>)
    requires Exact(s) && s.blocks != []
    requires forall k :: 0 <= k < |trace| ==> trace[k].KvBlocksNeeded() <= |s.blocks|
    ensures Run(s, trace).spills == s.spills
  {
    if trace != [] {
      var n := |trace| - 1;
      FittingTracesNeverSpill(s, trace[..n]);
      RunIsExact(s, trace[..n]);
      RoundSpec(Run(s, trace[..n]), trace[n]);
    }
  }

  /** A prefix is resident right after any request for it, so asking again is a hit. */
  lemma RepeatIsHit(s: Sim, first: Request, second: Request)
    requires Exact(s) && s.blocks != []
    requires Truthy(first.prefixHash) && second.prefixHash == first.prefixHash
    ensures Ready(Round(s, first))
    ensures Round(Round(s, first), second).hits == Round(s, first).hits + 1
  {
    RoundSpec(s, first);
    RoundSpec(Round(s, first), second);
  }

  /** The part of two runs that no policy can make different. */
  ghost predicate SameLoad(s: Sim, t: Sim) {
    && |t.blocks| == |s.blocks| && |Ids(t.blocks, NODE, Vacant)| == |Ids(s.blocks, NODE, Vacant)|
    && t.hits == s.hits && t.misses == s.misses && t.evictions == s.evictions && t.spills == s.spills
  }

  lemma RoundsAgreeWithoutPrefix(s: Sim, t: Sim, r: Request)
    requires Exact(s) && Exact(t) && s.blocks != [] && t.blocks != [] && SameLoad(s, t) && !Truthy(r.prefixHash)
    ensures SameLoad(Round(s, r), Round(t, r))
  {
    hide Exact, Carriers, Ids;
    RoundSpec(s, r);
    RoundSpec(t, r);
  }

  /** Policies differ only through prefixes: on a trace without any, every policy and every
      clock give the same counts. */
  lemma {:induction false} PoliciesAgreeWithoutPrefixes(s: Sim, t: Sim, trace: seq<Request>)
    requires Exact(s) && Exact(t) && s.blocks != [] && t.blocks != [] && SameLoad(s, t)
    requires forall k :: 0 <= k < |trace| ==> !Truthy(trace[k].prefixHash)
    ensures SameLoad(Run(s, trace), Run(t, trace))
  {
    hide Exact, SameLoad, Round, Truthy;
    if trace != [] {
      var n := |trace| - 1;
      PoliciesAgreeWithoutPrefixes(s, t, trace[..n]);
      RunIsExact(s, trace[..n]);
      RunIsExact(t, trace[..n]);
      RoundsAgreeWithoutPrefix(Run(s, trace[..n]), Run(t, trace[..n]), trace[n]);
    }
  }

  /** The prefixes a trace names. */
  ghost function Named(trace: seq<Request>): set<string> {
    set k | 0 <= k < |trace| && Truthy(trace[k].prefixHash) :: trace[k].prefixHash.value
  }

  /** How many requests name a prefix that an earlier one named. */
  ghost function Repeats(trace: seq<Request>): nat {
    if trace == [] then 0
    else
      var n := |trace| - 1;
      Repeats(trace[..n]) +
      (if Truthy(trace[n].prefixHash) && trace[n].prefixHash.value in Named(trace[..n]) then 1 else 0)
  }

  /** With no block at all every repeated prefix is still reported as a hit. */
  lemma {:induction false} EmptyPoolReportsHits(s: Sim, trace: seq<Request>)
    requires Hollow(s) && s.index == map[]
    ensures var t := Run(s, trace);
            && Hollow(t) && t.index.Keys == Named(trace)
            && t.hits == s.hits + Repeats(trace)
            && t.spills == s.spills + |trace|
  {
    if trace != [] {
      var n := |trace| - 1;
      hide Hollow, Named;
      EmptyPoolReportsHits(s, trace[..n]);
      HollowRound(Run(s, trace[..n]), trace[n]);
      NamedLast(trace);
    }
  }

  lemma NamedLast(trace: seq<Request>)
    requires trace != []
    ensures var n := |trace| - 1;
            Named(trace) == Named(trace[..n]) +
                            (if Truthy(trace[n].prefixHash) then {trace[n].prefixHash.value} else {})
  {
  }

  // -------------------------------------------------------------- the loops

  class KVCacheSimulator {
    const totalBlocks: nat
    const blockSize: nat

    constructor (totalBlocks: nat, blockSize: nat)
      ensures this.totalBlocks == totalBlocks && this.blockSize == blockSize
    {
      this.totalBlocks, this.blockSize := totalBlocks, blockSize;
    }

    static method CheckPrefix(s: Sim, r: Request) returns (t: Sim, needed: nat)
      requires Ready(s)
      ensures Within(s.blocks, Listed(s.index, r.prefixHash))
      ensures t == Lookup(s, r) && needed == Needed(s, r)
    {
      EntriesWithin(s, r.prefixHash);
      t, needed := s, r.KvBlocksNeeded();
      if Truthy(r.prefixHash) && r.prefixHash.value in s.index {
        var cached := s.index[r.prefixHash.value];
        needed := Max(0, needed - |cached|);
        for i := 0 to |cached|
          invariant t == TouchAll(s, cached[..i])
        {
          assert cached[..i + 1][..i] == cached[..i];
          t := Touch(t, cached[i]);
        }
        assert cached[..|cached|] == cached;
        TouchAllSpec(s, cached);
        t := t.(hits := t.hits + 1);
      } else {
        t := t.(misses := t.misses + 1);
      }
    }

    static method EvictLoop(s: Sim, start: seq<nat>, needed: nat) returns (t: Sim, free: seq<nat>)
      requires Numbered(s.blocks)
      ensures (t, free) == MakeRoom(s, start, needed)
    {
      t, free := s, start;
      while |free| < needed
        invariant Numbered(t.blocks)
        invariant MakeRoom(t, free, needed) == MakeRoom(s, start, needed)
        decreases Ids(t.blocks, NODE, Candidate)
      {
        var victim := Victim(t);
        if victim.None? {
          t := t.(spills := t.spills + 1);
          break;
        }
        EvictMoves(t);
        t, free := Evict(t, victim.value), free + [victim.value.id];
      }
    }

    static method Place(s: Sim, free: seq<nat>, needed: nat, hash: Option<string>) returns (t: Sim)
      requires Within(s.blocks, free)
      ensures t == Settle(s, free, needed, hash)
    {
      var taken := free[..Min(|free|, needed)];
      t := s;
      for i := 0 to |taken|
        invariant t == FillAll(s, taken[..i], hash)
      {
        assert taken[..i + 1][..i] == taken[..i];
        t := Fill(t, taken[i], hash);
      }
      assert taken[..|taken|] == taken;
      if Truthy(hash) {
        t := t.(index := t.index[hash.value := Listed(t.index, hash) + taken]);
      }
    }

    method Simulate(trace: seq<Request>, policy: Policy, read: nat -> real) returns (result: Sim)
      requires blockSize > 0
      ensures Ready(Start(totalBlocks, blockSize, policy, read))
      ensures result == Run(Start(totalBlocks, blockSize, policy, read), trace)
      ensures result.hits + result.misses == |trace|
      ensures totalBlocks > 0 ==> Exact(result)
    {
      var start := Start(totalBlocks, blockSize, policy, read);
      StartIsReady(totalBlocks, blockSize, policy, read);
      result := start;
      for k := 0 to |trace|
        invariant Ready(result)
        invariant result == Run(start, trace[..k])
      {
        assert trace[..k + 1][..k] == trace[..k];
        LookupFacts(result, trace[k]);
        RoomIsSafe(result, trace[k]);
        RoundKeepsReady(result, trace[k]);
        var t, needed := CheckPrefix(result, trace[k]);
        var free := Free(t);
        t, free := EvictLoop(t, free, needed);
        result := Place(t, free, needed, trace[k].prefixHash);
      }
      assert trace[..|trace|] == trace;
      LookupsAddUp(start, trace);
    }
  }

  lemma LookupsAddUp(s: Sim, trace: seq<Request>)
    requires Exact(s) && Ready(s)
    ensures Run(s, trace).hits + Run(s, trace).misses == s.hits + s.misses + |trace|
    ensures s.blocks != [] ==> Exact(Run(s, trace))
  {
    if s.blocks != [] {
      RunIsExact(s, trace);
    } else {
      HollowAddUp(s, trace);
    }
  }

  lemma {:induction false} HollowAddUp(s: Sim, trace: seq<Request>)
    requires Hollow(s)
    ensures Run(s, trace).hits + Run(s, trace).misses == s.hits + s.misses + |trace|
  {
    if trace != [] {
      var n := |trace| - 1;
      HollowAddUp(s, trace[..n]);
      HollowRound(Run(s, trace[..n]), trace[n]);
    }
  }
}
