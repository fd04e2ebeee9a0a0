/** What last_accessed says under LRU: every access stamps the block with a reading of the clock
    taken in that very call, so LRU gives up the blocks whose last access lies furthest back. */
module AccessTimes {
  import opened Models
  import opened BlockPools
  import opened ClockReadings
  import opened KVCache
  import opened KVCacheProofs
  import opened KVCacheRuns

  /** `d` is `c` with the listed blocks stamped between the two moments. */
  ghost predicate Stamps(c: Cache, d: Cache, ids: seq<nat>) {
    && d.read == c.read && c.tick <= d.tick && |d.blocks| == |c.blocks|
    && (forall i :: i in ids && i < |d.blocks| ==> ReadIn(c.read, c.tick, d.tick, d.blocks[i].last))
    && (forall i :: 0 <= i < |c.blocks| && i !in ids ==> d.blocks[i] == c.blocks[i])
  }

  lemma StampsOne(c: Cache, d: Cache, e: Cache, ids: seq<nat>, j: nat)
    requires Stamps(c, d, ids) && j < |d.blocks| == |e.blocks|
    requires e.read == d.read && d.tick < e.tick && e.blocks == d.blocks[j := e.blocks[j]]
    requires ReadIn(c.read, d.tick, e.tick, e.blocks[j].last)
    ensures Stamps(c, e, ids + [j])
  {
    forall i | i in ids + [j] && i < |e.blocks|
      ensures ReadIn(c.read, c.tick, e.tick, e.blocks[i].last)
    {
      if i == j {
        ReadWithin(c.read, d.tick, e.tick, c.tick, e.tick, e.blocks[j].last);
      } else {
        ReadWithin(c.read, c.tick, d.tick, c.tick, e.tick, d.blocks[i].last);
      }
    }
  }

  lemma {:induction false} PinAllStamps(c: Cache, ids: seq<nat>)
    requires InPool(c, ids) && c.policy.LRU?
    ensures Stamps(c, PinAll(c, ids), ids) && PinAll(c, ids).policy.LRU?
  {
    hide Stamps, ReadIn;
    if ids == [] {
      StampsNone(c);
    } else {
      var n := |ids| - 1;
      PinAllStamps(c, ids[..n]);
      var d := PinAll(c, ids[..n]);
      ReadAt(d.read, d.tick, d.tick, d.tick + 1);
      StampsRead(c, d, ids[..n]);
      StampsOne(c, d, PinAll(c, ids), ids[..n], ids[n]);
      assert ids[..n] + [ids[n]] == ids;
    }
  }

  lemma StampsNone(c: Cache)
    ensures Stamps(c, c, [])
  {
  }

  lemma StampsRead(c: Cache, d: Cache, ids: seq<nat>)
    requires Stamps(c, d, ids)
    ensures d.read == c.read
  {
  }

  lemma {:induction false} ReleaseAllStamps(c: Cache, node: string, ids: seq<nat>)
    requires InPool(c, ids) && c.Serves(node) && c.policy.LRU?
    ensures Stamps(c, ReleaseAll(c, node, ids, true), ids) && ReleaseAll(c, node, ids, true).policy.LRU?
  {
    hide Stamps, ReadIn;
    if ids == [] {
      StampsNone(c);
    } else {
      var n := |ids| - 1;
      ReleaseAllStamps(c, node, ids[..n]);
      var d := ReleaseAll(c, node, ids[..n], true);
      ReadAt(d.read, d.tick, d.tick, d.tick + 1);
      StampsRead(c, d, ids[..n]);
      StampsOne(c, d, ReleaseAll(c, node, ids, true), ids[..n], ids[n]);
      assert ids[..n] + [ids[n]] == ids;
    }
  }

  lemma {:induction false} FillAllStamps(c: Cache, ids: seq<nat>, hash: Option<string>)
    requires InPool(c, ids)
    ensures Stamps(c, FillAll(c, ids, hash), ids)
  {
    hide Stamps, ReadIn;
    if ids == [] {
      StampsNone(c);
    } else {
      var n := |ids| - 1;
      FillAllStamps(c, ids[..n], hash);
      var d := FillAll(c, ids[..n], hash);
      var e := FillAll(c, ids, hash);
      ReadAt(d.read, d.tick, d.tick, e.tick);
      if d.policy.LRU? {
        ReadAt(d.read, d.tick, d.tick + 1, e.tick);
      }
      StampsRead(c, d, ids[..n]);
      StampsOne(c, d, e, ids[..n], ids[n]);
      assert ids[..n] + [ids[n]] == ids;
    }
  }

  /** An eviction stamps the block that goes, and no other. */
  lemma {:induction false} MaybeEvictTicks(c: Cache, node: string, needed: nat)
    requires Numbered(c.blocks) && c.Serves(node)
    ensures var d := MaybeEvict(c, node, needed);
            && c.tick <= d.tick && d.read == c.read
            && (forall i :: 0 <= i < |c.blocks| && c.blocks[i].tokens == 0 ==> d.blocks[i] == c.blocks[i])
            && (forall i :: 0 <= i < |c.blocks| && c.blocks[i].tokens > 0 && d.blocks[i].tokens == 0 ==>
                  ReadIn(c.read, c.tick, d.tick, d.blocks[i].last))
    decreases Ids(c.blocks, node, Candidate)
  {
    hide ReadIn;
    if |Select(c.blocks, node, Vacant)| < needed && Victim(c, node).Some? {
      EvictShrinks(c, node);
      VictimIsCandidate(c, node);
      var v := Victim(c, node).value;
      var e := Evict(c, node, v);
      MaybeEvictTicks(e, node, needed);
      var d := MaybeEvict(c, node, needed);
      forall i | 0 <= i < |c.blocks| && c.blocks[i].tokens > 0 && d.blocks[i].tokens == 0
        ensures ReadIn(c.read, c.tick, d.tick, d.blocks[i].last)
      {
        if i == v.id {
          ReadAt(c.read, c.tick, c.tick, d.tick);
        } else {
          ReadWithin(c.read, e.tick, d.tick, c.tick, d.tick, d.blocks[i].last);
        }
      }
    }
  }

  /** A new block carries a reading of its creation. */
  lemma {:induction false} AddBlocksTicks(c: Cache, node: string, n: nat)
    ensures var d := AddBlocks(c, node, n);
            && c.tick <= d.tick && d.read == c.read && |d.blocks| == |c.blocks| + n
            && (forall i :: |c.blocks| <= i < |d.blocks| ==> ReadIn(c.read, c.tick, d.tick, d.blocks[i].last))
  {
    if n != 0 {
      AddBlocksTicks(c, node, n - 1);
      var b, d := AddBlocks(c, node, n - 1), AddBlocks(c, node, n);
      forall i | |c.blocks| <= i < |d.blocks|
        ensures ReadIn(c.read, c.tick, d.tick, d.blocks[i].last)
      {
        if i < |b.blocks| {
          ReadWithin(c.read, c.tick, b.tick, c.tick, d.tick, d.blocks[i].last);
        } else {
          ReadAt(c.read, c.tick, b.tick, d.tick);
        }
      }
    }
  }

  // -------------------------------------------------------------- one operation

  /** The operation accesses block i: it reuses or takes it, or frees it. */
  ghost predicate Accesses(c: Cache, op: Op, i: nat)
    requires Numbered(c.blocks) && IndexInPool(c) && Callable(c, op)
  {
    match op
    case AllocateOp(node, r) =>
      var a := KVCache.Allocate(c, node, r);
      i in a.reused || i in a.taken
    case FreeOp(_, ids) => i in ids
    case ForceEvictOp(_, _) => false
    case AddNodeOp(_, _) => false
  }

  /** An accessed block carries a reading of this call; any other live block was live before and
      keeps its date. */
  ghost predicate DatedBy(c: Cache, d: Cache, i: nat, accessed: bool) {
    && d.read == c.read && c.tick <= d.tick
    && (accessed ==> i < |d.blocks| && ReadIn(c.read, c.tick, d.tick, d.blocks[i].last))
    && (!accessed && i < |d.blocks| && d.blocks[i].tokens > 0 ==>
          i < |c.blocks| && c.blocks[i].tokens > 0 && d.blocks[i].last == c.blocks[i].last)
  }

  lemma AllocateStages(c: Cache, l: Cache, e: Cache, f: Cache, reused: seq<nat>, taken: seq<nat>, node: string,
                       gone: set<nat>, i: nat)
    requires Inv(c) && Stamps(c, l, reused) && Repinned(c, l, reused, true) && Evicted(l, e, node, gone)
    requires l.tick <= e.tick && Stamps(e, f, taken)
    requires forall j :: j in reused ==> j < |c.blocks| && c.blocks[j].tokens > 0
    requires forall j :: j in taken ==> j in Ids(e.blocks, node, Vacant)
    ensures DatedBy(c, f, i, i in reused || i in taken)
  {
    hide Inv, IndexLess, RanksKept, SameKind, ReadIn;
    assert i in gone ==> i in Ids(l.blocks, node, Candidate);
    if i in taken {
      assert i in Ids(e.blocks, node, Vacant);
      ReadWithin(c.read, e.tick, f.tick, c.tick, f.tick, f.blocks[i].last);
    } else if i in reused {
      ReadWithin(c.read, c.tick, l.tick, c.tick, f.tick, f.blocks[i].last);
    }
  }

  /** allocate stamps what it reuses and what it takes. */
  lemma AllocateDates(c: Cache, node: string, r: Request, i: nat)
    requires Inv(c) && Allocatable(c, node) && c.policy.LRU?
    ensures var a := KVCache.Allocate(c, node, r);
            DatedBy(c, a.cache, i, i in a.reused || i in a.taken)
  {
    hide Inv, Stamps, Repinned, DatedBy, LeastRanked, Evicted, FillAll, MaybeEvict, PinAll;
    var l, e := AfterLookup(c, node, r), AfterEviction(c, node, r);
    var reused, taken := Reused(c, node, r), Taken(c, node, r);
    LookupSpec(c, node, r);
    InvNumbered(l);
    ReusedSpec(c, node, r);
    LookupStamps(c, node, r);
    var gone := EvictionSpec(c, node, r);
    TakenSpec(c, node, r);
    MaybeEvictTicks(l, node, Shortfall(c, node, r));
    FillAllStamps(e, taken, r.prefixHash);
    var f := FillAll(e, taken, r.prefixHash);
    AllocateStages(c, l, e, f, reused, taken, node, gone, i);
    SameDates(c, f, KVCache.Allocate(c, node, r).cache, i, i in reused || i in taken);
  }

  lemma LookupStamps(c: Cache, node: string, r: Request)
    requires Inv(c) && Allocatable(c, node) && c.policy.LRU?
    ensures Stamps(c, AfterLookup(c, node, r), Reused(c, node, r))
  {
    hide Inv, ReadIn;
    var ids := Reused(c, node, r);
    PinAllStamps(c, ids);
  }

  lemma SameDates(c: Cache, f: Cache, d: Cache, i: nat, accessed: bool)
    requires DatedBy(c, f, i, accessed) && d.read == f.read && d.tick == f.tick && d.blocks == f.blocks
    ensures DatedBy(c, d, i, accessed)
  {
  }

  /** free stamps what is listed. */
  lemma FreeDates(c: Cache, node: string, ids: seq<nat>, i: nat)
    requires Inv(c) && InPool(c, ids) && c.Serves(node) && c.policy.LRU?
    ensures DatedBy(c, Free(c, node, ids, true), i, i in ids)
  {
    hide ReadIn;
    ReleaseAllStamps(c, node, ids);
  }

  lemma StepDates(c: Cache, op: Op, i: nat)
    requires Inv(c) && IndexInPool(c) && Callable(c, op) && c.policy.LRU?
    ensures Numbered(c.blocks) && DatedBy(c, Apply(c, op), i, Accesses(c, op, i))
  {
    hide Inv, KVCache.Allocate, MaybeEvict, ReleaseAll, AddBlocks, IndexLess, RanksKept, LeastRanked, ReadIn;
    InvNumbered(c);
    match op {
      case AllocateOp(node, r) =>
        AllocateDates(c, node, r, i);
      case FreeOp(node, ids) =>
        FreeDates(c, node, ids, i);
      case ForceEvictOp(node, n) =>
        MaybeEvictTicks(c, node, n);
        var gone := MaybeEvictSpec(c, node, n);
      case AddNodeOp(node, total) =>
        AddBlocksTicks(c, node, total);
        AddBlocksSpec(c, node, total);
        if i < |c.blocks| {
          AddBlocksKeep(c, node, total, i);
        }
    }
  }

  // -------------------------------------------------------------------- runs

  /** The number of the last operation of a run that accesses the block, or -1. */
  ghost function LastAccess(c: Cache, ops: seq<Op>, i: nat): (k: int)
    requires Runnable(c, ops)
    ensures -1 <= k < |ops|
    decreases |ops|
  {
    if ops == [] then -1
    else
      var n := |ops| - 1;
      StateAt(c, ops, n);
      InvNumbered(Run(c, ops[..n]));
      if Accesses(Run(c, ops[..n]), ops[n], i) then n else LastAccess(c, ops[..n], i)
  }

  /** Where the date of a live block comes from. */
  ghost predicate DateOf(c: Cache, ops: seq<Op>, i: nat)
    requires Runnable(c, ops)
  {
    var k, d := LastAccess(c, ops, i), Run(c, ops);
    i < |d.blocks| && d.blocks[i].tokens > 0 ==>
      if k == -1 then i < |c.blocks| && c.blocks[i].tokens > 0 && d.blocks[i].last == c.blocks[i].last
      else
        && Runnable(c, ops[..k]) && Runnable(c, ops[..k + 1])
        && ReadIn(c.read, Run(c, ops[..k]).tick, Run(c, ops[..k + 1]).tick, d.blocks[i].last)
  }

  lemma {:induction false} RunTicks(c: Cache, ops: seq<Op>)
    requires Runnable(c, ops) && c.policy.LRU?
    ensures Run(c, ops).read == c.read && c.tick <= Run(c, ops).tick
    decreases |ops|
  {
    hide Inv, Apply, Callable;
    if ops != [] {
      var n := |ops| - 1;
      RunTicks(c, ops[..n]);
      RunKeepsKind(c, ops[..n]);
      var s, d := LastStep(c, ops);
      StepDates(s, ops[n], 0);
    }
  }

  /** After any run a live block carries a reading taken in the last operation that accessed it. */
  lemma {:induction false} RunDates(c: Cache, ops: seq<Op>, i: nat)
    requires Runnable(c, ops) && c.policy.LRU?
    ensures DateOf(c, ops, i)
    decreases |ops|
  {
    hide Inv, Apply, Callable, ReadIn, Accesses;
    if ops != [] {
      var n := |ops| - 1;
      RunDates(c, ops[..n], i);
      RunTicks(c, ops[..n]);
      RunKeepsKind(c, ops[..n]);
      var s, d := LastStep(c, ops);
      StepDates(s, ops[n], i);
      assert ops[..n + 1] == ops;
      if !Accesses(s, ops[n], i) {
        var k := LastAccess(c, ops[..n], i);
        if k != -1 {
          assert ops[..n][..k] == ops[..k] && ops[..n][..k + 1] == ops[..k + 1];
        }
      }
    }
  }

  /** The dates a run starts with lie in the past. */
  ghost predicate PastDates(c: Cache) {
    forall i :: 0 <= i < |c.blocks| && c.blocks[i].tokens > 0 ==> ReadIn(c.read, 0, c.tick, c.blocks[i].last)
  }

  lemma {:induction false} TicksGrow(c: Cache, ops: seq<Op>, k: nat)
    requires Runnable(c, ops) && c.policy.LRU? && k <= |ops|
    ensures Runnable(c, ops[..k]) && c.tick <= Run(c, ops[..k]).tick <= Run(c, ops).tick
    decreases |ops|
  {
    hide Inv, Apply, Callable;
    if k == |ops| {
      assert ops[..k] == ops;
      RunTicks(c, ops);
    } else {
      var n := |ops| - 1;
      var s, d := LastStep(c, ops);
      TicksGrow(c, ops[..n], k);
      assert ops[..n][..k] == ops[..k];
      RunKeepsKind(c, ops[..n]);
      StepDates(s, ops[n], 0);
    }
  }

  lemma LaterAccessLaterDate(c: Cache, ops: seq<Op>, v: nat, w: nat)
    requires Runnable(c, ops) && c.policy.LRU? && Increasing(c.read) && PastDates(c)
    requires v < |Run(c, ops).blocks| && Run(c, ops).blocks[v].tokens > 0
    requires w < |Run(c, ops).blocks| && Run(c, ops).blocks[w].tokens > 0
    requires LastAccess(c, ops, w) < LastAccess(c, ops, v)
    ensures Run(c, ops).blocks[w].last < Run(c, ops).blocks[v].last
  {
    hide Inv, ReadIn, Increasing, LastAccess, Run, Runnable;
    var d := Run(c, ops);
    var k, m := LastAccess(c, ops, v), LastAccess(c, ops, w);
    RunDates(c, ops, v);
    RunDates(c, ops, w);
    TicksGrow(c, ops, k);
    var lo, hi := Run(c, ops[..k]).tick, Run(c, ops[..k + 1]).tick;
    if m == -1 {
      EarlierReads(c.read, 0, c.tick, d.blocks[w].last, lo, hi, d.blocks[v].last);
    } else {
      assert ops[..k][..m + 1] == ops[..m + 1];
      TicksGrow(c, ops[..k], m + 1);
      EarlierReads(c.read, Run(c, ops[..m]).tick, Run(c, ops[..m + 1]).tick, d.blocks[w].last,
                   lo, hi, d.blocks[v].last);
    }
  }

  /** On a clock that moves on with every reading: after any run, the last access of a block that
      LRU gives up comes no later in the run than that of any evictable block it keeps. */
  lemma LRUEvictsLeastRecent(c: Cache, ops: seq<Op>, node: string, needed: nat) returns (gone: set<nat>)
    requires Runnable(c, ops) && Dated(c) && c.policy.LRU? && c.Serves(node)
    requires Increasing(c.read) && PastDates(c)
    ensures var s := Run(c, ops);
            && Evicted(s, MaybeEvict(s, node, needed), node, gone)
            && |gone| == ToEvict(s, node, needed)
            && (forall v, w :: v in gone && w in Ids(s.blocks, node, Candidate) - gone ==>
                  LastAccess(c, ops, v) <= LastAccess(c, ops, w))
  {
    hide Inv, Callable, Evicted, MaybeEvict, Dated, LastAccess, Increasing, PastDates, Run, Runnable, ToEvict;
    var s := Run(c, ops);
    gone := LRUEvictsOldest(c, ops, node, needed);
    InvNumbered(s);
    EvictedOnlyCandidates(s, MaybeEvict(s, node, needed), node, gone);
    forall v, w | v in gone && w in Ids(s.blocks, node, Candidate) - gone
      ensures LastAccess(c, ops, v) <= LastAccess(c, ops, w)
    {
      assert v in Ids(s.blocks, node, Candidate);
      if LastAccess(c, ops, w) < LastAccess(c, ops, v) {
        LaterAccessLaterDate(c, ops, v, w);
      }
    }
  }
}
