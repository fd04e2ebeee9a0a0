/** Admission and the harness both allocate cache blocks for a placed request, on the same
    manager: what that does to the reported hits and to the pins. */
module DoubleAllocations {
  import opened Models
  import opened BlockPools
  import opened KVCache
  import opened KVCacheProofs
  import opened KVCacheRuns
  import opened Placement
  import opened Admission
  import opened KVAware
  import opened KVAwareRuns
  import opened KVAwareReplays

  // -------------------------------------------------------- one request, twice

  lemma EntryAgain(c: Cache, a: Allocation, node: string, r: Request, gone: set<nat>)
    requires Inv(c) && IndexInPool(c) && a.reused == Reused(c, node, r) && Served(c, a, node, r, gone)
    requires IndexInPool(a.cache) && HandedOut(a, node, r.prefixHash)
    requires Truthy(r.prefixHash) && a.Blocks() != []
    ensures Reused(a.cache, node, r) == a.Blocks()
  {
    hide Inv, StatsServed, SameKind, BlocksServed;
    ReturnedIsListed(c, a, node, r, gone);
    OnNodeMembers(a.cache.blocks, a.Blocks(), node);
    forall i | i in a.Blocks()
      ensures a.cache.blocks[i].node == node
    {
      assert GoodBlock(a.cache, i, node, r.prefixHash);
    }
  }

  lemma NoEntryAgain(c: Cache, a: Allocation, node: string, r: Request, gone: set<nat>)
    requires Inv(c) && IndexInPool(c) && a.reused == Reused(c, node, r) && Served(c, a, node, r, gone)
    requires IndexInPool(a.cache) && a.Blocks() == []
    ensures Reused(a.cache, node, r) == []
  {
    hide Inv, StatsServed, SameKind;
    if Truthy(r.prefixHash) && r.prefixHash.value in a.cache.index {
      var h := r.prefixHash.value;
      OnNodeMembers(a.cache.blocks, a.cache.index[h], node);
      OnNodeMembers(c.blocks, c.index[h], node);
      forall i | i in a.cache.index[h]
        ensures a.cache.blocks[i].node != node
      {
        assert i in Elems(a.cache.index[h]) && i in Elems(c.index[h]);
        assert i !in OnNode(c.blocks, c.index[h], node);
      }
    }
  }

  /** Allocating again for the same request reuses all blocks of the first time if the request
      names a prefix, and none of them otherwise. */
  lemma AgainReuses(c: Cache, node: string, r: Request)
    requires Inv(c) && Allocatable(c, node)
    ensures var a := KVCache.Allocate(c, node, r);
            && Inv(a.cache) && Allocatable(a.cache, node)
            && Reused(a.cache, node, r) == if Truthy(r.prefixHash) then a.Blocks() else []
  {
    var a := KVCache.Allocate(c, node, r);
    AllocateKeepsInv(c, node, r);
    AllocateHandsOut(c, node, r);
    AllocateKeepsServing(c, node, r);
    InvNumbered(a.cache);
    InvIndexInPool(a.cache);
    var gone := AllocateServed(c, node, r);
    hide Inv, KVCache.Allocate, Served, HandedOut, IndexInPool, Numbered;
    if Truthy(r.prefixHash) {
      if a.Blocks() == [] {
        NoEntryAgain(c, a, node, r, gone);
      } else {
        EntryAgain(c, a, node, r, gone);
      }
    }
  }

  /** A pinned block after a whole allocate and free: unpinned exactly if it was reused. */
  lemma PinAfterRound(c: Cache, node: string, r: Request, i: nat)
    requires Inv(c) && c.Serves(node) && i < |c.blocks| && c.blocks[i].pinned
    ensures Allocatable(c, node)
    ensures var d := TakenAndGiven(c, node, r);
            && i < |d.blocks|
            && d.blocks[i] == c.blocks[i].(last := d.blocks[i].last, pinned := i !in Reused(c, node, r))
  {
    hide Inv, KVCache.Allocate, Reused, ReleaseAll, Taken;
    RoundIsCallable(c, node, r);
    var gone := AllocateServed(c, node, r);
    var a := KVCache.Allocate(c, node, r);
    hide Served;
    StepKeepsPin(c, AllocateOp(node, r), i);
    ReleaseAllSpec(a.cache, node, a.Blocks());
  }

  /** The blocks of the first allocation after the second one has been freed: unpinned if the
      request names a prefix, pinned otherwise. */
  lemma FirstBlocksAfter(c: Cache, node: string, r: Request)
    requires Inv(c) && Allocatable(c, node)
    ensures var a := KVCache.Allocate(c, node, r);
            && Inv(a.cache) && a.cache.Serves(node)
            && var d := TakenAndGiven(a.cache, node, r);
               forall i :: i in a.Blocks() ==> i < |d.blocks| && (d.blocks[i].pinned <==> !Truthy(r.prefixHash))
  {
    AgainReuses(c, node, r);
    AllocateHandsOut(c, node, r);
    var a := KVCache.Allocate(c, node, r);
    hide Inv, KVCache.Allocate, Reused, TakenAndGiven;
    forall i | i in a.Blocks()
      ensures var d := TakenAndGiven(a.cache, node, r);
              i < |d.blocks| && (d.blocks[i].pinned <==> !Truthy(r.prefixHash))
    {
      assert GoodBlock(a.cache, i, node, r.prefixHash);
      PinAfterRound(a.cache, node, r, i);
    }
  }

  // ------------------------------------------------------------------ reported hits

  /** A placed request was allocated for on the cache as it stood: placing without having
      preempted is the only way to be placed. */
  lemma PlacedCache(s: Scheduler, r: Request, inputs: Inputs)
    requires Good(s, [r])
    ensures var (t, answer) := Schedule(s, r, inputs);
            answer.Placed? ==>
              && answer.node < |s.nodes| && Allocatable(s.cache, s.nodes[answer.node].id)
              && t.cache == KVCache.Allocate(s.cache, s.nodes[answer.node].id, r).cache
  {
    InvNumbered(s.cache);
    InvIndexInPool(s.cache);
    PlaceFindsBest(s.nodes, r, Hints(s.nodes, s.cache, inputs.ttft));
    hide Inv, KVCache.Allocate, Place, Balanced, Gate.Decide, AtMostOnce, LiveIds, TryPreempt;
  }

  /** The harness records a hit for a completed request exactly if it names a prefix and
      admission got at least one block for it, whether or not anyone asked for that prefix
      before: what it finds is what admission has just put there. */
  lemma AdmissionAnswersItself(s: Scheduler, r: Request, inputs: Inputs, draws: nat -> Inputs)
    requires Good(s, []) && NewIds(s, [r])
    ensures var (o, answer) := (ServeOne(s, r, inputs, draws).1, Schedule(s, r, inputs).1);
            && (o.Completed? <==> answer.Placed?)
            && (o.Completed? ==>
                  && answer.node < |s.nodes| && o.node == s.nodes[answer.node].id && Allocatable(s.cache, o.node)
                  && (o.hit <==> Truthy(r.prefixHash) && KVCache.Allocate(s.cache, o.node, r).Blocks() != [])
                  && (o.spilled <==> o.blocks < r.KvBlocksNeeded()))
  {
    GoodArrival(s, r);
    assert [r] + [] == [r];
    ScheduleAnswers(s, r, inputs);
    PlacedCache(s, r, inputs);
    var (t, answer) := Schedule(s, r, inputs);
    if answer.Placed? {
      AgainReuses(s.cache, s.nodes[answer.node].id, r);
    }
    hide Good, Schedule, OnComplete, CacheRound, Inv, Reused, NewIds;
  }

  // ------------------------------------------------------------------ lasting pins

  /** Pinned, and in nobody's prefix. */
  ghost predicate Leaked(c: Cache, i: nat) {
    i < |c.blocks| && c.blocks[i].pinned && c.blocks[i].hash == None
  }

  ghost function LeakedIds(c: Cache): set<nat> {
    set i | 0 <= i < |c.blocks| && Leaked(c, i)
  }

  /** The same pool, and every leaked block still leaked. */
  ghost predicate LeaksKept(c: Cache, d: Cache) {
    |d.blocks| == |c.blocks| && LeakedIds(c) <= LeakedIds(d)
  }

  lemma OpKeepsLeaks(c: Cache, op: Op)
    requires Inv(c) && IndexInPool(c) && Callable(c, op) && (op.AllocateOp? || op.ForceEvictOp?)
    ensures LeaksKept(c, KVCache.Apply(c, op))
  {
    match op {
      case AllocateOp(node, r) =>
        var gone := AllocateServed(c, node, r);
      case ForceEvictOp(node, n) =>
        var gone := MaybeEvictSpec(c, node, n);
    }
    hide Inv, KVCache.Apply, Served, Evicted;
    forall i | i in LeakedIds(c)
      ensures i in LeakedIds(KVCache.Apply(c, op))
    {
      StepKeepsPin(c, op, i);
    }
  }

  lemma RoundKeepsLeaks(c: Cache, node: string, r: Request)
    requires Inv(c) && c.Serves(node)
    ensures LeaksKept(c, TakenAndGiven(c, node, r))
  {
    RoundKeepsPool(c, node, r);
    hide Inv, TakenAndGiven, Reused;
    InvIndexInPool(c);
    ReusedSpec(c, node, r);
    forall i | i in LeakedIds(c)
      ensures i in LeakedIds(TakenAndGiven(c, node, r))
    {
      PinAfterRound(c, node, r, i);
    }
  }

  lemma RoundKeepsPool(c: Cache, node: string, r: Request)
    requires Inv(c) && c.Serves(node)
    ensures |TakenAndGiven(c, node, r).blocks| == |c.blocks|
  {
    hide Inv, KVCache.Allocate, ReleaseAll;
    RoundIsCallable(c, node, r);
    var gone := AllocateServed(c, node, r);
    var a := KVCache.Allocate(c, node, r);
    ReleaseAllSpec(a.cache, node, a.Blocks());
  }

  lemma ScheduleKeepsLeaks(s: Scheduler, r: Request, inputs: Inputs)
    requires Ready(s) && (s.inflight != [] ==> s.nodes != [])
    ensures LeaksKept(s.cache, Schedule(s, r, inputs).0.cache)
  {
    hide Inv, KVCache.Allocate, KVCache.MaybeEvict, Place, Gate.Decide, ToEvict, LeakedIds, SomeFits, Sized, Hints;
    InvIndexInPool(s.cache);
    InvNumbered(s.cache);
    PlaceFindsBest(s.nodes, r, Hints(s.nodes, s.cache, inputs.ttft));
    var first := Place(s.nodes, r, Hints(s.nodes, s.cache, inputs.ttft));
    if first.Some? {
      OpKeepsLeaks(s.cache, AllocateOp(s.nodes[first.value].id, r));
    } else if s.inflight != [] {
      OpKeepsLeaks(s.cache, ForceEvictOp(s.nodes[MostLoaded(s.nodes)].id, r.KvBlocksNeeded()));
    }
  }

  lemma {:induction false} DrainKeepsLeaks(s: Scheduler, popped: seq<Request>, inputs: nat -> Inputs, j: nat)
    requires Good(s, popped)
    ensures LeaksKept(s.cache, Drain(s, popped, inputs, j).cache)
    decreases |popped|
  {
    if popped != [] {
      DrainOne(s, popped, inputs, j);
      ScheduleKeepsLeaks(s, popped[0], inputs(j));
      hide Good, Schedule, LeakedIds;
      DrainKeepsLeaks(Schedule(s, popped[0], inputs(j)).0, popped[1..], inputs, j + 1);
    }
  }

  lemma CompletionKeepsLeaks(s: Scheduler, r: Request, k: nat, inputs: nat -> Inputs)
    requires Good(s, []) && AssignedTo(s, r, k)
    ensures LeaksKept(s.cache, OnComplete(s, r, k, inputs).cache)
  {
    hide Good, Drain, Retire, OnComplete, Able, LeaksKept;
    var p, out := CompletionDrains(s, r, k, inputs);
    DrainKeepsLeaks(p, out, inputs, 0);
  }

  lemma AfterPlacingKeepsLeaks(t: Scheduler, node: string, r: Request, k: nat, draws: nat -> Inputs)
    requires Good(t, []) && t.cache.Serves(node) && AssignedTo(CacheRound(t, node, r), r, k)
    ensures JustPlaced(t, node, r, k)
    ensures LeaksKept(t.cache, AfterPlacing(t, node, r, k, draws).0.cache)
  {
    CacheRoundKeeps(t, node, r);
    RoundKeepsLeaks(t.cache, node, r);
    hide TakenAndGiven, OnComplete, LeakedIds;
    CompletionKeepsLeaks(CacheRound(t, node, r), r, k, draws);
  }

  /** What admission allocated for the request if the harness then completed it. */
  ghost function Admitted(s: Scheduler, r: Request, inputs: Inputs, draws: nat -> Inputs): seq<nat>
    requires Good(s, []) && NewIds(s, [r])
  {
    AdmissionAnswersItself(s, r, inputs, draws);
    var o := ServeOne(s, r, inputs, draws).1;
    if o.Completed? then KVCache.Allocate(s.cache, o.node, r).Blocks() else []
  }

  /** One request, with or without a prefix: no leaked block comes back, and without a prefix
      every block that admission allocated for it joins the leaked ones. */
  lemma ServeLeaks(s: Scheduler, r: Request, inputs: Inputs, draws: nat -> Inputs)
    requires Good(s, []) && NewIds(s, [r])
    ensures var t := ServeOne(s, r, inputs, draws).0;
            var blocks := Admitted(s, r, inputs, draws);
            && LeaksKept(s.cache, t.cache) && NoDup(blocks)
            && (!Truthy(r.prefixHash) ==> Elems(blocks) <= LeakedIds(t.cache) - LeakedIds(s.cache))
  {
    GoodArrival(s, r);
    assert [r] + [] == [r];
    ScheduleAnswers(s, r, inputs);
    PlacedCache(s, r, inputs);
    ScheduleKeepsLeaks(s, r, inputs);
    AdmissionAnswersItself(s, r, inputs, draws);
    var (t, answer) := Schedule(s, r, inputs);
    hide Good, Schedule, KVCache.Allocate, Allocatable, NewIds, OnComplete, CacheRound, Inv, LeakedIds;
    if answer.Placed? {
      var node := s.nodes[answer.node].id;
      RoundCompletes(s, t, CacheRound(t, node, r), r, answer.node);
      AfterPlacingKeepsLeaks(t, node, r, answer.node, draws);
      AllocationLeaks(s.cache, node, r);
    }
  }

  lemma AllocationLeaks(c: Cache, node: string, r: Request)
    requires Inv(c) && Allocatable(c, node)
    ensures var a := KVCache.Allocate(c, node, r);
            && NoDup(a.Blocks())
            && (!Truthy(r.prefixHash) ==> Elems(a.Blocks()) <= LeakedIds(a.cache) - LeakedIds(c))
  {
    hide Inv, KVCache.Allocate, Served, Taken, Remaining;
    AllocateHandsOut(c, node, r);
    var a := KVCache.Allocate(c, node, r);
    var gone := AllocateServed(c, node, r);
    forall i | i in Elems(a.Blocks()) && !Truthy(r.prefixHash)
      ensures i in LeakedIds(a.cache) && i !in LeakedIds(c)
    {
      assert GoodBlock(a.cache, i, node, r.prefixHash);
      if i in LeakedIds(c) {
        StepKeepsPin(c, AllocateOp(node, r), i);
      }
    }
  }

  // ---------------------------------------------------------------- whole replays

  /** How many blocks admission allocated, over a trace, for completed requests without a
      prefix. */
  ghost function Unreturned(s: Scheduler, trace: seq<Request>, inputs: nat -> Inputs, draws: nat -> nat -> Inputs,
                            j: nat): nat
    requires Good(s, []) && NewIds(s, trace)
    decreases |trace|
  {
    if trace == [] then 0
    else
      NextRound(s, trace, inputs(j), draws(j));
      (if Truthy(trace[0].prefixHash) then 0 else |Admitted(s, trace[0], inputs(j), draws(j))|) +
      Unreturned(ServeOne(s, trace[0], inputs(j), draws(j)).0, trace[1..], inputs, draws, j + 1)
  }

  /** Over any trace, with and without prefixes mixed, the leaked blocks grow by all of them. */
  lemma {:induction false} LeaksAddUp(s: Scheduler, trace: seq<Request>, inputs: nat -> Inputs,
                                      draws: nat -> nat -> Inputs, j: nat)
    requires Good(s, []) && NewIds(s, trace)
    ensures var t := Replayed(s, trace, inputs, draws, j).0;
            && LeaksKept(s.cache, t.cache)
            && |LeakedIds(t.cache)| >= |LeakedIds(s.cache)| + Unreturned(s, trace, inputs, draws, j)
    decreases |trace|
  {
    hide Good, ServeOne, NewIds, LeakedIds, Admitted, Truthy;
    if trace != [] {
      NextRound(s, trace, inputs(j), draws(j));
      ServeLeaks(s, trace[0], inputs(j), draws(j));
      var t := ServeOne(s, trace[0], inputs(j), draws(j)).0;
      LeaksAddUp(t, trace[1..], inputs, draws, j + 1);
      if Truthy(trace[0].prefixHash) {
        SubsetCount(LeakedIds(s.cache), LeakedIds(t.cache));
      } else {
        MoreLeaked(LeakedIds(s.cache), Admitted(s, trace[0], inputs(j), draws(j)), LeakedIds(t.cache));
      }
    }
  }

  lemma MoreLeaked(before: set<nat>, blocks: seq<nat>, after: set<nat>)
    requires NoDup(blocks) && Elems(blocks) <= after - before && before <= after
    ensures |after| >= |before| + |blocks|
  {
    NoDupCount(blocks);
    SubsetCount(before + Elems(blocks), after);
  }

  /** The harness gives back only its own blocks, so those that admission allocated for the
      requests without a prefix that it completed stay pinned for good: all together they are
      never more than the pool, however long the trace and whatever else is in it. */
  lemma PoolRunsDry(s: Scheduler, trace: seq<Request>, inputs: nat -> Inputs, draws: nat -> nat -> Inputs)
    requires Good(s, []) && NewIds(s, trace)
    ensures Unreturned(s, trace, inputs, draws, 0) <= |s.cache.blocks| - |LeakedIds(s.cache)|
  {
    LeaksAddUp(s, trace, inputs, draws, 0);
    var t := Replayed(s, trace, inputs, draws, 0).0;
    hide Good;
    AtMostPool(LeakedIds(t.cache), |t.cache.blocks|);
  }

  lemma {:induction false} AtMostPool(ids: set<nat>, n: nat)
    requires forall i :: i in ids ==> i < n
    ensures |ids| <= n
  {
    if n > 0 {
      AtMostPool(ids - {n - 1}, n - 1);
    } else {
      assert ids == {};
    }
  }
}
