/** The objects of the KV-aware scheduler: the admission controller with its queue and
    counters, the placement loop, and the scheduler that updates nodes, cache manager and
    ledger in place. */
module KVAwareSchedulers {
  import opened Models
  import opened KVCache
  import opened KVCacheProofs
  import opened KVCacheManagers
  import opened Placement
  import opened Admission
  import opened KVAware
  import KVAwareRuns

  class AdmissionController {
    const nodes: seq<GPUNode>
    const manager: KVCacheManager
    const maxQueue: nat
    const memReject: real
    const memQueue: real
    const computeReject: real
    const useModel: bool
    var queue: seq<Request>
    var totalAccepted: nat
    var totalQueued: nat
    var totalRejected: nat

    function View(): Gate
      reads this
    {
      Gate(maxQueue, memReject, memQueue, computeReject, useModel, queue, totalAccepted, totalQueued, totalRejected)
    }

    constructor (nodes: seq<GPUNode>, manager: KVCacheManager, useModel: bool)
      ensures this.nodes == nodes && this.manager == manager
      ensures View() == Gate(512, 0.95, 0.85, 0.95, useModel, [], 0, 0, 0)
    {
      this.nodes, this.manager, this.useModel := nodes, manager, useModel;
      maxQueue, memReject, memQueue, computeReject := 512, 0.95, 0.85, 0.95;
      queue, totalAccepted, totalQueued, totalRejected := [], 0, 0, 0;
    }

    method LoadNow() returns (load: real)
      ensures load == ClusterLoad(NodeViews(nodes))
    {
      ghost var views := NodeViews(nodes);
      var total := 0.0;
      for k := 0 to |nodes|
        invariant total == TotalLoad(views[..k])
      {
        assert views[..k + 1][..k] == views[..k];
        total := total + nodes[k].View().ComputeUtilization();
      }
      assert views[..|nodes|] == views;
      load := if nodes == [] then 0.0 else total / |nodes| as real;
    }

    method PressureNow() returns (pressure: real)
      requires Sized(NodeViews(nodes))
      ensures pressure == ClusterPressure(NodeViews(nodes))
    {
      ghost var views := NodeViews(nodes);
      var total := 0.0;
      for k := 0 to |nodes|
        invariant total == TotalPressure(views[..k])
      {
        assert views[..k + 1][..k] == views[..k];
        total := total + nodes[k].View().MemoryPressure();
      }
      assert views[..|nodes|] == views;
      pressure := if nodes == [] then 0.0 else total / |nodes| as real;
    }

    /** `any(free_blocks(nid) >= blocks_needed for nid in nodes)` */
    method HeadroomNow(blocks: nat) returns (found: bool)
      requires manager.Wired() && Known(NodeViews(nodes), manager.view)
      ensures found <==> HasHeadroom(NodeViews(nodes), manager.view, blocks)
    {
      ghost var views := NodeViews(nodes);
      found := false;
      for k := 0 to |nodes|
        invariant found <==> exists j :: 0 <= j < k && manager.view.FreeBlocks(views[j].id) >= blocks
      {
        assert views[k].id == nodes[k].id;
        var s := manager.Counters(nodes[k].id);
        found := found || s.total - s.used >= blocks;
      }
    }

    method Enqueue(r: Request)
      modifies this
      ensures View() == old(View()).Enqueue(r)
    {
      if |queue| >= maxQueue {
        totalRejected := totalRejected + 1;
        return;
      }
      queue := queue + [r];
      totalQueued := totalQueued + 1;
    }

    method Decide(r: Request, d: Draw) returns (decision: Decision)
      requires manager.Wired() && Sized(NodeViews(nodes)) && Known(NodeViews(nodes), manager.view)
      modifies this
      ensures (View(), decision) == old(View()).Decide(NodeViews(nodes), manager.view, r, d)
    {
      hide KVCacheManager.Wired, HasHeadroom, ClusterLoad, ClusterPressure, Sized, Known, Request.KvBlocksNeeded;
      var load := LoadNow();
      var pressure := PressureNow();
      var veto := ShouldRejectAtLoad(r, load, pressure, d.shed);
      if veto.Some? {
        totalRejected := totalRejected + 1;
        return Reject(veto.value);
      }
      if pressure >= memReject {
        totalRejected := totalRejected + 1;
        return Reject(ClusterMemory);
      }
      if useModel && d.risk > 0.85 {
        if r.sla.Batch? {
          Enqueue(r);
          return Queue(SpillRisk);
        }
        totalRejected := totalRejected + 1;
        return Reject(SpillRisk);
      }
      if pressure >= memQueue {
        if r.sla.Batch? {
          Enqueue(r);
          return Queue(MemoryPressure);
        }
        if load >= computeReject {
          totalRejected := totalRejected + 1;
          return Reject(ComputeSaturated);
        }
      }
      var hasNode := HeadroomNow(r.KvBlocksNeeded());
      if !hasNode {
        if r.sla.Batch? {
          Enqueue(r);
          return Queue(NoKvHeadroom);
        }
        totalRejected := totalRejected + 1;
        return Reject(NoKvHeadroom);
      }
      totalAccepted := totalAccepted + 1;
      return Accept;
    }

    /** The loop splits the queue into a released prefix and the remaining suffix. */
    method PopQueued(n: nat) returns (released: seq<Request>)
      requires Sized(NodeViews(nodes))
      modifies this
      ensures (View(), released) == old(View()).PopQueued(NodeViews(nodes), n)
    {
      ghost var start := View();
      ghost var k := start.Released(NodeViews(nodes), n);
      var remaining: seq<Request> := [];
      released := [];
      for i := 0 to |queue|
        invariant k <= |start.queue| && View() == start.(accepted := start.accepted + Min(i, k))
        invariant released == start.queue[..Min(i, k)] && remaining == start.queue[Min(i, k)..i]
      {
        var pressure := PressureNow();
        if |released| < n && pressure < memQueue {
          released := released + [queue[i]];
          totalAccepted := totalAccepted + 1;
        } else {
          remaining := remaining + [queue[i]];
        }
      }
      assert start.queue[..k] == released && start.queue[k..] == remaining;
      queue := remaining;
    }
  }

  class KVAwareSLAScheduler {
    const nodes: seq<GPUNode>
    const manager: KVCacheManager
    const admission: AdmissionController
    const preemption: bool
    var inflight: seq<Entry>
    var scheduled: nat
    var preempted: nat

    ghost function View(): Scheduler
      reads this, nodes, manager, admission
    {
      Scheduler(NodeViews(nodes), manager.view, admission.View(), inflight, preemption, scheduled, preempted)
    }

    ghost predicate Wired()
      reads manager, manager.pool, manager.policy, manager.clock
    {
      && manager.Wired() && DistinctNodes(nodes)
      && admission.nodes == nodes && admission.manager == manager
    }

    constructor (nodes: seq<GPUNode>, manager: KVCacheManager, useModel: bool, preemption: bool)
      requires manager.Wired() && DistinctNodes(nodes)
      ensures Wired() && this.nodes == nodes && this.manager == manager && fresh(admission)
      ensures View() == Scheduler(NodeViews(nodes), manager.view, Gate(512, 0.95, 0.85, 0.95, useModel, [], 0, 0, 0),
                                  [], preemption, 0, 0)
    {
      this.nodes, this.manager, this.preemption := nodes, manager, preemption;
      this.admission := new AdmissionController(nodes, manager, useModel);
      inflight, scheduled, preempted := [], 0, 0;
    }

    /** PlacementEngine._score_node on one node: nothing if the request does not fit. */
    method ScoreNow(k: nat, r: Request, ttft: nat -> real) returns (score: Option<real>)
      requires manager.Wired() && Sized(NodeViews(nodes)) && Known(NodeViews(nodes), manager.view) && k < |nodes|
      ensures PlacementKeys(NodeViews(nodes), r, Hints(NodeViews(nodes), manager.view, ttft))[k]
              == if score.Some? then Some(Key(score.value, 0.0)) else None
    {
      hide KVCacheManager.Wired, ScoreNode, Node.Fits, HitRate;
      var n := nodes[k].View();
      assert n == NodeViews(nodes)[k];
      if !n.Fits(r) {
        return None;
      }
      var s := manager.Counters(n.id);
      score := Some(ScoreNode(n, r, Hint(HitRate(s), ttft(k))));
    }

    /** PlacementEngine.place: score every node that fits and keep the first of highest score. */
    method PlaceNow(r: Request, ttft: nat -> real) returns (choice: Option<nat>)
      requires manager.Wired() && Sized(NodeViews(nodes)) && Known(NodeViews(nodes), manager.view)
      ensures choice == Place(NodeViews(nodes), r, Hints(NodeViews(nodes), manager.view, ttft))
    {
      hide KVCacheManager.Wired, Hints, PlacementKeys;
      ghost var keys := PlacementKeys(NodeViews(nodes), r, Hints(NodeViews(nodes), manager.view, ttft));
      choice := None;
      var best := 0.0;
      for k := 0 to |nodes|
        invariant keys == PlacementKeys(NodeViews(nodes), r, Hints(NodeViews(nodes), manager.view, ttft))
        invariant choice == Best(keys[..k])
        invariant choice.Some? ==> keys[choice.value] == Some(Key(best, 0.0))
      {
        assert keys[..k + 1][..k] == keys[..k];
        var score := ScoreNow(k, r, ttft);
        assert keys[k] == if score.Some? then Some(Key(score.value, 0.0)) else None;
        if score.Some? && (choice.None? || score.value > best) {
          choice, best := Some(k), score.value;
        }
      }
      assert keys[..|nodes|] == keys;
    }

    /** max(self._nodes, key=memory_pressure) */
    method MostLoadedNow() returns (k: nat)
      requires nodes != [] && Sized(NodeViews(nodes))
      ensures k == MostLoaded(NodeViews(nodes))
    {
      ghost var keys := PressureKeys(NodeViews(nodes));
      k := 0;
      assert keys[..1][..0] == [];
      for i := 1 to |nodes|
        invariant k < |nodes| && Some(k) == Best(keys[..i])
      {
        assert keys[..i + 1][..i] == keys[..i];
        if nodes[i].View().MemoryPressure() > nodes[k].View().MemoryPressure() {
          k := i;
        }
      }
      assert keys[..|nodes|] == keys;
    }

    method TryPreemptFor(r: Request) returns (enough: bool)
      requires Wired() && Ready(View()) && (inflight != [] ==> nodes != [])
      modifies this`preempted
      modifies manager`prefixCache, manager`stats, manager`view, manager.policy`state, manager.clock`tick, manager.pool
      ensures Wired() && (View(), enough) == TryPreempt(old(View()), r)
    {
      hide Inv, KVCacheManager.Wired, ToEvict, MaybeEvict, MostLoaded, Request.KvBlocksNeeded;
      if !preemption || !r.sla.Realtime? || inflight == [] {
        return false;
      }
      var k := MostLoadedNow();
      assert NodeViews(nodes)[k].id == nodes[k].id;
      var evicted := manager.ForceEvict(nodes[k].id, r.KvBlocksNeeded());
      if evicted > 0 {
        preempted := preempted + 1;
      }
      enough := evicted >= r.KvBlocksNeeded();
    }

    /** Step 3 of schedule: the cache blocks. */
    method AllocateOn(k: nat, r: Request)
      requires Wired() && Ready(View()) && k < |nodes|
      modifies manager`prefixCache, manager`stats, manager`view, manager.policy`state, manager.clock`tick, manager.pool
      ensures Wired() && Allocatable(old(View()).cache, nodes[k].id) && Inv(View().cache)
      ensures View() == old(View()).(cache := KVCache.Allocate(old(View()).cache, nodes[k].id, r).cache)
    {
      hide Inv, KVCacheManager.Wired, KVCache.Allocate, Sized;
      assert NodeViews(nodes)[k].id == nodes[k].id;
      var blocks, hit := manager.Allocate(nodes[k].id, r);
    }

    /** Step 4 of schedule: the node's counters and the ledger. */
    method Enter(k: nat, r: Request)
      requires Wired() && k < |nodes|
      modifies this`inflight, this`scheduled, nodes[k]
      ensures Wired()
      ensures var s := old(View());
              View() == s.(nodes := s.nodes[k := s.nodes[k].Allocate(r.KvBlocksNeeded(), r.EstimatedMemoryGb())],
                           inflight := Put(s.inflight, EntryFor(r, s.nodes[k].id)), scheduled := s.scheduled + 1)
    {
      hide KVCacheManager.Wired, Put, EntryFor, Request.KvBlocksNeeded;
      ghost var views := NodeViews(nodes);
      assert views[k] == nodes[k].View();
      nodes[k].Allocate(r.KvBlocksNeeded(), r.EstimatedMemoryGb());
      assert NodeViews(nodes) == views[k := views[k].Allocate(r.KvBlocksNeeded(), r.EstimatedMemoryGb())];
      inflight := Put(inflight, EntryFor(r, nodes[k].id));
      scheduled := scheduled + 1;
    }

    /** Steps 3 and 4 of schedule. */
    method CommitTo(r: Request, k: nat)
      requires Wired() && Ready(View()) && k < |nodes|
      modifies this`inflight, this`scheduled, nodes
      modifies manager`prefixCache, manager`stats, manager`view, manager.policy`state, manager.clock`tick, manager.pool
      ensures Wired() && View() == Commit(old(View()), r, k)
    {
      hide Inv, KVCacheManager.Wired, KVCache.Allocate, Put, EntryFor, Request.KvBlocksNeeded, Sized, Known;
      assert NodeViews(nodes)[k].id == nodes[k].id;
      AllocateOn(k, r);
      Enter(k, r);
    }

    method Schedule(r: Request, inputs: Inputs) returns (answer: Answer)
      requires Wired() && Ready(View()) && (inflight != [] ==> nodes != [])
      modifies this`inflight, this`scheduled, this`preempted, admission, nodes
      modifies manager`prefixCache, manager`stats, manager`view, manager.policy`state, manager.clock`tick, manager.pool
      ensures Wired() && (View(), answer) == KVAware.Schedule(old(View()), r, inputs)
    {
      hide Inv, KVCacheManager.Wired, Commit, TryPreempt, Gate.Decide, Place, Hints;
      ghost var s := View();
      var decision := admission.Decide(r, inputs.draw);
      match decision {
        case Reject(reason) =>
          return Refused(reason);
        case Queue(reason) =>
          return Deferred(reason);
        case Accept =>
      }
      ghost var t := View();
      var placement := PlaceNow(r, inputs.ttft);
      if placement.None? {
        PreemptKeepsReady(t, r);
        var enough := TryPreemptFor(r);
        ghost var u := View();
        SecondPlaceFails(t, r, Hints(t.nodes, t.cache, inputs.ttft), Hints(u.nodes, u.cache, inputs.ttft));
        if enough {
          placement := PlaceNow(r, inputs.ttft);
        }
      }
      if placement.None? {
        return NoPlacement;
      }
      PlaceFindsBest(t.nodes, r, Hints(t.nodes, t.cache, inputs.ttft));
      CommitTo(r, placement.value);
      return Placed(placement.value);
    }

    /** `self._inflight.pop(request_id)` and the release on the node. */
    method RetireFrom(r: Request, node: GPUNode, ghost k: nat) returns (found: bool)
      requires Wired() && k < |nodes| && nodes[k] == node
      modifies this`inflight, node
      ensures Wired() && View() == Retire(old(View()), r, k)
    {
      hide KVCacheManager.Wired;
      ghost var views := NodeViews(nodes);
      FindSpec(inflight, r.id);
      var at := Find(inflight, r.id);
      found := at.Some?;
      if found {
        var i := at.value;
        var e := inflight[i];
        inflight := inflight[..i] + inflight[i + 1..];
        assert views[k] == node.View();
        node.Release(e.blocks, e.memory);
        assert NodeViews(nodes) == views[k := views[k].Release(e.blocks, e.memory)];
      }
    }

    /** The manager is asked to free an empty list, which changes nothing, so only the node is
        released before the queue is drained. */
    method OnComplete(r: Request, node: GPUNode, inputs: nat -> Inputs, ghost k: nat)
      requires Wired() && Able(View()) && k < |nodes| && nodes[k] == node
      modifies this`inflight, this`scheduled, this`preempted, admission, nodes
      modifies manager`prefixCache, manager`stats, manager`view, manager.policy`state, manager.clock`tick, manager.pool
      ensures Wired() && View() == KVAware.OnComplete(old(View()), r, k, inputs)
      ensures old(KVAwareRuns.Good(View(), [])) && old(KVAwareRuns.AssignedTo(View(), r, k)) ==>
                KVAwareRuns.Good(View(), [])
    {
      hide *;
      ghost var s := View();
      ViewSize();
      CompleteParts(View(), r, k, inputs);
      var queued := ReleaseAndPop(r, node, k);
      DrainQueued(queued, inputs);
      if KVAwareRuns.Good(s, []) && KVAwareRuns.AssignedTo(s, r, k) {
        KVAwareRuns.CompletionDropsNobody(s, r, k, inputs);
      }
    }

    lemma ViewSize()
      ensures |View().nodes| == |nodes| && View().inflight == inflight
    {
    }

    method ReleaseAndPop(r: Request, node: GPUNode, ghost k: nat) returns (queued: seq<Request>)
      requires Wired() && Able(View()) && k < |nodes| && nodes[k] == node
      modifies this`inflight, admission, node
      modifies manager`stats, manager`view, manager.policy`state, manager.clock`tick, manager.pool
      ensures Wired() && Able(View()) && k < |old(View()).nodes| && Sized(Retire(old(View()), r, k).nodes)
      ensures (View(), queued) == KVAware.Popped(Retire(old(View()), r, k))
    {
      hide *;
      ViewSize();
      CompletionParts(View(), r, k);
      Release(r, node, k);
      queued := PopWaiting();
    }

    /** `self._admission.pop_queued()` */
    method PopWaiting() returns (queued: seq<Request>)
      requires Wired() && Sized(View().nodes)
      modifies admission
      ensures Wired() && View() == old(View()).(gate := old(View()).gate.PopQueued(old(View()).nodes, DRAIN).0)
      ensures queued == old(View()).gate.PopQueued(old(View()).nodes, DRAIN).1
    {
      hide KVCacheManager.Wired, Gate.PopQueued, Sized;
      queued := admission.PopQueued(DRAIN);
    }

    /** The part of on_complete before the queue is drained. */
    method Release(r: Request, node: GPUNode, ghost k: nat)
      requires Wired() && Ready(View()) && k < |nodes| && nodes[k] == node
      modifies this`inflight, node
      modifies manager`stats, manager`view, manager.policy`state, manager.clock`tick, manager.pool
      ensures Wired() && View() == Retire(old(View()), r, k)
    {
      hide Inv, KVCacheManager.Wired, Retire;
      assert NodeViews(nodes)[k].id == node.id;
      var found := RetireFrom(r, node, k);
      if found {
        manager.Free(node.id, [], true);
      }
    }

    method DrainQueued(queued: seq<Request>, inputs: nat -> Inputs)
      requires Wired() && Able(View())
      modifies this`inflight, this`scheduled, this`preempted, admission, nodes
      modifies manager`prefixCache, manager`stats, manager`view, manager.policy`state, manager.clock`tick, manager.pool
      ensures Wired() && Able(View()) && View() == KVAware.Drain(old(View()), queued, inputs, 0)
    {
      hide *;
      ghost var s := View();
      assert queued[0..] == queued;
      for i := 0 to |queued|
        invariant Wired() && Able(View())
        invariant KVAware.Drain(View(), queued[i..], inputs, i) == KVAware.Drain(s, queued, inputs, 0)
      {
        assert queued[i..][0] == queued[i] && queued[i..][1..] == queued[i + 1..];
        DrainNext(View(), queued[i..], inputs, i);
        ViewSize();
        var answer := Schedule(queued[i], inputs(i));
      }
      DrainNone(View(), inputs, |queued|);
      assert queued[|queued|..] == [];
    }

    method OnFail(r: Request, node: Option<GPUNode>, ghost k: nat)
      requires Wired() && (node.Some? ==> k < |nodes| && nodes[k] == node.value)
      modifies this`inflight, nodes
      ensures Wired()
      ensures View() == KVAware.OnFail(old(View()), r, if node.Some? then Some(k) else None)
    {
      hide KVCacheManager.Wired;
      if node.Some? {
        var found := RetireFrom(r, node.value, k);
      } else {
        FindSpec(inflight, r.id);
        var at := Find(inflight, r.id);
        if at.Some? {
          inflight := inflight[..at.value] + inflight[at.value + 1..];
        }
      }
    }
  }

  lemma DrainNone(s: Scheduler, inputs: nat -> Inputs, j: nat)
    requires Able(s)
    ensures KVAware.Drain(s, [], inputs, j) == s
  {
  }

  lemma DrainNext(s: Scheduler, popped: seq<Request>, inputs: nat -> Inputs, j: nat)
    requires Able(s) && popped != []
    ensures Ready(s) && (s.inflight != [] ==> s.nodes != [])
    ensures var t := KVAware.Schedule(s, popped[0], inputs(j)).0;
            Able(t) && KVAware.Drain(s, popped, inputs, j) == KVAware.Drain(t, popped[1..], inputs, j + 1)
  {
    ScheduleKeepsAble(s, popped[0], inputs(j));
  }

  lemma CompleteParts(s: Scheduler, r: Request, k: nat, inputs: nat -> Inputs)
    requires Able(s) && k < |s.nodes|
    ensures Sized(Retire(s, r, k).nodes)
    ensures var (p, out) := KVAware.Popped(Retire(s, r, k));
            Able(p) && KVAware.OnComplete(s, r, k, inputs) == KVAware.Drain(p, out, inputs, 0)
  {
    CompletionKeepsAble(s, r, k);
  }

  /** A completion, piece by piece. */
  lemma CompletionParts(s: Scheduler, r: Request, k: nat)
    requires Able(s) && k < |s.nodes|
    ensures Ready(s)
    ensures var f := Retire(s, r, k);
            && Sized(f.nodes)
            && var (gate, out) := f.gate.PopQueued(f.nodes, DRAIN);
               KVAware.Popped(f) == (f.(gate := gate), out) && Able(f.(gate := gate))
  {
    CompletionKeepsAble(s, r, k);
  }
}
