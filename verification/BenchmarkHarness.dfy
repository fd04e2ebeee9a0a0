/** The objects of the replay: a baseline scheduler that picks a node and updates its
    counters in place, and the harness loop over scheduler, nodes and cache manager. */
module BenchmarkHarnesses {
  import opened Models
  import opened KVCache
  import opened KVCacheProofs
  import opened KVCacheManagers
  import opened NodeChoices
  import opened Placement
  import opened Harness

  /** The nodes after a scheduler accepted `r` on node `choice`, or rejected it. */
  function Placed(nodes: seq<Node>, choice: Option<nat>, r: Request): seq<Node>
    requires choice.Some? ==> choice.value < |nodes|
  {
    if choice.None? then nodes
    else nodes[choice.value := nodes[choice.value].Allocate(r.KvBlocksNeeded(), r.EstimatedMemoryGb())]
  }

  /** The nodes after node k has served `r` and released it. */
  function ServedBy(nodes: seq<Node>, k: nat, r: Request): seq<Node>
    requires k < |nodes|
  {
    var placed := nodes[k].Allocate(r.KvBlocksNeeded(), r.EstimatedMemoryGb());
    nodes[k := placed.Release(r.KvBlocksNeeded(), r.EstimatedMemoryGb())]
  }

  /** What a load-aware baseline is for, in terms of the counters of the nodes. */
  ghost predicate IsChosen(b: Baseline, nodes: seq<Node>, r: Request, k: nat)
    requires !b.RoundRobin? && Sized(nodes)
  {
    match b
    case LeastLoaded => IsLeastLoaded(nodes, r, k)
    case MemoryAware(alpha, beta) => IsMemoryAware(alpha, beta, nodes, r, k)
  }

  lemma ChosenIs(b: Baseline, nodes: seq<Node>, r: Request)
    requires !b.RoundRobin? && Sized(nodes)
    ensures var choice := Best(BaselineKeys(b, nodes, r));
            choice.Some? ==> IsChosen(b, nodes, r, choice.value)
  {
    hide IsLeastLoaded, IsMemoryAware, Best, BaselineKeys, SomeFits;
    match b
    case LeastLoaded => LeastLoadedChoice(nodes, r);
    case MemoryAware(alpha, beta) => MemoryAwareChoice(alpha, beta, nodes, r);
  }

  class BaselineScheduler {
    const nodes: seq<GPUNode>
    var state: Baseline

    constructor (nodes: seq<GPUNode>, state: Baseline)
      ensures this.nodes == nodes && this.state == state
    {
      this.nodes, this.state := nodes, state;
    }

    /** `next(self._cycle)` until a node fits, at most once round. */
    method NextFitting(r: Request) returns (choice: Option<nat>)
      requires state.RoundRobin? && state.Sane(|nodes|)
      modifies this
      ensures (state, choice) == Rotate(NodeViews(nodes), r, old(state).cursor, old(state).counter, |nodes|)
    {
      ghost var views := NodeViews(nodes);
      var tries := |nodes|;
      while tries > 0
        invariant state.RoundRobin? && state.Sane(|nodes|) && 0 <= tries <= |nodes|
        invariant Rotate(views, r, state.cursor, state.counter, tries)
                  == Rotate(views, r, old(state).cursor, old(state).counter, |nodes|)
      {
        var here := state.cursor;
        state := RoundRobin(if here + 1 == |nodes| then 0 else here + 1, state.counter + 1);
        if nodes[here].View().Fits(r) {
          return Some(here);
        }
        tries := tries - 1;
      }
      choice := None;
    }

    /** min or max over the feasible nodes. */
    method BestFeasible(r: Request) returns (choice: Option<nat>)
      requires !state.RoundRobin? && Sized(NodeViews(nodes))
      ensures choice == Best(BaselineKeys(state, NodeViews(nodes), r))
      ensures choice.Some? ==> IsChosen(state, NodeViews(nodes), r, choice.value)
    {
      ghost var keys := BaselineKeys(state, NodeViews(nodes), r);
      choice := None;
      for k := 0 to |nodes|
        invariant choice == Best(keys[..k])
      {
        assert keys[..k + 1][..k] == keys[..k];
        var n := nodes[k].View();
        if n.Fits(r) {
          var key := KeyOf(n);
          assert keys[k] == Some(key);
          if choice.None? {
            choice := Some(k);
          } else {
            var best := KeyOf(nodes[choice.value].View());
            assert keys[choice.value] == Some(best);
            if key.Above(best) {
              choice := Some(k);
            }
          }
        }
      }
      assert keys[..|nodes|] == keys;
      ChosenIs(state, NodeViews(nodes), r);
    }

    function KeyOf(n: Node): Key
      requires !state.RoundRobin? && n.totalMemory > 0.0
      reads this
    {
      if state.LeastLoaded? then LeastLoadedKey(n) else MemoryAwareKey(n, state.alpha, state.beta)
    }

    method Schedule(r: Request) returns (choice: Option<nat>)
      requires DistinctNodes(nodes) && Sized(NodeViews(nodes)) && state.Sane(|nodes|)
      modifies this, nodes
      ensures (state, choice) == Choose(old(state), old(NodeViews(nodes)), r)
      ensures choice.Some? ==> choice.value < |nodes|
      ensures NodeViews(nodes) == Placed(old(NodeViews(nodes)), choice, r)
      ensures choice.Some? <==> SomeFits(old(NodeViews(nodes)), r)
      ensures choice.Some? && !old(state).RoundRobin? ==>
                IsChosen(old(state), old(NodeViews(nodes)), r, choice.value)
    {
      BaselinesConserveWork(state, NodeViews(nodes), r);
      hide Best, Rotate, BaselineKeys, SomeFits, IsChosen;
      if state.RoundRobin? {
        choice := NextFitting(r);
      } else {
        choice := BestFeasible(r);
      }
      if choice.Some? {
        ghost var before := NodeViews(nodes);
        nodes[choice.value].Allocate(r.KvBlocksNeeded(), r.EstimatedMemoryGb());
        assert NodeViews(nodes) == Placed(before, choice, r);
      }
    }

    method OnComplete(r: Request, node: GPUNode)
      modifies node
      ensures node.View() == old(node.View()).Release(r.KvBlocksNeeded(), r.EstimatedMemoryGb())
    {
      node.Release(r.KvBlocksNeeded(), r.EstimatedMemoryGb());
    }
  }

  class BenchmarkHarness {
    const scheduler: BaselineScheduler
    const manager: KVCacheManager

    constructor (scheduler: BaselineScheduler, manager: KVCacheManager)
      ensures this.scheduler == scheduler && this.manager == manager
    {
      this.scheduler, this.manager := scheduler, manager;
    }

    ghost function View(): Cluster
      reads scheduler, scheduler.nodes, manager
    {
      Cluster(NodeViews(scheduler.nodes), manager.view, scheduler.state)
    }

    /** One round of the loop. */
    method Serve(r: Request) returns (outcome: Outcome)
      requires DistinctNodes(scheduler.nodes) && manager.Wired() && Steady(View())
      modifies scheduler, scheduler.nodes
      modifies manager`prefixCache, manager`stats, manager`view, manager.policy`state, manager.clock`tick, manager.pool
      ensures manager.Wired() && Steady(View()) && (View(), outcome) == Replay1(old(View()), r)
    {
      ghost var s := View();
      RoundKeepsSteady(s, r);
      SteadyParts(s);
      hide Inv, Steady, Replay1, Choose, KVCacheManager.Wired, Placed, Sized, SomeFits, Baseline.Sane, IsChosen;
      var choice := scheduler.Schedule(r);
      outcome := Follow(s, choice, r);
    }

    /** What happens once the scheduler has answered. */
    method Follow(ghost s: Cluster, choice: Option<nat>, r: Request) returns (outcome: Outcome)
      requires DistinctNodes(scheduler.nodes) && manager.Wired() && Steady(s) && manager.view == s.cache
      requires (scheduler.state, choice) == Choose(s.scheduler, s.nodes, r)
      requires choice.Some? ==> choice.value < |s.nodes|
      requires |s.nodes| == |scheduler.nodes| && NodeViews(scheduler.nodes) == Placed(s.nodes, choice, r)
      modifies scheduler.nodes
      modifies manager`prefixCache, manager`stats, manager`view, manager.policy`state, manager.clock`tick, manager.pool
      ensures manager.Wired() && (View(), outcome) == Replay1(s, r)
    {
      hide Inv, Steady, Replay1, Choose, KVCacheManager.Wired, KVCache.Allocate, Free, Node.Allocate, Node.Release,
           Sized, InPool;
      if choice.None? {
        RoundRejected(s, r, scheduler.state);
        outcome := Rejected;
      } else {
        RoundAccepted(s, r, scheduler.state, choice.value);
        PlacedId(s.nodes, choice, r);
        outcome := Execute(s, scheduler.nodes[choice.value], choice.value, r);
      }
    }

    /** The part of a round that an accepted request goes through on its node. */
    method Execute(ghost s: Cluster, node: GPUNode, ghost k: nat, r: Request) returns (outcome: Outcome)
      requires DistinctNodes(scheduler.nodes) && k < |scheduler.nodes| && scheduler.nodes[k] == node
      requires |s.nodes| == |scheduler.nodes| && s.nodes[k].id == NodeViews(scheduler.nodes)[k].id
      requires manager.Wired() && Inv(manager.view) && manager.view == s.cache && s.cache.Serves(s.nodes[k].id)
      requires NodeViews(scheduler.nodes) == Placed(s.nodes, Some(k), r)
      modifies node
      modifies manager`prefixCache, manager`stats, manager`view, manager.policy`state, manager.clock`tick, manager.pool
      ensures manager.Wired() && Allocatable(s.cache, s.nodes[k].id)
      ensures var id := s.nodes[k].id;
              var a := KVCache.Allocate(s.cache, id, r);
              && a.cache.Serves(id) && InPool(a.cache, a.Blocks())
              && View() == Cluster(ServedBy(s.nodes, k, r), KVCache.Free(a.cache, id, a.Blocks(), true),
                                   scheduler.state)
              && outcome == Completed(id, |a.Blocks()|, a.Hit(), |a.Blocks()| < r.KvBlocksNeeded())
    {
      hide Inv, KVCache.Allocate, KVCache.Free, KVCacheManager.Wired, Node.Allocate, Node.Release;
      ghost var nodes := NodeViews(scheduler.nodes);
      assert node.View() == nodes[k];
      AllocateServes(s.cache, node.id, r);
      var blocks, hit := manager.Allocate(node.id, r);
      manager.Free(node.id, blocks, true);
      scheduler.OnComplete(r, node);
      outcome := Completed(node.id, |blocks|, hit, |blocks| < r.KvBlocksNeeded());
      assert NodeViews(scheduler.nodes) == ServedBy(s.nodes, k, r);
    }

    method Run(trace: seq<Request>) returns (outcomes: seq<Outcome>)
      requires DistinctNodes(scheduler.nodes) && manager.Wired() && Steady(View())
      modifies scheduler, scheduler.nodes
      modifies manager`prefixCache, manager`stats, manager`view, manager.policy`state, manager.clock`tick, manager.pool
      ensures manager.Wired() && Steady(View()) && (View(), outcomes) == Replay(old(View()), trace)
      ensures |outcomes| == |trace|
      ensures old(Between(View())) ==>
                && Between(View()) && NodeViews(scheduler.nodes) == old(NodeViews(scheduler.nodes))
                && forall i :: 0 <= i < |trace| ==> Faithful(old(NodeViews(scheduler.nodes)), trace[i], outcomes[i])
    {
      hide *;
      ghost var s := View();
      ViewNodes();
      ReplayedNone(s);
      outcomes := [];
      assert trace[..0] == [];
      for i := 0 to |trace|
        invariant manager.Wired() && Steady(View()) && (View(), outcomes) == Replay(s, trace[..i])
      {
        assert trace[..i + 1][..i] == trace[..i];
        ReplayedNext(s, trace[..i + 1]);
        var o := Serve(trace[i]);
        outcomes := outcomes + [o];
      }
      assert trace[..|trace|] == trace;
      ViewNodes();
      if Between(s) {
        BaselinesNeverSpill(s, trace);
      }
    }

    lemma ViewNodes()
      ensures View().nodes == NodeViews(scheduler.nodes)
    {
    }
  }

  lemma ReplayedNone(s: Cluster)
    requires Steady(s)
    ensures Replay(s, []) == (s, [])
  {
  }

  lemma ReplayedNext(s: Cluster, trace: seq<Request>)
    requires Steady(s) && trace != []
    ensures var (t, done) := Replay(s, trace[..|trace| - 1]);
            Steady(t) && var (u, o) := Replay1(t, trace[|trace| - 1]); Replay(s, trace) == (u, done + [o])
  {
    hide Steady, Replay1;
  }

  lemma PlacedId(nodes: seq<Node>, choice: Option<nat>, r: Request)
    requires choice.Some? && choice.value < |nodes|
    ensures Placed(nodes, choice, r)[choice.value].id == nodes[choice.value].id
  {
  }

  lemma SteadyParts(s: Cluster)
    requires Steady(s)
    ensures Sized(s.nodes) && s.scheduler.Sane(|s.nodes|)
  {
  }

  lemma AllocateServes(c: Cache, node: string, r: Request)
    requires Inv(c) && c.Serves(node)
    ensures Allocatable(c, node) && KVCache.Allocate(c, node, r).cache.Serves(node)
  {
    InvIndexInPool(c);
    var gone := AllocateServed(c, node, r);
  }

  lemma RoundRejected(s: Cluster, r: Request, scheduler: Baseline)
    requires Steady(s) && (scheduler, None) == Choose(s.scheduler, s.nodes, r)
    ensures Replay1(s, r) == (s.(scheduler := scheduler), Rejected)
  {
  }

  lemma RoundAccepted(s: Cluster, r: Request, scheduler: Baseline, k: nat)
    requires Steady(s) && (scheduler, Some(k)) == Choose(s.scheduler, s.nodes, r)
    ensures k < |s.nodes| && Inv(s.cache) && s.cache.Serves(s.nodes[k].id)
    ensures var id := s.nodes[k].id;
            && Allocatable(s.cache, id)
            && var a := KVCache.Allocate(s.cache, id, r);
               && a.cache.Serves(id) && InPool(a.cache, a.Blocks())
               && Replay1(s, r) == (Cluster(ServedBy(s.nodes, k, r), KVCache.Free(a.cache, id, a.Blocks(), true),
                                            scheduler),
                                    Completed(id, |a.Blocks()|, a.Hit(), |a.Blocks()| < r.KvBlocksNeeded()))
  {
    BaselinesConserveWork(s.scheduler, s.nodes, r);
    var n := s.nodes[k];
    AllocateServes(s.cache, n.id, r);
    FreedKeepsInv(s.cache, n.id, r);
    hide Inv, KVCache.Allocate, Free, Choose, Allocatable;
  }
}
