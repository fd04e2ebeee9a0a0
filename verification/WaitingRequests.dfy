/** What becomes of the requests that wait, in a replay that begins with nothing in flight: the
    ledger is empty and every node idle between requests, and who has to wait waits for good.
    The spill-risk model is any function of the request and the nodes. */
module WaitingRequests {
  import opened Models
  import opened EvictionPolicies
  import opened KVCache
  import opened KVCacheProofs
  import opened KVCacheRuns
  import opened Placement
  import opened Harness
  import opened Admission
  import opened KVAware
  import opened KVAwareRuns
  import opened KVAwareReplays
  import opened StrandedRequests
  import opened DoubleAllocations

  // ------------------------------------------------------ the spill-risk model

  /** The risk drawn for a decision is what the model says of the request and the nodes. */
  ghost predicate Predicted(model: (Request, seq<Node>) -> real, s: Scheduler, r: Request, d: Draw) {
    s.gate.useModel ==> d.risk == model(r, s.nodes)
  }

  ghost predicate DrainPredicted(model: (Request, seq<Node>) -> real, s: Scheduler, popped: seq<Request>,
                                 inputs: nat -> Inputs, j: nat)
    requires Able(s)
    decreases |popped|
  {
    popped == [] ||
    (Predicted(model, s, popped[0], inputs(j).draw) &&
     (ScheduleKeepsAble(s, popped[0], inputs(j));
      DrainPredicted(model, Schedule(s, popped[0], inputs(j)).0, popped[1..], inputs, j + 1)))
  }

  ghost predicate CompletionPredicted(model: (Request, seq<Node>) -> real, u: Scheduler, r: Request, k: nat,
                                      draws: nat -> Inputs)
    requires Able(u) && k < |u.nodes|
  {
    CompletionKeepsAble(u, r, k);
    DrainPredicted(model, Popped(Retire(u, r, k)).0, Popped(Retire(u, r, k)).1, draws, 0)
  }

  /** At every decision of one request of the harness. */
  ghost predicate RoundPredicted(model: (Request, seq<Node>) -> real, s: Scheduler, r: Request, inputs: Inputs,
                                 draws: nat -> Inputs)
    requires Good(s, []) && NewIds(s, [r])
  {
    GoodArrival(s, r);
    ScheduleAnswers(s, r, inputs);
    var (t, answer) := Schedule(s, r, inputs);
    && Predicted(model, s, r, inputs.draw)
    && (answer.Placed? ==>
          (CacheRoundKeeps(t, s.nodes[answer.node].id, r);
           var u := CacheRound(t, s.nodes[answer.node].id, r);
           RoundCompletes(s, t, u, r, answer.node);
           CompletionPredicted(model, u, r, answer.node, draws)))
  }

  /** At every decision of a replay. */
  ghost predicate ReplayPredicted(model: (Request, seq<Node>) -> real, s: Scheduler, trace: seq<Request>,
                                  inputs: nat -> Inputs, draws: nat -> nat -> Inputs, j: nat)
    requires Good(s, []) && NewIds(s, trace)
    decreases |trace|
  {
    trace == [] ||
    (NextRound(s, trace, inputs(j), draws(j));
     && RoundPredicted(model, s, trace[0], inputs(j), draws(j))
     && ReplayPredicted(model, ServeOne(s, trace[0], inputs(j), draws(j)).0, trace[1..], inputs, draws, j + 1))
  }

  // --------------------------------------------------------------- one decision

  /** The gate would not let the request pass: no node shows enough free cache blocks, or the
      model calls it too risky. */
  ghost predicate Stuck(model: (Request, seq<Node>) -> real, s: Scheduler, r: Request)
    requires Known(s.nodes, s.cache)
  {
    !HasHeadroom(s.nodes, s.cache, r.KvBlocksNeeded()) || (s.gate.useModel && model(r, s.nodes) > 0.85)
  }

  ghost predicate AllStuck(model: (Request, seq<Node>) -> real, s: Scheduler, rs: seq<Request>)
    requires Known(s.nodes, s.cache)
  {
    forall i :: 0 <= i < |rs| ==> Stuck(model, s, rs[i])
  }

  /** Exactly when a waiting request is placed: some node shows enough free cache blocks, the
      model does not call it too risky, and some node fits it. */
  lemma WaitingPlacedIff(s: Scheduler, r: Request, rest: seq<Request>, inputs: Inputs)
    requires Good(s, [r] + rest) && r.sla.Batch?
    ensures Schedule(s, r, inputs).1.Placed? <==>
            && HasHeadroom(s.nodes, s.cache, r.KvBlocksNeeded())
            && !(s.gate.useModel && inputs.draw.risk > 0.85) && SomeFits(s.nodes, r)
  {
    BalancedPressure(s);
    ClusterPressureBound(s.nodes);
    PlaceFindsBest(s.nodes, r, Hints(s.nodes, s.cache, inputs.ttft));
    hide Inv, Balanced, AtMostOnce, LiveIds, Place, SomeFits, HasHeadroom, Commit, TryPreempt, Known, ClusterPressure;
  }

  /** A waiting request that is stuck goes back to the tail of the queue, and nothing else
      changes. */
  lemma StuckWaitsOn(model: (Request, seq<Node>) -> real, s: Scheduler, r: Request, rest: seq<Request>, inputs: Inputs)
    requires Good(s, [r] + rest) && r.sla.Batch? && |s.gate.queue| < s.gate.maxQueue
    requires Stuck(model, s, r) && Predicted(model, s, r, inputs.draw)
    ensures Schedule(s, r, inputs).0 ==
            s.(gate := s.gate.(queue := s.gate.queue + [r], queued := s.gate.queued + 1))
  {
    BalancedPressure(s);
    ClusterPressureBound(s.nodes);
    hide Inv, Balanced, AtMostOnce, LiveIds, Place, SomeFits, HasHeadroom, Commit, TryPreempt, Known, ClusterPressure;
  }

  /** So a drain of stuck requests only turns the queue round. */
  lemma {:induction false} DrainTurnsQueue(model: (Request, seq<Node>) -> real, s: Scheduler, popped: seq<Request>,
                                           inputs: nat -> Inputs, j: nat)
    requires Good(s, popped) && AllBatch(popped) && |s.gate.queue| + |popped| <= s.gate.maxQueue
    requires AllStuck(model, s, popped)
    requires s.gate.useModel ==> Able(s) && DrainPredicted(model, s, popped, inputs, j)
    ensures Able(s) && Drain(s, popped, inputs, j) ==
            s.(gate := s.gate.(queue := s.gate.queue + popped, queued := s.gate.queued + |popped|))
    decreases |popped|
  {
    hide Good, Schedule, Stuck, AllStuck, Able, AllBatch, Drain, DrainPredicted, Predicted, Known;
    GoodIsAble(s, popped);
    if popped == [] {
      DrainNobody(s, inputs, j);
      assert s.gate.queue + [] == s.gate.queue;
    } else {
      var r, rest := popped[0], popped[1..];
      assert popped == [r] + rest;
      DrainOne(s, popped, inputs, j);
      HeadAndRest(model, s, popped, inputs, j);
      StuckWaitsOn(model, s, r, rest, inputs(j));
      var t := Schedule(s, r, inputs(j)).0;
      RestStuck(model, s, popped, t.gate);
      DrainTurnsQueue(model, t, rest, inputs, j + 1);
      assert (s.gate.queue + [r]) + rest == s.gate.queue + popped;
    }
  }

  lemma DrainNobody(s: Scheduler, inputs: nat -> Inputs, j: nat)
    requires Able(s)
    ensures Drain(s, [], inputs, j) == s
  {
  }

  lemma HeadAndRest(model: (Request, seq<Node>) -> real, s: Scheduler, popped: seq<Request>, inputs: nat -> Inputs,
                    j: nat)
    requires Good(s, popped) && popped != [] && AllBatch(popped) && AllStuck(model, s, popped)
    requires s.gate.useModel ==> Able(s) && DrainPredicted(model, s, popped, inputs, j)
    ensures popped[0].sla.Batch? && AllBatch(popped[1..]) && Stuck(model, s, popped[0])
    ensures Predicted(model, s, popped[0], inputs(j).draw)
    ensures Able(s) && var t := Schedule(s, popped[0], inputs(j)).0;
            s.gate.useModel ==> Able(t) && DrainPredicted(model, t, popped[1..], inputs, j + 1)
  {
    GoodIsAble(s, popped);
    ScheduleKeepsAble(s, popped[0], inputs(j));
    hide Good, Schedule, Stuck, Able;
  }

  lemma RestStuck(model: (Request, seq<Node>) -> real, s: Scheduler, popped: seq<Request>, gate: Gate)
    requires Known(s.nodes, s.cache) && popped != [] && AllStuck(model, s, popped) && gate.useModel == s.gate.useModel
    ensures AllStuck(model, s.(gate := gate), popped[1..])
  {
    hide HasHeadroom, Known;
    forall i | 0 <= i < |popped| - 1
      ensures Stuck(model, s.(gate := gate), popped[1..][i])
    {
      assert popped[1..][i] == popped[i + 1] && Stuck(model, s, popped[i + 1]);
    }
  }

  // ------------------------------------------------------------------ one round

  /** Nothing in flight, and everyone who waits is stuck. */
  ghost predicate Settled(model: (Request, seq<Node>) -> real, s: Scheduler) {
    Good(s, []) && s.inflight == [] && AllStuck(model, s, s.gate.queue)
  }

  /** What a round keeps: the nodes as they were, no preemption, no headroom gained, and
      everyone who waited still waiting. */
  ghost predicate Keeps(s: Scheduler, t: Scheduler) {
    && t.nodes == s.nodes && t.preempted == s.preempted && t.gate.useModel == s.gate.useModel
    && HeadroomShrinks(s.nodes, s.cache, t.cache)
    && multiset(s.gate.queue) <= multiset(t.gate.queue)
  }

  lemma NodesIdle(s: Scheduler)
    requires Good(s, []) && s.inflight == []
    ensures AllIdle(s.nodes)
  {
    forall k | 0 <= k < |s.nodes|
      ensures s.nodes[k].Idle()
    {
      assert NodeBalanced(s.nodes[k], s.inflight);
    }
  }

  lemma StuckThrough(model: (Request, seq<Node>) -> real, s: Scheduler, t: Scheduler, rs: seq<Request>)
    requires Known(s.nodes, s.cache) && AllStuck(model, s, rs)
    requires t.nodes == s.nodes && t.gate.useModel == s.gate.useModel && HeadroomShrinks(s.nodes, s.cache, t.cache)
    ensures AllStuck(model, t, rs)
  {
    forall i | 0 <= i < |rs|
      ensures Stuck(model, t, rs[i])
    {
      assert Stuck(model, s, rs[i]);
    }
  }

  /** Only a stuck request is queued. */
  lemma QueuedIsStuck(model: (Request, seq<Node>) -> real, s: Scheduler, r: Request, inputs: Inputs)
    requires Good(s, [r]) && Predicted(model, s, r, inputs.draw)
    ensures Sized(s.nodes) && Known(s.nodes, s.cache)
    ensures var (gate, decision) := s.gate.Decide(s.nodes, s.cache, r, inputs.draw);
            && gate.useModel == s.gate.useModel && (decision.Accept? ==> gate.queue == s.gate.queue)
            && (gate.queue == s.gate.queue || (gate.queue == s.gate.queue + [r] && Stuck(model, s, r)))
  {
    BalancedPressure(s);
    ClusterPressureBound(s.nodes);
    hide Inv, Balanced, AtMostOnce, LiveIds, HasHeadroom, Known, ClusterPressure, Sized;
  }

  /** A request that is not placed leaves everything but the gate alone, and joins the queue
      only if it is stuck. */
  lemma NotPlaced(model: (Request, seq<Node>) -> real, s: Scheduler, r: Request, inputs: Inputs)
    requires Good(s, [r]) && s.inflight == [] && Predicted(model, s, r, inputs.draw)
    ensures var (t, answer) := Schedule(s, r, inputs);
            && t.gate.useModel == s.gate.useModel
            && (!answer.Placed? ==>
                  && t == s.(gate := t.gate)
                  && (t.gate.queue == s.gate.queue ||
                        (t.gate.queue == s.gate.queue + [r] && Stuck(model, s, r))))
  {
    hide Balanced, AtMostOnce, LiveIds, Inv, Gate.Ok, Gate.Decide, Place, Hints, SomeFits, Stuck, Predicted, Known,
         Sized;
    QueuedIsStuck(model, s, r, inputs);
    PlaceFindsBest(s.nodes, r, Hints(s.nodes, s.cache, inputs.ttft));
  }

  lemma NotPlacedSettles(model: (Request, seq<Node>) -> real, s: Scheduler, r: Request, inputs: Inputs)
    requires Settled(model, s) && Good(s, [r]) && Predicted(model, s, r, inputs.draw)
    ensures var (t, answer) := Schedule(s, r, inputs);
            !answer.Placed? ==> AllStuck(model, t, t.gate.queue) && t.inflight == [] && Keeps(s, t)
  {
    NotPlaced(model, s, r, inputs);
    ReadyParts(s);
    var (t, answer) := Schedule(s, r, inputs);
    hide Good, Schedule, Predicted, Known, HasHeadroom;
    if !answer.Placed? {
      NoChange(s.nodes, s.cache);
      StuckThrough(model, s, t, s.gate.queue);
      StuckAlso(model, s, t, r);
    }
  }

  lemma NoChange(nodes: seq<Node>, c: Cache)
    requires Known(nodes, c)
    ensures HeadroomShrinks(nodes, c, c)
  {
  }

  lemma StuckAlso(model: (Request, seq<Node>) -> real, s: Scheduler, t: Scheduler, r: Request)
    requires Known(s.nodes, s.cache) && t == s.(gate := t.gate) && t.gate.useModel == s.gate.useModel
    requires t.gate.queue == s.gate.queue || (t.gate.queue == s.gate.queue + [r] && Stuck(model, s, r))
    requires AllStuck(model, t, s.gate.queue)
    ensures AllStuck(model, t, t.gate.queue) && multiset(s.gate.queue) <= multiset(t.gate.queue)
  {
    hide HasHeadroom, Known;
  }

  /** The completion of a request that was placed with nothing else in flight gives the nodes
      back as they were. */
  lemma PlacedReturns(model: (Request, seq<Node>) -> real, s: Scheduler, r: Request, inputs: Inputs)
    requires Good(s, [r]) && s.inflight == [] && Predicted(model, s, r, inputs.draw)
    ensures var (t, answer) := Schedule(s, r, inputs);
            answer.Placed? ==>
              && answer.node < |s.nodes| && t.gate.queue == s.gate.queue && t.preempted == s.preempted
              && |t.nodes| == |s.nodes|
              && Retire(t, r, answer.node).nodes == s.nodes && Retire(t, r, answer.node).inflight == []
  {
    hide Good, Inv, KVCache.Allocate, Place, Hints, SomeFits, Gate.Decide, Node.Fits, Commit, Retire, AllIdle,
         Predicted,
         Stuck, Known, Sized;
    NodesIdleNow(s, r);
    QueuedIsStuck(model, s, r, inputs);
    PlaceFindsBest(s.nodes, r, Hints(s.nodes, s.cache, inputs.ttft));
    var (gate, decision) := s.gate.Decide(s.nodes, s.cache, r, inputs.draw);
    var (t, answer) := Schedule(s, r, inputs);
    if answer.Placed? {
      CommitReturns(s.(gate := gate), r, answer.node);
    }
  }

  lemma CommitReturns(s: Scheduler, r: Request, k: nat)
    requires Ready(s) && s.inflight == [] && AllIdle(s.nodes) && k < |s.nodes|
    ensures var t := Commit(s, r, k);
            && t.gate == s.gate && t.preempted == s.preempted && |t.nodes| == |s.nodes|
            && Retire(t, r, k).nodes == s.nodes && Retire(t, r, k).inflight == []
  {
    hide Inv, KVCache.Allocate, Known, Sized, Node.Idle, Node.Allocate, Node.Release, Put, Find;
    var t := Commit(s, r, k);
    OneEntry(EntryFor(r, s.nodes[k].id));
    RoundTrip(s.nodes[k], r.KvBlocksNeeded(), r.EstimatedMemoryGb());
    assert t.nodes[k := s.nodes[k]] == s.nodes;
  }

  lemma NodesIdleNow(s: Scheduler, r: Request)
    requires Good(s, [r]) && s.inflight == []
    ensures AllIdle(s.nodes) && Able(s)
  {
    forall k | 0 <= k < |s.nodes|
      ensures s.nodes[k].Idle()
    {
      assert NodeBalanced(s.nodes[k], s.inflight);
    }
  }

  lemma OneEntry(e: Entry)
    ensures Find([e], e.id) == Some(0) && [e][..0] + [e][1..] == [] && Put([], e) == [e]
  {
  }

  lemma GoodParts(s: Scheduler, popped: seq<Request>)
    requires Good(s, popped)
    ensures Inv(s.cache) && Sized(s.nodes) && Known(s.nodes, s.cache) && Ready(s)
  {
  }

  lemma RetireIgnoresCache(t: Scheduler, u: Scheduler, r: Request, k: nat)
    requires k < |t.nodes| && u == t.(cache := u.cache)
    ensures Retire(u, r, k) == Retire(t, r, k).(cache := u.cache)
  {
  }

  /** Scheduling and the cache operations of the harness give no headroom back. */
  lemma RoundTakesHeadroom(s: Scheduler, t: Scheduler, r: Request, inputs: Inputs, node: string)
    requires Good(s, [r]) && Good(t, []) && SameShape(s.nodes, t.nodes) && t.cache.Serves(node)
    requires t == Schedule(s, r, inputs).0 && t.preempted == s.preempted
    ensures HeadroomShrinks(s.nodes, s.cache, CacheRound(t, node, r).cache)
  {
    hide Good, Schedule, LegalRun, KVAwareRuns.Run, CacheEvents, CacheRound, Tame, HeadroomShrinks, Inv;
    GoodParts(s, [r]);
    GoodParts(t, []);
    assert [r] + [] == [r];
    ScheduleIsStill(s, r, [], inputs, NoOutsideEviction);
    CacheRoundKeeps(t, node, r);
    CacheEventsAreTame(t, node, r);
    RunIsStill(t, CacheEvents(t, node, r), NoOutsideEviction);
    SamePreempted(t, node, r);
    ShrinksThrough(s.nodes, t.nodes, s.cache, t.cache, CacheRound(t, node, r).cache);
  }

  lemma SamePreempted(t: Scheduler, node: string, r: Request)
    requires Inv(t.cache) && t.cache.Serves(node)
    ensures CacheRound(t, node, r).preempted == t.preempted
  {
  }

  lemma ShrinksThrough(nodes: seq<Node>, same: seq<Node>, c: Cache, d: Cache, e: Cache)
    requires SameShape(nodes, same) && HeadroomShrinks(nodes, c, d) && HeadroomShrinks(same, d, e)
    ensures HeadroomShrinks(nodes, c, e)
  {
    forall k | 0 <= k < |nodes|
      ensures e.Serves(nodes[k].id) && e.FreeBlocks(nodes[k].id) <= c.FreeBlocks(nodes[k].id)
    {
      assert same[k].id == nodes[k].id;
    }
  }

  /** The rest of the round of a placed request. */
  lemma CompletionSettles(model: (Request, seq<Node>) -> real, s: Scheduler, u: Scheduler, r: Request, k: nat,
                          draws: nat -> Inputs)
    requires Good(u, []) && AssignedTo(u, r, k) && Known(s.nodes, s.cache) && AllStuck(model, s, s.gate.queue)
    requires Retire(u, r, k).nodes == s.nodes && Retire(u, r, k).inflight == []
    requires u.gate.queue == s.gate.queue && u.gate.useModel == s.gate.useModel && u.preempted == s.preempted
    requires HeadroomShrinks(s.nodes, s.cache, u.cache)
    requires s.gate.useModel ==> Able(u) && CompletionPredicted(model, u, r, k, draws)
    ensures var v := OnComplete(u, r, k, draws);
            Good(v, []) && v.inflight == [] && Keeps(s, v) && AllStuck(model, v, v.gate.queue)
  {
    hide Good, Drain, Retire, OnComplete, Able, LiveIds, AllStuck, Known, HeadroomShrinks, AllBatch, DrainPredicted;
    var p, out := CompletionDrains(u, r, k, draws);
    GoodParts(p, out);
    CompletionDropsNobody(u, r, k, draws);
    StuckThrough(model, s, p, s.gate.queue);
    StuckParts(model, p, out, s.gate.queue);
    QueueFits(u);
    DrainTurnsQueue(model, p, out, draws, 0);
    var v := OnComplete(u, r, k, draws);
    assert multiset(v.gate.queue) == multiset(p.gate.queue) + multiset(out) == multiset(s.gate.queue);
    StuckThrough(model, p, v, v.gate.queue);
  }

  lemma QueueFits(s: Scheduler)
    requires Good(s, [])
    ensures |s.gate.queue| <= s.gate.maxQueue
  {
  }

  /** Turning the queue round keeps who is in it. */
  lemma StuckParts(model: (Request, seq<Node>) -> real, p: Scheduler, out: seq<Request>, queue: seq<Request>)
    requires Known(p.nodes, p.cache) && out + p.gate.queue == queue && AllStuck(model, p, queue)
    ensures AllStuck(model, p, out) && AllStuck(model, p, p.gate.queue + out)
  {
    hide Stuck, Known;
    forall i | 0 <= i < |queue|
      ensures Stuck(model, p, queue[i])
    {
    }
    assert forall i :: 0 <= i < |out| ==> out[i] == queue[i];
    assert forall i :: 0 <= i < |p.gate.queue| ==> p.gate.queue[i] == queue[|out| + i];
  }

  /** The round of a placed request up to its completion. */
  lemma PlacedUnfolds(model: (Request, seq<Node>) -> real, s: Scheduler, r: Request, inputs: Inputs,
                      draws: nat -> Inputs, k: nat)
    returns (t: Scheduler, u: Scheduler)
    requires Good(s, []) && NewIds(s, [r]) && Good(s, [r]) && Able(s) && Schedule(s, r, inputs).1 == Placed(k)
    ensures t == Schedule(s, r, inputs).0 && Good(t, []) && SameShape(s.nodes, t.nodes) && k < |s.nodes|
    ensures Inv(t.cache) && t.cache.Serves(s.nodes[k].id) && u == CacheRound(t, s.nodes[k].id, r)
    ensures u == t.(cache := u.cache) && Good(u, []) && AssignedTo(u, r, k) && Able(u)
    ensures ServeOne(s, r, inputs, draws).0 == OnComplete(u, r, k, draws)
    ensures RoundPredicted(model, s, r, inputs, draws) ==> CompletionPredicted(model, u, r, k, draws)
  {
    hide Good, Schedule, OnComplete, CacheRound, CompletionPredicted, NewIds, Predicted, Recorded, Inv, SameShape,
         AssignedTo, Find, Sized, Known;
    ScheduleAnswers(s, r, inputs);
    t := Schedule(s, r, inputs).0;
    GoodParts(t, []);
    u := CacheRound(t, s.nodes[k].id, r);
    CacheRoundKeeps(t, s.nodes[k].id, r);
    CacheOnly(t, s.nodes[k].id, r);
    RoundCompletes(s, t, u, r, k);
    GoodIsAble(u, []);
  }

  lemma PlacedSettles(model: (Request, seq<Node>) -> real, s: Scheduler, r: Request, inputs: Inputs,
                      draws: nat -> Inputs, k: nat)
    requires Settled(model, s) && NewIds(s, [r]) && Good(s, [r]) && Predicted(model, s, r, inputs.draw)
    requires Able(s) && Schedule(s, r, inputs).1 == Placed(k)
    requires s.gate.useModel ==> RoundPredicted(model, s, r, inputs, draws)
    ensures var v := ServeOne(s, r, inputs, draws).0;
            Good(v, []) && v.inflight == [] && Keeps(s, v) && AllStuck(model, v, v.gate.queue)
  {
    hide Good, Schedule, OnComplete, CacheRound, Keeps, AllStuck, Retire, CompletionPredicted, RoundPredicted, ServeOne,
         NewIds, Predicted, Inv, Known, HeadroomShrinks, SameShape, AssignedTo, Able;
    GoodIsAble(s, []);
    GoodParts(s, []);
    NotPlaced(model, s, r, inputs);
    PlacedReturns(model, s, r, inputs);
    var t, u := PlacedUnfolds(model, s, r, inputs, draws, k);
    RetireIgnoresCache(t, u, r, k);
    RoundTakesHeadroom(s, t, r, inputs, s.nodes[k].id);
    CompletionSettles(model, s, u, r, k, draws);
  }

  lemma CacheOnly(t: Scheduler, node: string, r: Request)
    requires Inv(t.cache) && t.cache.Serves(node)
    ensures CacheRound(t, node, r) == t.(cache := CacheRound(t, node, r).cache)
  {
  }

  /** One request of the harness. */
  lemma RoundSettles(model: (Request, seq<Node>) -> real, s: Scheduler, r: Request, inputs: Inputs,
                     draws: nat -> Inputs)
    requires Settled(model, s) && NewIds(s, [r]) && (s.gate.useModel ==> RoundPredicted(model, s, r, inputs, draws))
    ensures var t := ServeOne(s, r, inputs, draws).0;
            Settled(model, t) && Keeps(s, t)
  {
    hide Good, Schedule, OnComplete, CacheRound, Keeps, AllStuck, CompletionPredicted, Steps, AtMostOnce, LiveIds, Able;
    GoodArrival(s, r);
    assert [r] + [] == [r];
    GoodIsAble(s, []);
    ScheduleAnswers(s, r, inputs);
    NotPlacedSettles(model, s, r, inputs);
    if Schedule(s, r, inputs).1.Placed? {
      PlacedSettles(model, s, r, inputs, draws, Schedule(s, r, inputs).1.node);
    }
  }

  // ------------------------------------------------------------- whole replays

  lemma KeepsSelf(s: Scheduler)
    requires Good(s, [])
    ensures Keeps(s, s)
  {
  }

  lemma KeepsTrans(s: Scheduler, t: Scheduler, u: Scheduler)
    requires Keeps(s, t) && Keeps(t, u)
    ensures Keeps(s, u)
  {
  }

  lemma {:induction false} ReplaySettles(model: (Request, seq<Node>) -> real, s: Scheduler, trace: seq<Request>,
                                         inputs: nat -> Inputs, draws: nat -> nat -> Inputs, j: nat)
    requires Settled(model, s) && NewIds(s, trace)
    requires s.gate.useModel ==> ReplayPredicted(model, s, trace, inputs, draws, j)
    ensures var t := Replayed(s, trace, inputs, draws, j).0;
            Settled(model, t) && Keeps(s, t)
    decreases |trace|
  {
    hide Good, ServeOne, NewIds, AllStuck, RoundPredicted, HeadroomShrinks;
    if trace == [] {
      KeepsSelf(s);
    } else {
      NextRound(s, trace, inputs(j), draws(j));
      RoundSettles(model, s, trace[0], inputs(j), draws(j));
      var t := ServeOne(s, trace[0], inputs(j), draws(j)).0;
      ReplaySettles(model, t, trace[1..], inputs, draws, j + 1);
      KeepsTrans(s, t, Replayed(s, trace, inputs, draws, j).0);
    }
  }

  /** From nothing in flight, with everyone who waits stuck: after every trace the ledger is
      empty and the nodes are idle and exactly as they were, no preemption has freed a block,
      and everyone who waited at the start or joined the queue since is still waiting and still
      stuck.  So a request that is queued is never served. */
  lemma LedgerStaysEmpty(model: (Request, seq<Node>) -> real, s: Scheduler, trace: seq<Request>, inputs: nat -> Inputs,
                         draws: nat -> nat -> Inputs)
    requires Settled(model, s) && NewIds(s, trace)
    requires s.gate.useModel ==> ReplayPredicted(model, s, trace, inputs, draws, 0)
    ensures var t := Replayed(s, trace, inputs, draws, 0).0;
            && t.inflight == [] && t.nodes == s.nodes && AllIdle(t.nodes) && t.preempted == s.preempted
            && multiset(s.gate.queue) <= multiset(t.gate.queue)
            && Known(t.nodes, t.cache) && AllStuck(model, t, t.gate.queue)
  {
    ReplaySettles(model, s, trace, inputs, draws, 0);
    var t := Replayed(s, trace, inputs, draws, 0).0;
    NodesIdle(t);
    GoodParts(t, []);
  }

  /** And a size of request for which no node shows enough free cache blocks is not accepted
      after any further trace, without any proviso. */
  lemma RefusedForGood(model: (Request, seq<Node>) -> real, s: Scheduler, trace: seq<Request>, inputs: nat -> Inputs,
                       draws: nat -> nat -> Inputs, r: Request, d: Draw)
    requires Settled(model, s) && NewIds(s, trace) && Known(s.nodes, s.cache)
    requires s.gate.useModel ==> ReplayPredicted(model, s, trace, inputs, draws, 0)
    requires !HasHeadroom(s.nodes, s.cache, r.KvBlocksNeeded())
    ensures var t := Replayed(s, trace, inputs, draws, 0).0;
            && Sized(t.nodes) && Known(t.nodes, t.cache)
            && !HasHeadroom(t.nodes, t.cache, r.KvBlocksNeeded())
            && !t.gate.Decide(t.nodes, t.cache, r, d).1.Accept?
  {
    ReplaySettles(model, s, trace, inputs, draws, 0);
    var t := Replayed(s, trace, inputs, draws, 0).0;
    GoodParts(t, []);
    hide Good, Settled, Replayed, Inv;
    NoHeadroomAgain(s, t, r);
    NotAccepted(t.gate, t.nodes, t.cache, r, d);
  }

  lemma NoHeadroomAgain(s: Scheduler, t: Scheduler, r: Request)
    requires Known(s.nodes, s.cache) && Keeps(s, t) && !HasHeadroom(s.nodes, s.cache, r.KvBlocksNeeded())
    ensures !HasHeadroom(t.nodes, t.cache, r.KvBlocksNeeded())
  {
    forall k | 0 <= k < |t.nodes|
      ensures t.cache.FreeBlocks(t.nodes[k].id) < r.KvBlocksNeeded()
    {
    }
  }

  lemma NotAccepted(g: Gate, nodes: seq<Node>, c: Cache, r: Request, d: Draw)
    requires Sized(nodes) && Known(nodes, c) && !HasHeadroom(nodes, c, r.KvBlocksNeeded())
    ensures !g.Decide(nodes, c, r, d).1.Accept?
  {
  }

  /** Idle nodes with derived pools, the manager built for them and an empty scheduler with the
      default thresholds are such a start, whatever the model. */
  lemma FreshIsSettled(model: (Request, seq<Node>) -> real, s: Scheduler, blockSize: nat, policy: Policy,
                       read: nat -> real, tick: nat)
    requires blockSize > 0 && s.cache == Deploy(Empty(blockSize, policy, read, tick), s.nodes)
    requires s.inflight == [] && s.gate.queue == [] && DistinctIds(s.nodes)
    requires forall k :: 0 <= k < |s.nodes| ==> s.nodes[k].Idle() && s.nodes[k].KvWithinShare()
    requires s.gate.memReject == 0.95 && s.gate.memQueue == 0.85
    ensures Settled(model, s)
  {
    FreshIsGood(s, blockSize, policy, read, tick);
  }

  // -------------------------------------------------- when a waiting request is stranded

  /** With one request waiting and nothing else in flight, a completion leaves it in flight,
      where nobody completes it, exactly if then some node shows enough free cache blocks, it is
      not drawn as too risky, and some node fits it. */
  lemma StrandedIff(s: Scheduler, b: Request, r: Request, inputs: Inputs, draws: nat -> Inputs, k: nat)
    requires Good(s, []) && s.inflight == [] && s.gate.queue == [b] && NewIds(s, [r]) && Good(s, [r])
    requires Able(s) && Schedule(s, r, inputs).1 == Placed(k)
    ensures k < |s.nodes| && Inv(Schedule(s, r, inputs).0.cache)
    ensures Schedule(s, r, inputs).0.cache.Serves(s.nodes[k].id)
    ensures var c := TakenAndGiven(Schedule(s, r, inputs).0.cache, s.nodes[k].id, r);
            && Known(s.nodes, c)
            && (ServeOne(s, r, inputs, draws).0.inflight != [] <==>
                  && HasHeadroom(s.nodes, c, b.KvBlocksNeeded())
                  && !(s.gate.useModel && draws(0).draw.risk > 0.85) && SomeFits(s.nodes, b))
  {
    hide Good, Schedule, OnComplete, CacheRound, RoundPredicted, ServeOne, NewIds, Inv, HeadroomShrinks, SameShape,
         AssignedTo, Able, Retire, Drain, LiveIds, AllBatch, HasHeadroom, SomeFits;
    var model := (q: Request, nodes: seq<Node>) => inputs.draw.risk;
    NotPlaced(model, s, r, inputs);
    PlacedReturns(model, s, r, inputs);
    var t, u := PlacedUnfolds(model, s, r, inputs, draws, k);
    RetireIgnoresCache(t, u, r, k);
    var p, out := CompletionDrains(u, r, k, draws);
    OnlyOneWaits(out, p.gate.queue, b);
    GoodParts(p, out);
    OneDrained(p, b, draws);
    CacheOfRound(t, s.nodes[k].id, r);
  }

  lemma OnlyOneWaits(out: seq<Request>, rest: seq<Request>, b: Request)
    requires out + rest == [b] && |out| == Min(DRAIN, 1)
    ensures out == [b]
  {
    assert out[0] == (out + rest)[0];
  }

  lemma CacheOfRound(t: Scheduler, node: string, r: Request)
    requires Inv(t.cache) && t.cache.Serves(node)
    ensures CacheRound(t, node, r).cache == TakenAndGiven(t.cache, node, r)
  {
  }

  lemma OneDrained(p: Scheduler, b: Request, draws: nat -> Inputs)
    requires Good(p, [b]) && Able(p) && AllBatch([b]) && p.inflight == [] && Known(p.nodes, p.cache)
    ensures Drain(p, [b], draws, 0).inflight != [] <==>
            && HasHeadroom(p.nodes, p.cache, b.KvBlocksNeeded())
            && !(p.gate.useModel && draws(0).draw.risk > 0.85) && SomeFits(p.nodes, b)
  {
    hide Good, Schedule, HasHeadroom, SomeFits, LiveIds, Known;
    assert [b] + [] == [b] && [b][0] == b;
    WaitingPlacedIff(p, b, [], draws(0));
    ScheduleAppends(p, b, [], draws(0));
    NotPlaced((q: Request, nodes: seq<Node>) => draws(0).draw.risk, p, b, draws(0));
    DrainOne(p, [b], draws, 0);
    DrainNobody(Schedule(p, b, draws(0)).0, draws, 1);
  }

  /** How many blocks of a node one allocate can take. */
  lemma AllocateUses(c: Cache, node: string, r: Request)
    requires Inv(c) && Allocatable(c, node)
    ensures var d := KVCache.Allocate(c, node, r).cache;
            && d.Serves(node) && d.stats[node].total == c.stats[node].total
            && d.stats[node].used <= c.stats[node].used + r.KvBlocksNeeded()
  {
    AllocateHandsOut(c, node, r);
    var gone := AllocateServed(c, node, r);
    hide Inv, KVCache.Allocate, BlocksServed, IndexLess, SameKind, Remaining;
  }

  lemma RoundUses(c: Cache, node: string, r: Request)
    requires Inv(c) && c.Serves(node)
    ensures var d := TakenAndGiven(c, node, r);
            && d.Serves(node) && d.stats[node].total == c.stats[node].total
            && d.stats[node].used <= c.stats[node].used + r.KvBlocksNeeded()
  {
    hide Inv, KVCache.Allocate, ReleaseAll;
    RoundIsCallable(c, node, r);
    AllocateUses(c, node, r);
    var a := KVCache.Allocate(c, node, r);
    ReleaseAllSpec(a.cache, node, a.Blocks());
  }

  /** One idle node with three blocks, and a scheduler with the spill-risk model on. */
  function SmallCluster(): Scheduler {
    var nodes := [Node("n", 1.0, 1.0, 1.0, false, 0.0, 0, 0, 3)];
    Scheduler(nodes, Deploy(Empty(16, LRU(map[]), (i: nat) => 0.0, 0), nodes),
              Gate(1, 0.95, 0.85, 0.95, true, [], 0, 0, 0), [], false, 0, 0)
  }

  function SmallRequest(id: string): Request {
    Request(id, 1, 0, Batch, 0.0, None)
  }

  function RiskIs(risk: real): Inputs {
    Inputs(Draw(0.0, risk), (k: nat) => 0.0)
  }

  function FirstRisky(j: nat): Inputs {
    RiskIs(if j == 0 then 0.9 else 0.0)
  }

  function NeverRisky(j: nat): nat -> Inputs {
    (i: nat) => RiskIs(0.0)
  }

  lemma SmallClusterIsFresh()
    ensures var s := SmallCluster();
            && Good(s, []) && s.cache.Serves("n") && s.cache.stats["n"] == Stats(3, 0, 0, 0, 0, 0)
            && s.nodes[0].Fits(SmallRequest("a")) && s.nodes[0].Fits(SmallRequest("b"))
  {
    var s := SmallCluster();
    var none := Empty(16, LRU(map[]), (i: nat) => 0.0, 0);
    assert s.nodes[..0] == [];
    EmptyInv(16, LRU(map[]), (i: nat) => 0.0, 0);
    AddNodeKeepsInv(none, "n", 3);
    FreshIsGood(s, 16, LRU(map[]), (i: nat) => 0.0, 0);
  }

  lemma RiskyWaits(s: Scheduler, b: Request, inputs: Inputs, draws: nat -> Inputs)
    requires Good(s, []) && NewIds(s, [b]) && b.sla.Batch? && |s.gate.queue| < s.gate.maxQueue
    requires s.gate.useModel && inputs.draw.risk > 0.85
    ensures ServeOne(s, b, inputs, draws) ==
            (s.(gate := s.gate.(queue := s.gate.queue + [b], queued := s.gate.queued + 1)), Rejected)
  {
    hide Good, Schedule, OnComplete, CacheRound, HasHeadroom, SomeFits, AtMostOnce, LiveIds;
    GoodArrival(s, b);
    assert [b] + [] == [b];
    GoodParts(s, []);
    ScheduleAnswers(s, b, inputs);
    WaitingPlacedIff(s, b, [], inputs);
    StuckWaitsOn((q: Request, nodes: seq<Node>) => inputs.draw.risk, s, b, [], inputs);
  }

  lemma LowRiskIsPlaced(t: Scheduler, b: Request, inputs: Inputs, draws: nat -> Inputs)
    requires Good(t, []) && t.inflight == [] && t.gate.queue == [b] && NewIds(t, [SmallRequest("a")])
    requires t.nodes == SmallCluster().nodes && t.cache == SmallCluster().cache && b == SmallRequest("b")
    requires inputs.draw.risk == 0.0 && draws(0).draw.risk == 0.0
    ensures ServeOne(t, SmallRequest("a"), inputs, draws).0.inflight != []
  {
    hide Good, Schedule, OnComplete, CacheRound, ServeOne, AtMostOnce, LiveIds, Inv, Deploy, TakenAndGiven,
         KVCache.Allocate, Allocatable, Node.Fits;
    var a := SmallRequest("a");
    SmallClusterIsFresh();
    GoodArrival(t, a);
    assert [a] + [] == [a];
    GoodParts(t, []);
    GoodIsAble(t, []);
    WaitingPlacedIff(t, a, [], inputs);
    assert t.cache.FreeBlocks(t.nodes[0].id) >= a.KvBlocksNeeded();
    PlacedCache(t, a, inputs);
    StrandedIff(t, b, a, inputs, draws, 0);
    AllocateUses(t.cache, "n", a);
    var c := Schedule(t, a, inputs).0.cache;
    RoundUses(c, "n", a);
    assert TakenAndGiven(c, "n", a).FreeBlocks(t.nodes[0].id) >= b.KvBlocksNeeded();
  }

  lemma TwoNewIds()
    ensures NewIds(SmallCluster(), [SmallRequest("b"), SmallRequest("a")])
  {
    hide Deploy;
    var trace := [SmallRequest("b"), SmallRequest("a")];
    assert RequestIds(trace) == ["b", "a"];
    assert LiveIds([], [], trace) == multiset{"b", "a"};
    assert "b" != "a";
  }

  /** The risk of b is drawn high when it arrives and low when it is asked for again: b is
      recorded as rejected, and the completion of a places it for good. */
  lemma SomeoneIsStranded()
    ensures var s, trace := SmallCluster(), [SmallRequest("b"), SmallRequest("a")];
            && s.inflight == [] && s.gate.queue == [] && Good(s, []) && NewIds(s, trace)
            && var (t, outcomes) := Replayed(s, trace, FirstRisky, NeverRisky, 0);
               outcomes[0] == Rejected && t.inflight != []
  {
    hide Good, NewIds, ServeOne, SmallRequest, Deploy;
    var s, b, a := SmallCluster(), SmallRequest("b"), SmallRequest("a");
    SmallClusterIsFresh();
    TwoNewIds();
    TwoRounds(s, b, a, FirstRisky, NeverRisky);
    SmallIsBatch("b");
    RiskyWaits(s, b, FirstRisky(0), NeverRisky(0));
    var t := ServeOne(s, b, FirstRisky(0), NeverRisky(0)).0;
    assert [] + [b] == [b];
    LowRiskIsPlaced(t, b, FirstRisky(1), NeverRisky(1));
  }

  lemma SmallIsBatch(id: string)
    ensures SmallRequest(id).sla.Batch?
  {
  }

  lemma OneRound(s: Scheduler, r: Request, inputs: nat -> Inputs, draws: nat -> nat -> Inputs, j: nat)
    requires Good(s, []) && NewIds(s, [r])
    ensures var (t, o) := ServeOne(s, r, inputs(j), draws(j));
            Replayed(s, [r], inputs, draws, j) == (t, [o])
  {
    hide Good, NewIds, ServeOne;
    NextRound(s, [r], inputs(j), draws(j));
    var t := ServeOne(s, r, inputs(j), draws(j)).0;
    assert [r][0] == r && [r][1..] == [];
    assert Replayed(t, [], inputs, draws, j + 1) == (t, []);
    var o := ServeOne(s, r, inputs(j), draws(j)).1;
    assert [o] + [] == [o];
  }

  lemma TwoRounds(s: Scheduler, b: Request, a: Request, inputs: nat -> Inputs, draws: nat -> nat -> Inputs)
    requires Good(s, []) && NewIds(s, [b, a])
    ensures NewIds(s, [b])
    ensures var (t, o) := ServeOne(s, b, inputs(0), draws(0));
            && Good(t, []) && NewIds(t, [a])
            && var (u, p) := ServeOne(t, a, inputs(1), draws(1));
               Replayed(s, [b, a], inputs, draws, 0) == (u, [o, p])
  {
    hide Good, NewIds, ServeOne;
    NextRound(s, [b, a], inputs(0), draws(0));
    assert [b, a][0] == b && [b, a][1..] == [a];
    var (t, o) := ServeOne(s, b, inputs(0), draws(0));
    OneRound(t, a, inputs, draws, 1);
    var p := ServeOne(t, a, inputs(1), draws(1)).1;
    assert [o] + [p] == [o, p];
  }
}
