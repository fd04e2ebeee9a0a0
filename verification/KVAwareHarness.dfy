/** The replay loop of benchmarks/harness.py with the KV-aware scheduler.  The harness shares
    the scheduler's cache manager and allocates and frees on it between schedule and
    on_complete, so each round is a short run of events. */
module KVAwareReplays {
  import opened Models
  import opened BlockPools
  import opened EvictionPolicies
  import opened KVCache
  import opened KVCacheProofs
  import opened KVCacheRuns
  import opened Placement
  import opened Admission
  import opened Harness
  import opened KVAware
  import opened KVAwareRuns

  /** No id of the trace is in flight, waiting or repeated. */
  ghost predicate NewIds(s: Scheduler, trace: seq<Request>) {
    AtMostOnce(LiveIds(s.inflight, s.gate.queue, trace))
  }

  /** What the scheduler answers and enters. */
  lemma ScheduleAnswers(s: Scheduler, r: Request, inputs: Inputs)
    requires Good(s, [r])
    ensures var (t, answer) := Schedule(s, r, inputs);
            && Good(t, []) && Steps(s, t)
            && (answer.Placed? ==>
                  && answer.node < |s.nodes| && t.inflight == s.inflight + [EntryFor(r, s.nodes[answer.node].id)]
                  && Find(s.inflight, r.id) == None && t.cache.Serves(s.nodes[answer.node].id)
                  && Allocatable(t.cache, s.nodes[answer.node].id))
  {
    assert [r] + [] == [r];
    ScheduleKeeps(s, r, [], inputs);
    UniqueHead(s, r, []);
    var (t, answer) := Schedule(s, r, inputs);
    InvIndexInPool(t.cache);
    PlaceFindsBest(s.nodes, r, Hints(s.nodes, s.cache, inputs.ttft));
    hide Inv, Balanced, SameShape, AtMostOnce, LiveIds, Gate.Decide, KVCache.Allocate;
    assert answer.Placed? ==> t.nodes[answer.node].id == s.nodes[answer.node].id by {
      assert SameShape(s.nodes, t.nodes);
      ShapeIds(s.nodes, t.nodes);
    }
  }

  lemma ShapeIds(a: seq<Node>, b: seq<Node>)
    requires SameShape(a, b)
    ensures |a| == |b| && forall k :: 0 <= k < |a| ==> b[k].id == a[k].id
  {
  }

  // --------------------------------------------------------- which ids are live

  /** A schedule call adds no id but that of its request. */
  lemma ScheduleIds(s: Scheduler, r: Request, rest: seq<Request>, inputs: Inputs)
    requires Good(s, [r] + rest)
    ensures var t := Schedule(s, r, inputs).0;
            LiveIds(t.inflight, t.gate.queue, rest) <= LiveIds(s.inflight, s.gate.queue, [r] + rest)
  {
    UniqueHead(s, r, rest);
    ScheduleKeeps(s, r, rest, inputs);
    ScheduleEnters(s, r, inputs);
    IdsOfHead(r, rest);
    IdsOfHead(r, s.gate.queue);
    IdsOfEntry(s.inflight, EntryFor(r, ""));
    hide Good, Schedule, Steps, HasHeadroom, Gate.Accounted;
  }

  lemma ScheduleEnters(s: Scheduler, r: Request, inputs: Inputs)
    requires Ready(s) && (s.inflight != [] ==> s.nodes != []) && Find(s.inflight, r.id) == None
    requires Sized(s.nodes) && Known(s.nodes, s.cache) && s.gate.Ok()
    ensures var t := Schedule(s, r, inputs).0;
            || EntryIds(t.inflight) == EntryIds(s.inflight)
            || (EntryIds(t.inflight) == EntryIds(s.inflight) + [r.id] && t.gate.queue == s.gate.queue)
  {
    DecideAccounts(s.gate, s.nodes, s.cache, r, inputs.draw);
    PlaceFindsBest(s.nodes, r, Hints(s.nodes, s.cache, inputs.ttft));
    hide Inv, KVCache.Allocate, KVCache.MaybeEvict, ToEvict, Gate.Decide;
    assert forall node :: EntryIds(s.inflight + [EntryFor(r, node)]) == EntryIds(s.inflight) + [r.id];
  }

  lemma {:induction false} DrainIds(s: Scheduler, popped: seq<Request>, inputs: nat -> Inputs, j: nat)
    requires Good(s, popped)
    ensures var t := Drain(s, popped, inputs, j);
            LiveIds(t.inflight, t.gate.queue, []) <= LiveIds(s.inflight, s.gate.queue, popped)
    decreases |popped|
  {
    hide Good, Schedule, EntryIds, RequestIds;
    if popped != [] {
      assert popped == [popped[0]] + popped[1..];
      ScheduleIds(s, popped[0], popped[1..], inputs(j));
      DrainOne(s, popped, inputs, j);
      DrainIds(Schedule(s, popped[0], inputs(j)).0, popped[1..], inputs, j + 1);
    }
  }

  lemma RetireIds(s: Scheduler, r: Request, k: nat)
    requires AssignedTo(s, r, k)
    ensures var t := Retire(s, r, k);
            t.gate == s.gate && multiset(EntryIds(t.inflight)) <= multiset(EntryIds(s.inflight))
  {
    FindSpec(s.inflight, r.id);
    if Find(s.inflight, r.id).Some? {
      IdsWithout(s.inflight, Find(s.inflight, r.id).value);
    }
  }

  lemma CompletionIds(s: Scheduler, r: Request, k: nat, inputs: nat -> Inputs)
    requires Good(s, []) && AssignedTo(s, r, k)
    ensures var t := OnComplete(s, r, k, inputs);
            LiveIds(t.inflight, t.gate.queue, []) <= LiveIds(s.inflight, s.gate.queue, [])
  {
    hide Good, Drain, Retire, OnComplete, Able, EntryIds, RequestIds;
    var p, out := CompletionDrains(s, r, k, inputs);
    RetireIds(s, r, k);
    DrainIds(p, out, inputs, 0);
  }

  // ------------------------------------------------------------------ one round

  /** The request was just placed on node k. */
  ghost predicate JustPlaced(t: Scheduler, node: string, r: Request, k: nat) {
    Ready(t) && t.cache.Serves(node) && Good(CacheRound(t, node, r), []) && AssignedTo(CacheRound(t, node, r), r, k)
  }

  /** The round of a placed request after schedule. */
  ghost function AfterPlacing(t: Scheduler, node: string, r: Request, k: nat, draws: nat -> Inputs)
    : (result: (Scheduler, Outcome))
    requires JustPlaced(t, node, r, k)
  {
    (OnComplete(CacheRound(t, node, r), r, k, draws), Recorded(t, node, r))
  }

  /** schedule, allocate, run, free, complete; or the refusal. */
  ghost function ServeOne(s: Scheduler, r: Request, inputs: Inputs, draws: nat -> Inputs): (Scheduler, Outcome)
    requires Good(s, []) && NewIds(s, [r])
  {
    GoodArrival(s, r);
    ScheduleAnswers(s, r, inputs);
    var (t, answer) := Schedule(s, r, inputs);
    match answer
    case Placed(k) =>
      CacheRoundKeeps(t, s.nodes[k].id, r);
      RoundCompletes(s, t, CacheRound(t, s.nodes[k].id, r), r, k);
      AfterPlacing(t, s.nodes[k].id, r, k, draws)
    case Deferred(_) => (t, Rejected)
    case Refused(_) => (t, Rejected)
    case NoPlacement => (t, Rejected)
  }

  /** The harness allocates the blocks of the request and gives them back. */
  ghost function TakenAndGiven(c: Cache, node: string, r: Request): Cache
    requires Inv(c) && c.Serves(node)
  {
    RoundIsCallable(c, node, r);
    var a := KVCache.Allocate(c, node, r);
    Free(a.cache, node, a.Blocks(), true)
  }

  ghost function CacheRound(s: Scheduler, node: string, r: Request): Scheduler
    requires Inv(s.cache) && s.cache.Serves(node)
  {
    s.(cache := TakenAndGiven(s.cache, node, r))
  }

  /** What the harness records of a placed request. */
  ghost function Recorded(s: Scheduler, node: string, r: Request): Outcome
    requires Inv(s.cache) && s.cache.Serves(node)
  {
    InvIndexInPool(s.cache);
    var a := KVCache.Allocate(s.cache, node, r);
    Completed(node, |a.Blocks()|, a.Hit(), |a.Blocks()| < r.KvBlocksNeeded())
  }

  /** As two events of the run. */
  ghost function CacheEvents(s: Scheduler, node: string, r: Request): seq<Event>
    requires Inv(s.cache) && s.cache.Serves(node)
  {
    InvIndexInPool(s.cache);
    [Caches(AllocateOp(node, r)), Caches(FreeOp(node, KVCache.Allocate(s.cache, node, r).Blocks()))]
  }

  // ------------------------------------------------------- putting runs together

  lemma NoEvents(s: Scheduler)
    requires Good(s, [])
    ensures LegalRun(s, []) && KVAwareRuns.Run(s, []) == s
  {
  }

  lemma OneEvent(s: Scheduler, e: Event, rest: seq<Event>)
    requires Good(s, []) && Legal(s, e)
    ensures Good(Step(s, e), [])
    ensures LegalRun(Step(s, e), rest) ==>
              LegalRun(s, [e] + rest) && KVAwareRuns.Run(s, [e] + rest) == KVAwareRuns.Run(Step(s, e), rest)
  {
    StepKeeps(s, e);
    hide Good, Legal, Step, Steps;
    assert ([e] + rest)[0] == e && ([e] + rest)[1..] == rest;
  }

  lemma {:induction false} RunsCompose(s: Scheduler, a: seq<Event>, b: seq<Event>)
    requires Good(s, []) && LegalRun(s, a) && LegalRun(KVAwareRuns.Run(s, a), b)
    ensures LegalRun(s, a + b) && KVAwareRuns.Run(s, a + b) == KVAwareRuns.Run(KVAwareRuns.Run(s, a), b)
    decreases |a|
  {
    hide Good, Legal, Step, Steps;
    if a == [] {
      assert [] + b == b;
    } else {
      StepKeeps(s, a[0]);
      RunsCompose(Step(s, a[0]), a[1..], b);
      OneEvent(s, a[0], a[1..] + b);
      assert a + b == [a[0]] + (a[1..] + b);
    }
  }

  lemma CacheStep(s: Scheduler, op: Op)
    requires Good(s, []) && Callable(s.cache, op)
    ensures Numbered(s.cache.blocks) && IndexInPool(s.cache)
    ensures Legal(s, Caches(op)) && Step(s, Caches(op)) == s.(cache := KVCache.Apply(s.cache, op))
  {
    InvIndexInPool(s.cache);
  }

  lemma OneCacheStep(s: Scheduler, op: Op)
    requires Good(s, []) && Callable(s.cache, op)
    ensures Numbered(s.cache.blocks) && IndexInPool(s.cache)
    ensures var t := s.(cache := KVCache.Apply(s.cache, op));
            Good(t, []) && LegalRun(s, [Caches(op)]) && KVAwareRuns.Run(s, [Caches(op)]) == t
  {
    CacheStep(s, op);
    OneEvent(s, Caches(op), []);
    NoEvents(s.(cache := KVCache.Apply(s.cache, op)));
    assert [Caches(op)] + [] == [Caches(op)];
  }

  lemma TwoCacheSteps(s: Scheduler, first: Op, second: Op, t: Scheduler)
    requires Good(s, []) && Good(t, []) && Callable(s.cache, first) && Callable(t.cache, second)
    requires LegalRun(s, [Caches(first)]) && KVAwareRuns.Run(s, [Caches(first)]) == t
    ensures LegalRun(s, [Caches(first), Caches(second)])
    ensures Numbered(t.cache.blocks) && IndexInPool(t.cache)
    ensures KVAwareRuns.Run(s, [Caches(first), Caches(second)]) == t.(cache := KVCache.Apply(t.cache, second))
  {
    hide Good, LegalRun, KVCache.Apply, Callable, KVAwareRuns.Run, Numbered, IndexInPool;
    OneCacheStep(t, second);
    RunsCompose(s, [Caches(first)], [Caches(second)]);
    assert [Caches(first)] + [Caches(second)] == [Caches(first), Caches(second)];
  }

  lemma CacheRoundKeeps(s: Scheduler, node: string, r: Request)
    requires Good(s, []) && s.cache.Serves(node)
    ensures LegalRun(s, CacheEvents(s, node, r))
    ensures KVAwareRuns.Run(s, CacheEvents(s, node, r)) == CacheRound(s, node, r)
    ensures Good(CacheRound(s, node, r), [])
  {
    RoundIsCallable(s.cache, node, r);
    var a := KVCache.Allocate(s.cache, node, r);
    hide Good, KVCache.Allocate, LegalRun, InPool;
    OneCacheStep(s, AllocateOp(node, r));
    var t := s.(cache := a.cache);
    TwoCacheSteps(s, AllocateOp(node, r), FreeOp(node, a.Blocks()), t);
    OneCacheStep(t, FreeOp(node, a.Blocks()));
  }

  lemma RoundIsCallable(c: Cache, node: string, r: Request)
    requires Inv(c) && c.Serves(node)
    ensures Allocatable(c, node)
    ensures var a := KVCache.Allocate(c, node, r);
            InPool(a.cache, a.Blocks()) && a.cache.Serves(node)
  {
    InvIndexInPool(c);
    var a := KVCache.Allocate(c, node, r);
    AllocateHandsOut(c, node, r);
    HandedOutInPool(a, node, r);
    AllocateKeepsServing(c, node, r);
  }

  lemma AllocateKeepsServing(c: Cache, node: string, r: Request)
    requires Inv(c) && Allocatable(c, node)
    ensures KVCache.Allocate(c, node, r).cache.Serves(node)
  {
    var gone := AllocateServed(c, node, r);
  }

  lemma RoundCompletes(s: Scheduler, t: Scheduler, u: Scheduler, r: Request, k: nat)
    requires Find(s.inflight, r.id) == None && k < |s.nodes| && t.inflight == s.inflight + [EntryFor(r, s.nodes[k].id)]
    requires SameShape(s.nodes, t.nodes) && u.nodes == t.nodes && u.inflight == t.inflight
    ensures AssignedTo(u, r, k)
  {
    FindSpec(s.inflight, r.id);
  }

  /** The events of one round. */
  ghost function RoundEvents(s: Scheduler, r: Request, inputs: Inputs, draws: nat -> Inputs): seq<Event>
    requires Good(s, []) && NewIds(s, [r])
  {
    GoodArrival(s, r);
    ScheduleAnswers(s, r, inputs);
    var (t, answer) := Schedule(s, r, inputs);
    [Arrive(r, inputs)] +
    (if answer.Placed? then CacheEvents(t, s.nodes[answer.node].id, r) + [Completes(r, answer.node, draws)] else [])
  }

  /** A round is a legal run, brings back the ids it took or leaves its request waiting. */
  lemma RoundIsARun(s: Scheduler, r: Request, inputs: Inputs, draws: nat -> Inputs)
    requires Good(s, []) && NewIds(s, [r])
    ensures var t := ServeOne(s, r, inputs, draws).0;
            && Good(t, []) && LegalRun(s, RoundEvents(s, r, inputs, draws))
            && KVAwareRuns.Run(s, RoundEvents(s, r, inputs, draws)) == t
            && LiveIds(t.inflight, t.gate.queue, []) <= LiveIds(s.inflight, s.gate.queue, [r])
  {
    GoodArrival(s, r);
    assert [r] + [] == [r];
    ScheduleAnswers(s, r, inputs);
    ScheduleIds(s, r, [], inputs);
    var (t, answer) := Schedule(s, r, inputs);
    hide Good, KVCache.Allocate, LegalRun, KVAwareRuns.Run, Schedule, OnComplete, LiveIds, CacheEvents, CacheRound;
    if answer.Placed? {
      var node := s.nodes[answer.node].id;
      PlacedRound(s, t, r, inputs, answer.node, draws);
    } else {
      NoEvents(t);
      ArriveFirst(s, r, inputs, t, []);
      assert [Arrive(r, inputs)] + [] == RoundEvents(s, r, inputs, draws);
    }
  }

  lemma ArriveFirst(s: Scheduler, r: Request, inputs: Inputs, t: Scheduler, rest: seq<Event>)
    requires Good(s, []) && NewIds(s, [r]) && t == Schedule(s, r, inputs).0 && Good(t, []) && LegalRun(t, rest)
    ensures LegalRun(s, [Arrive(r, inputs)] + rest)
    ensures KVAwareRuns.Run(s, [Arrive(r, inputs)] + rest) == KVAwareRuns.Run(t, rest)
  {
    GoodArrival(s, r);
    var e := Arrive(r, inputs);
    assert Legal(s, e) && Step(s, e) == t;
    hide Good, Legal, Step, LegalRun;
    OneEvent(s, e, rest);
  }

  lemma LastEvent(u: Scheduler, r: Request, k: nat, draws: nat -> Inputs)
    requires Good(u, []) && AssignedTo(u, r, k)
    ensures Good(OnComplete(u, r, k, draws), [])
    ensures LegalRun(u, [Completes(r, k, draws)])
    ensures KVAwareRuns.Run(u, [Completes(r, k, draws)]) == OnComplete(u, r, k, draws)
  {
    var e := Completes(r, k, draws);
    CompletionDropsNobody(u, r, k, draws);
    assert Legal(u, e) && Step(u, e) == OnComplete(u, r, k, draws);
    hide Good, Legal, Step, LegalRun, OnComplete;
    OneEvent(u, e, []);
    NoEvents(OnComplete(u, r, k, draws));
    assert [e] + [] == [e];
  }

  lemma PlacedRound(s: Scheduler, t: Scheduler, r: Request, inputs: Inputs, k: nat, draws: nat -> Inputs)
    requires Good(s, []) && NewIds(s, [r]) && Good(s, [r]) && (t, Placed(k)) == Schedule(s, r, inputs)
    ensures var u := ServeOne(s, r, inputs, draws).0;
            && Good(u, []) && LegalRun(s, RoundEvents(s, r, inputs, draws))
            && KVAwareRuns.Run(s, RoundEvents(s, r, inputs, draws)) == u
            && LiveIds(u.inflight, u.gate.queue, []) <= LiveIds(t.inflight, t.gate.queue, [])
  {
    ScheduleAnswers(s, r, inputs);
    var node := s.nodes[k].id;
    CacheRoundKeeps(t, node, r);
    var c := CacheRound(t, node, r);
    RoundCompletes(s, t, c, r, k);
    hide Good, KVCache.Allocate, LegalRun, KVAwareRuns.Run, Schedule, OnComplete, LiveIds, CacheEvents, Inv, SameShape,
         AssignedTo, Steps;
    LastEvent(c, r, k, draws);
    CompletionIds(c, r, k, draws);
    RunsCompose(t, CacheEvents(t, node, r), [Completes(r, k, draws)]);
    ArriveFirst(s, r, inputs, t, CacheEvents(t, node, r) + [Completes(r, k, draws)]);
  }

  // ---------------------------------------------------------------- whole traces

  lemma NextRound(s: Scheduler, trace: seq<Request>, inputs: Inputs, draws: nat -> Inputs)
    requires Good(s, []) && trace != [] && NewIds(s, trace)
    ensures NewIds(s, [trace[0]])
    ensures var t := ServeOne(s, trace[0], inputs, draws).0;
            Good(t, []) && NewIds(t, trace[1..])
  {
    assert trace == [trace[0]] + trace[1..];
    IdsOfHead(trace[0], trace[1..]);
    IdsOfHead(trace[0], []);
    assert [trace[0]] + [] == [trace[0]];
    var a, b := LiveIds(s.inflight, s.gate.queue, trace), LiveIds(s.inflight, s.gate.queue, [trace[0]]);
    var c := multiset(RequestIds(trace[1..]));
    assert a == b + c;
    hide Good, ServeOne, RoundEvents;
    SmallerAtMostOnce(b, a);
    RoundIsARun(s, trace[0], inputs, draws);
    var t := ServeOne(s, trace[0], inputs, draws).0;
    SmallerAtMostOnce(LiveIds(t.inflight, t.gate.queue, trace[1..]), a);
  }

  lemma SmallerAtMostOnce(a: multiset<string>, b: multiset<string>)
    requires a <= b && AtMostOnce(b)
    ensures AtMostOnce(a)
  {
    forall x
      ensures a[x] <= b[x] <= 1
    {
    }
  }

  /** The harness over a trace, with the scheduler's outside inputs of each round. */
  ghost function Replayed(s: Scheduler, trace: seq<Request>, inputs: nat -> Inputs, draws: nat -> nat -> Inputs, j: nat)
    : (result: (Scheduler, seq<Outcome>))
    requires Good(s, []) && NewIds(s, trace)
    ensures Good(result.0, []) && |result.1| == |trace|
    decreases |trace|
  {
    if trace == [] then (s, [])
    else
      NextRound(s, trace, inputs(j), draws(j));
      var (t, outcome) := ServeOne(s, trace[0], inputs(j), draws(j));
      var (u, rest) := Replayed(t, trace[1..], inputs, draws, j + 1);
      (u, [outcome] + rest)
  }

  ghost function ReplayEvents(s: Scheduler, trace: seq<Request>, inputs: nat -> Inputs, draws: nat -> nat -> Inputs,
                              j: nat): seq<Event>
    requires Good(s, []) && NewIds(s, trace)
    decreases |trace|
  {
    if trace == [] then []
    else
      NextRound(s, trace, inputs(j), draws(j));
      RoundEvents(s, trace[0], inputs(j), draws(j)) +
      ReplayEvents(ServeOne(s, trace[0], inputs(j), draws(j)).0, trace[1..], inputs, draws, j + 1)
  }

  /** The harness on any trace with fresh ids is a legal run, so everything that holds over
      runs holds of it, although it allocates and frees on the scheduler's manager. */
  lemma {:induction false} ReplayIsARun(s: Scheduler, trace: seq<Request>, inputs: nat -> Inputs,
                                        draws: nat -> nat -> Inputs, j: nat)
    requires Good(s, []) && NewIds(s, trace)
    ensures LegalRun(s, ReplayEvents(s, trace, inputs, draws, j))
    ensures KVAwareRuns.Run(s, ReplayEvents(s, trace, inputs, draws, j)) == Replayed(s, trace, inputs, draws, j).0
    decreases |trace|
  {
    hide Good, LegalRun, KVAwareRuns.Run, ServeOne, RoundEvents, NewIds;
    if trace == [] {
      NoEvents(s);
    } else {
      NextRound(s, trace, inputs(j), draws(j));
      RoundIsARun(s, trace[0], inputs(j), draws(j));
      var t := ServeOne(s, trace[0], inputs(j), draws(j)).0;
      ReplayIsARun(t, trace[1..], inputs, draws, j + 1);
      RunsCompose(s, RoundEvents(s, trace[0], inputs(j), draws(j)), ReplayEvents(t, trace[1..], inputs, draws, j + 1));
    }
  }

  /** So under the harness, too, memory pressure stays at 0.60 or below on every node, and no
      BATCH request is ever rejected. */
  lemma ReplayStaysLow(s: Scheduler, trace: seq<Request>, inputs: nat -> Inputs, draws: nat -> nat -> Inputs,
                       r: Request, d: Draw)
    requires Good(s, []) && NewIds(s, trace)
    ensures var t := Replayed(s, trace, inputs, draws, 0).0;
            && LowPressure(t.nodes) && Sized(t.nodes) && Known(t.nodes, t.cache)
            && (r.sla.Batch? ==> !t.gate.Decide(t.nodes, t.cache, r, d).1.Reject?)
  {
    ReplayIsARun(s, trace, inputs, draws, 0);
    var t := Replayed(s, trace, inputs, draws, 0).0;
    BalancedPressure(t);
    MemoryBranchesAreDead(s, ReplayEvents(s, trace, inputs, draws, 0), r, d);
  }

  /** The harness forces no evictions. */
  lemma {:induction false} ReplayIsTame(s: Scheduler, trace: seq<Request>, inputs: nat -> Inputs,
                                        draws: nat -> nat -> Inputs, j: nat)
    requires Good(s, []) && NewIds(s, trace)
    ensures forall e :: e in ReplayEvents(s, trace, inputs, draws, j) ==> Tame(e, NoOutsideEviction)
    decreases |trace|
  {
    hide Good, ServeOne, RoundEvents, NewIds, Tame;
    if trace != [] {
      NextRound(s, trace, inputs(j), draws(j));
      RoundIsTame(s, trace[0], inputs(j), draws(j));
      ReplayIsTame(ServeOne(s, trace[0], inputs(j), draws(j)).0, trace[1..], inputs, draws, j + 1);
    }
  }

  lemma RoundIsTame(s: Scheduler, r: Request, inputs: Inputs, draws: nat -> Inputs)
    requires Good(s, []) && NewIds(s, [r])
    ensures forall e :: e in RoundEvents(s, r, inputs, draws) ==> Tame(e, NoOutsideEviction)
  {
    hide Inv, NodeBalanced, AtMostOnce, LiveIds, Gate.Ok, Sized, Known, Schedule, Steps, CacheEvents, Tame, Allocatable;
    GoodArrival(s, r);
    ScheduleAnswers(s, r, inputs);
    var (t, answer) := Schedule(s, r, inputs);
    OtherEventsAreTame(r, inputs, if answer.Placed? then answer.node else 0, draws);
    if answer.Placed? {
      CacheEventsAreTame(t, s.nodes[answer.node].id, r);
    }
  }

  lemma CacheEventsAreTame(s: Scheduler, node: string, r: Request)
    requires Inv(s.cache) && s.cache.Serves(node)
    ensures forall e :: e in CacheEvents(s, node, r) ==> Tame(e, NoOutsideEviction)
  {
    hide Inv;
  }

  lemma OtherEventsAreTame(r: Request, inputs: Inputs, k: nat, draws: nat -> Inputs)
    ensures Tame(Arrive(r, inputs), NoOutsideEviction) && Tame(Completes(r, k, draws), NoOutsideEviction)
  {
  }

  /** So under the harness, which does free on the manager, lost headroom still comes back only
      by preemption: a size of request for which no node shows enough free cache blocks is not
      accepted again until a preemption has freed blocks. */
  lemma ReplayExhausts(s: Scheduler, trace: seq<Request>, inputs: nat -> Inputs, draws: nat -> nat -> Inputs,
                       r: Request, d: Draw)
    requires Good(s, []) && NewIds(s, trace) && !HasHeadroom(s.nodes, s.cache, r.KvBlocksNeeded())
    ensures var t := Replayed(s, trace, inputs, draws, 0).0;
            && Sized(t.nodes) && Known(t.nodes, t.cache) && t.preempted >= s.preempted
            && (t.gate.Decide(t.nodes, t.cache, r, d).1.Accept? ==> t.preempted > s.preempted)
  {
    hide Good, NewIds, Replayed, ReplayEvents, LegalRun, KVAwareRuns.Run, Tame, HasHeadroom, Gate.Decide, Sized, Known;
    ReplayIsARun(s, trace, inputs, draws, 0);
    ReplayIsTame(s, trace, inputs, draws, 0);
    ReadyParts(s);
    ExhaustionIsPermanent(s, ReplayEvents(s, trace, inputs, draws, 0), r, d, NoOutsideEviction);
  }

  lemma ReadyParts(s: Scheduler)
    requires Good(s, [])
    ensures Sized(s.nodes) && Known(s.nodes, s.cache)
  {
  }

  /** Idle nodes with derived pools, a manager set up for them and an empty scheduler with the
      default thresholds are a state the replay can start from. */
  lemma FreshIsGood(s: Scheduler, blockSize: nat, policy: Policy, read: nat -> real, tick: nat)
    requires blockSize > 0 && s.cache == Deploy(Empty(blockSize, policy, read, tick), s.nodes)
    requires s.inflight == [] && s.gate.queue == [] && DistinctIds(s.nodes)
    requires forall k :: 0 <= k < |s.nodes| ==> s.nodes[k].Idle() && s.nodes[k].KvWithinShare()
    requires s.gate.memReject == 0.95 && s.gate.memQueue == 0.85
    ensures Good(s, [])
  {
    hide Inv, AddNode;
    EmptyInv(blockSize, policy, read, tick);
    DeployFacts(Empty(blockSize, policy, read, tick), s.nodes);
    StartIsGood(s);
  }
}

/** BenchmarkHarness.run over the objects, with the KV-aware scheduler. */
module KVAwareHarnesses {
  import opened Models
  import opened KVCache
  import opened KVCacheProofs
  import opened KVCacheManagers
  import opened Harness
  import opened KVAware
  import opened KVAwareRuns
  import opened KVAwareReplays
  import opened KVAwareSchedulers

  class KVAwareHarness {
    const scheduler: KVAwareSLAScheduler

    constructor (scheduler: KVAwareSLAScheduler)
      ensures this.scheduler == scheduler
    {
      this.scheduler := scheduler;
    }

    /** `kv_manager.allocate(...)` */
    method Take(k: nat, r: Request) returns (blocks: seq<KVBlock>, hit: bool)
      requires scheduler.Wired() && Ready(scheduler.View()) && k < |scheduler.nodes|
      modifies scheduler.manager`prefixCache, scheduler.manager`stats, scheduler.manager`view
      modifies scheduler.manager.policy`state, scheduler.manager.clock`tick, scheduler.manager.pool
      ensures scheduler.Wired() && scheduler.manager.Owns(blocks)
      ensures Allocatable(old(scheduler.View()).cache, scheduler.nodes[k].id)
      ensures var a := KVCache.Allocate(old(scheduler.View()).cache, scheduler.nodes[k].id, r);
              && scheduler.View() == old(scheduler.View()).(cache := a.cache)
              && BlockIds(blocks) == a.Blocks() && hit == a.Hit()
    {
      hide Inv, KVCacheManager.Wired, KVCache.Allocate, Sized;
      assert scheduler.View().nodes[k].id == scheduler.nodes[k].id;
      blocks, hit := scheduler.manager.Allocate(scheduler.nodes[k].id, r);
    }

    /** `kv_manager.free(..., keep_prefix=True)` */
    method Give(node: string, blocks: seq<KVBlock>)
      requires scheduler.Wired() && scheduler.View().cache.Serves(node) && scheduler.manager.Owns(blocks)
      modifies scheduler.manager`stats, scheduler.manager`view
      modifies scheduler.manager.policy`state, scheduler.manager.clock`tick, scheduler.manager.pool
      ensures scheduler.Wired() && InPool(old(scheduler.View()).cache, BlockIds(blocks))
      ensures scheduler.View() == old(scheduler.View()).(
                cache := Free(old(scheduler.View()).cache, node, BlockIds(blocks), true))
    {
      hide Inv, KVCacheManager.Wired, Free, KVCacheRuns.CleanFree;
      scheduler.manager.Free(node, blocks, true);
    }

    /** Both, around the execution. */
    method UseCache(k: nat, r: Request, ghost t: Scheduler, ghost node: string) returns (outcome: Outcome)
      requires scheduler.Wired() && Ready(t) && t == scheduler.View() && k < |scheduler.nodes| &&
                 node == scheduler.nodes[k].id
      requires t.cache.Serves(node)
      modifies scheduler.manager`prefixCache, scheduler.manager`stats, scheduler.manager`view
      modifies scheduler.manager.policy`state, scheduler.manager.clock`tick, scheduler.manager.pool
      ensures scheduler.Wired() && scheduler.View() == CacheRound(t, node, r) && outcome == Recorded(t, node, r)
    {
      hide *;
      CacheRoundIs(t, node, r);
      var taken, hit := Take(k, r);
      Give(scheduler.nodes[k].id, taken);
      outcome := Completed(scheduler.nodes[k].id, |taken|, hit, |taken| < r.KvBlocksNeeded());
    }

    /** `scheduler.on_complete(req, node)` */
    method Complete(k: nat, r: Request, draws: nat -> Inputs, ghost u: Scheduler)
      requires scheduler.Wired() && u == scheduler.View() && k < |scheduler.nodes| && Good(u, []) && AssignedTo(u, r, k)
      modifies scheduler`inflight, scheduler`scheduled, scheduler`preempted, scheduler.admission, scheduler.nodes
      modifies scheduler.manager`prefixCache, scheduler.manager`stats, scheduler.manager`view
      modifies scheduler.manager.policy`state, scheduler.manager.clock`tick, scheduler.manager.pool
      ensures scheduler.Wired() && scheduler.View() == OnComplete(u, r, k, draws)
    {
      hide *;
      GoodIsAble(u, []);
      scheduler.OnComplete(r, scheduler.nodes[k], draws, k);
    }

    /** The round of a placed request after schedule. */
    method Execute(k: nat, r: Request, draws: nat -> Inputs, ghost t: Scheduler, ghost node: string)
      returns (outcome: Outcome)
      requires scheduler.Wired() && t == scheduler.View() && k < |scheduler.nodes| && node == scheduler.nodes[k].id
      requires JustPlaced(t, node, r, k)
      modifies scheduler`inflight, scheduler`scheduled, scheduler`preempted, scheduler.admission, scheduler.nodes
      modifies scheduler.manager`prefixCache, scheduler.manager`stats, scheduler.manager`view
      modifies scheduler.manager.policy`state, scheduler.manager.clock`tick, scheduler.manager.pool
      ensures scheduler.Wired() && (scheduler.View(), outcome) == AfterPlacing(t, node, r, k, draws)
    {
      hide *;
      PlacedParts(t, node, r, k, draws);
      outcome := UseCache(k, r, t, node);
      Complete(k, r, draws, scheduler.View());
    }

    /** `scheduler.schedule(req)` */
    method Ask(r: Request, inputs: Inputs, ghost s: Scheduler) returns (answer: Answer)
      requires scheduler.Wired() && s == scheduler.View() && Ready(s) && (s.inflight != [] ==> s.nodes != [])
      modifies scheduler`inflight, scheduler`scheduled, scheduler`preempted, scheduler.admission, scheduler.nodes
      modifies scheduler.manager`prefixCache, scheduler.manager`stats, scheduler.manager`view
      modifies scheduler.manager.policy`state, scheduler.manager.clock`tick, scheduler.manager.pool
      ensures scheduler.Wired() && (scheduler.View(), answer) == Schedule(s, r, inputs)
    {
      hide *;
      ViewParts();
      answer := scheduler.Schedule(r, inputs);
    }

    /** One round of the loop. */
    method Serve(r: Request, inputs: Inputs, draws: nat -> Inputs, ghost s: Scheduler) returns (outcome: Outcome)
      requires scheduler.Wired() && s == scheduler.View() && Good(s, []) && NewIds(s, [r])
      modifies scheduler`inflight, scheduler`scheduled, scheduler`preempted, scheduler.admission, scheduler.nodes
      modifies scheduler.manager`prefixCache, scheduler.manager`stats, scheduler.manager`view
      modifies scheduler.manager.policy`state, scheduler.manager.clock`tick, scheduler.manager.pool
      ensures scheduler.Wired() && (scheduler.View(), outcome) == ServeOne(s, r, inputs, draws)
    {
      hide *;
      ghost var t, expected := RoundParts(s, r, inputs, draws);
      ViewParts();
      var answer := Ask(r, inputs, s);
      assert scheduler.View() == t && answer == expected;
      if answer.Placed? {
        outcome := Execute(answer.node, r, draws, t, s.nodes[answer.node].id);
      } else {
        outcome := Rejected;
      }
    }

    /** The loop over the trace. */
    method Run(trace: seq<Request>, inputs: nat -> Inputs, draws: nat -> nat -> Inputs) returns (outcomes: seq<Outcome>)
      requires scheduler.Wired() && Good(scheduler.View(), []) && NewIds(scheduler.View(), trace)
      modifies scheduler`inflight, scheduler`scheduled, scheduler`preempted, scheduler.admission, scheduler.nodes
      modifies scheduler.manager`prefixCache, scheduler.manager`stats, scheduler.manager`view
      modifies scheduler.manager.policy`state, scheduler.manager.clock`tick, scheduler.manager.pool
      ensures scheduler.Wired() && Good(scheduler.View(), [])
      ensures (scheduler.View(), outcomes) == Replayed(old(scheduler.View()), trace, inputs, draws, 0)
    {
      hide *;
      ghost var goal := Replayed(scheduler.View(), trace, inputs, draws, 0);
      outcomes := [];
      assert trace[0..] == trace && outcomes + goal.1 == goal.1;
      for j := 0 to |trace|
        invariant scheduler.Wired() && Good(scheduler.View(), []) && NewIds(scheduler.View(), trace[j..])
        invariant Replayed(scheduler.View(), trace[j..], inputs, draws, j).0 == goal.0
        invariant outcomes + Replayed(scheduler.View(), trace[j..], inputs, draws, j).1 == goal.1
      {
        ReplayedNext(scheduler.View(), trace[j..], inputs, draws, j);
        assert trace[j..][0] == trace[j] && trace[j..][1..] == trace[j + 1..];
        var outcome := Serve(trace[j], inputs(j), draws(j), scheduler.View());
        outcomes := outcomes + [outcome];
      }
      assert trace[|trace|..] == [] && outcomes + [] == outcomes;
      ReplayedNone(scheduler.View(), inputs, draws, |trace|);
    }

    lemma ViewParts()
      ensures |scheduler.View().nodes| == |scheduler.nodes| && scheduler.View().inflight == scheduler.inflight
      ensures forall k :: 0 <= k < |scheduler.nodes| ==> scheduler.View().nodes[k].id == scheduler.nodes[k].id
    {
    }
  }

  lemma CacheRoundIs(s: Scheduler, node: string, r: Request)
    requires Ready(s) && s.cache.Serves(node)
    ensures Allocatable(s.cache, node)
    ensures var a := KVCache.Allocate(s.cache, node, r);
            && InPool(a.cache, a.Blocks()) && a.cache.Serves(node)
            && CacheRound(s, node, r) == s.(cache := Free(a.cache, node, a.Blocks(), true))
            && Recorded(s, node, r) == Completed(node, |a.Blocks()|, a.Hit(), |a.Blocks()| < r.KvBlocksNeeded())
  {
    RoundIsCallable(s.cache, node, r);
  }

  lemma PlacedParts(t: Scheduler, node: string, r: Request, k: nat, draws: nat -> Inputs)
    requires JustPlaced(t, node, r, k)
    ensures Ready(t) && t.cache.Serves(node)
    ensures var u := CacheRound(t, node, r);
            && Good(u, []) && AssignedTo(u, r, k)
            && AfterPlacing(t, node, r, k, draws) == (OnComplete(u, r, k, draws), Recorded(t, node, r))
  {
  }

  lemma ReplayedNone(s: Scheduler, inputs: nat -> Inputs, draws: nat -> nat -> Inputs, j: nat)
    requires Good(s, []) && NewIds(s, [])
    ensures Replayed(s, [], inputs, draws, j) == (s, [])
  {
  }

  lemma ReplayedNext(s: Scheduler, trace: seq<Request>, inputs: nat -> Inputs, draws: nat -> nat -> Inputs, j: nat)
    requires Good(s, []) && trace != [] && NewIds(s, trace)
    ensures NewIds(s, [trace[0]])
    ensures var (t, outcome) := ServeOne(s, trace[0], inputs(j), draws(j));
            && Good(t, []) && NewIds(t, trace[1..])
            && var (u, rest) := Replayed(t, trace[1..], inputs, draws, j + 1);
               Replayed(s, trace, inputs, draws, j) == (u, [outcome] + rest)
  {
    NextRound(s, trace, inputs(j), draws(j));
  }

  /** A round, piece by piece. */
  lemma RoundParts(s: Scheduler, r: Request, inputs: Inputs, draws: nat -> Inputs)
    returns (t: Scheduler, answer: Answer)
    requires Good(s, []) && NewIds(s, [r])
    ensures Ready(s) && (s.inflight != [] ==> s.nodes != []) && (t, answer) == Schedule(s, r, inputs)
    ensures Good(t, []) && Ready(t) && Good(ServeOne(s, r, inputs, draws).0, [])
    ensures !answer.Placed? ==> ServeOne(s, r, inputs, draws) == (t, Rejected)
    ensures answer.Placed? ==>
              && answer.node < |s.nodes| && JustPlaced(t, s.nodes[answer.node].id, r, answer.node)
              && ServeOne(s, r, inputs, draws) == AfterPlacing(t, s.nodes[answer.node].id, r, answer.node, draws)
  {
    GoodArrival(s, r);
    assert [r] + [] == [r];
    ScheduleAnswers(s, r, inputs);
    RoundIsARun(s, r, inputs, draws);
    t, answer := Schedule(s, r, inputs).0, Schedule(s, r, inputs).1;
    hide Schedule, OnComplete, KVCache.Allocate, LegalRun, KVAwareRuns.Run, RoundEvents;
    if answer.Placed? {
      CacheRoundKeeps(t, s.nodes[answer.node].id, r);
      RoundCompletes(s, t, CacheRound(t, s.nodes[answer.node].id, r), r, answer.node);
    }
  }
}
