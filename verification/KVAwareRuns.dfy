/** What the KV-aware scheduler keeps over every run of arrivals, completions and failures,
    with any cache operations that others perform on the shared manager in between. */
module KVAwareRuns {
  import opened Models
  import opened BlockPools
  import opened KVCache
  import opened KVCacheProofs
  import opened KVCacheRuns
  import opened Placement
  import opened Admission
  import opened KVAware

  // -------------------------------------------------------------- invariant

  function EntryIds(es: seq<Entry>): (r: seq<string>)
    ensures |r| == |es| && forall i :: 0 <= i < |es| ==> r[i] == es[i].id
  {
    seq(|es|, i requires 0 <= i < |es| => es[i].id)
  }

  function RequestIds(rs: seq<Request>): (r: seq<string>)
    ensures |r| == |rs| && forall i :: 0 <= i < |rs| ==> r[i] == rs[i].id
  {
    seq(|rs|, i requires 0 <= i < |rs| => rs[i].id)
  }

  /** The ids in flight, waiting, and popped but not yet scheduled again. */
  ghost function LiveIds(inflight: seq<Entry>, queue: seq<Request>, popped: seq<Request>): multiset<string> {
    multiset(EntryIds(inflight)) + multiset(RequestIds(queue)) + multiset(RequestIds(popped))
  }

  ghost predicate AtMostOnce(m: multiset<string>) {
    forall x :: m[x] <= 1
  }

  ghost predicate Good(s: Scheduler, popped: seq<Request>) {
    && Ready(s) && Balanced(s)
    && s.gate.Ok() && s.gate.memReject > 0.60 && s.gate.memQueue > 0.60
    && AtMostOnce(LiveIds(s.inflight, s.gate.queue, popped))
  }

  lemma GoodIsAble(s: Scheduler, popped: seq<Request>)
    requires Good(s, popped)
    ensures Able(s)
  {
  }

  // --------------------------------------------------------------- one call

  ghost predicate SameShape(a: seq<Node>, b: seq<Node>) {
    |a| == |b| && forall k :: 0 <= k < |a| ==> b[k].id == a[k].id && b[k].kvTotal == a[k].kvTotal
  }

  /** What every event does to the rest of the state. */
  ghost predicate Steps(s: Scheduler, t: Scheduler) {
    && SameShape(s.nodes, t.nodes) && t.preemption == s.preemption
    && t.gate.maxQueue == s.gate.maxQueue && t.gate.memReject == s.gate.memReject && t.gate.memQueue == s.gate.memQueue
  }

  lemma StepsTrans(s: Scheduler, t: Scheduler, u: Scheduler)
    requires Steps(s, t) && Steps(t, u)
    ensures Steps(s, u)
  {
  }

  lemma IdsOfHead(r: Request, rest: seq<Request>)
    ensures multiset(RequestIds([r] + rest)) == multiset{r.id} + multiset(RequestIds(rest))
    ensures multiset(RequestIds(rest + [r])) == multiset{r.id} + multiset(RequestIds(rest))
  {
    assert RequestIds([r] + rest) == [r.id] + RequestIds(rest);
    assert RequestIds(rest + [r]) == RequestIds(rest) + [r.id];
  }

  lemma IdsOfEntry(es: seq<Entry>, e: Entry)
    ensures multiset(EntryIds(es + [e])) == multiset(EntryIds(es)) + multiset{e.id}
  {
    assert EntryIds(es + [e]) == EntryIds(es) + [e.id];
  }

  lemma FoundIsListed(es: seq<Entry>, id: string)
    ensures Find(es, id).Some? <==> id in multiset(EntryIds(es))
  {
    FindSpec(es, id);
    if Find(es, id).Some? {
      assert EntryIds(es)[Find(es, id).value] == id;
    }
  }

  /** A request about to be scheduled may go to the ledger, to the queue or nowhere. */
  lemma UniqueHead(s: Scheduler, r: Request, rest: seq<Request>)
    requires AtMostOnce(LiveIds(s.inflight, s.gate.queue, [r] + rest))
    ensures Find(s.inflight, r.id) == None
    ensures AtMostOnce(LiveIds(s.inflight, s.gate.queue, rest))
    ensures AtMostOnce(LiveIds(s.inflight, s.gate.queue + [r], rest))
    ensures forall node :: AtMostOnce(LiveIds(s.inflight + [EntryFor(r, node)], s.gate.queue, rest))
  {
    IdsOfHead(r, rest);
    IdsOfHead(r, s.gate.queue);
    FoundIsListed(s.inflight, r.id);
    var a, b, c := multiset(EntryIds(s.inflight)), multiset(RequestIds(s.gate.queue)), multiset(RequestIds(rest));
    Shift(a, b, c, r.id);
    forall node
      ensures AtMostOnce(LiveIds(s.inflight + [EntryFor(r, node)], s.gate.queue, rest))
    {
      IdsOfEntry(s.inflight, EntryFor(r, node));
    }
  }

  lemma Shift(a: multiset<string>, b: multiset<string>, c: multiset<string>, x: string)
    requires AtMostOnce(a + b + (multiset{x} + c))
    ensures x !in a && AtMostOnce(a + b + c) && AtMostOnce(a + (multiset{x} + b) + c) &&
              AtMostOnce((a + multiset{x}) + b + c)
  {
    var m := a + b + (multiset{x} + c);
    assert m == a + (multiset{x} + b) + c == (a + multiset{x}) + b + c;
    assert m[x] == a[x] + b[x] + 1 + c[x];
    forall y
      ensures (a + b + c)[y] <= m[y] <= 1
    {
    }
  }

  /** Placing a request keeps everything. */
  lemma CommitKeeps(s: Scheduler, r: Request, rest: seq<Request>, k: nat)
    requires Good(s, [r] + rest) && k < |s.nodes| && s.nodes[k].Fits(r)
    ensures Good(Commit(s, r, k), rest) && Steps(s, Commit(s, r, k)) && Commit(s, r, k).gate == s.gate
    ensures Commit(s, r, k).inflight == s.inflight + [EntryFor(r, s.nodes[k].id)]
  {
    var t := Commit(s, r, k);
    InvIndexInPool(s.cache);
    UniqueHead(s, r, rest);
    ApplyKeepsInv(s.cache, AllocateOp(s.nodes[k].id, r));
    CommitKeepsBooks(s, r, k);
  }

  lemma CommitKeepsBooks(s: Scheduler, r: Request, k: nat)
    requires Ready(s) && Balanced(s) && k < |s.nodes| && s.nodes[k].Fits(r) && Find(s.inflight, r.id) == None
    ensures Balanced(Commit(s, r, k)) && SameShape(s.nodes, Commit(s, r, k).nodes) && Sized(Commit(s, r, k).nodes)
  {
    var t := Commit(s, r, k);
    forall j | 0 <= j < |s.nodes|
      ensures NodeBalanced(t.nodes[j], t.inflight)
    {
      CommitBalances(s.nodes, s.inflight, r, k, j);
    }
  }

  /** One schedule call: the invariant, the accounting, and what becomes of the queue. */
  lemma ScheduleKeeps(s: Scheduler, r: Request, rest: seq<Request>, inputs: Inputs)
    requires Good(s, [r] + rest)
    ensures var (t, answer) := Schedule(s, r, inputs);
            && Good(t, rest) && Steps(s, t)
            && t.gate.Accounted() == s.gate.Accounted() + 1
            && (t.gate.queue == s.gate.queue ||
                  (|s.gate.queue| < s.gate.maxQueue && t.gate.queue == s.gate.queue + [r]))
            && (r.sla.Batch? && |s.gate.queue| < s.gate.maxQueue ==> t.gate.rejected == s.gate.rejected)
            && (answer.Placed? ==> HasHeadroom(s.nodes, s.cache, r.KvBlocksNeeded()))
  {
    var (gate, decision) := s.gate.Decide(s.nodes, s.cache, r, inputs.draw);
    BalancedPressure(s);
    DecideAccounts(s.gate, s.nodes, s.cache, r, inputs.draw);
    LowPressureDecisions(s.gate, s.nodes, s.cache, r, inputs.draw);
    UniqueHead(s, r, rest);
    var t := s.(gate := gate);
    if decision.Accept? {
      assert t.gate.queue == s.gate.queue;
      AcceptKeeps(t, r, rest, Hints(s.nodes, s.cache, inputs.ttft));
    }
  }

  lemma AcceptKeeps(t: Scheduler, r: Request, rest: seq<Request>, hints: nat -> Hint)
    requires Good(t, [r] + rest)
    ensures var choice := Place(t.nodes, r, hints);
            && (choice.Some? ==>
                  && choice.value < |t.nodes| && t.nodes[choice.value].Fits(r)
                  && Good(Commit(t, r, choice.value), rest) && Steps(t, Commit(t, r, choice.value))
                  && Commit(t, r, choice.value).gate == t.gate)
            && Good(TryPreempt(t, r).0, rest) && Steps(t, TryPreempt(t, r).0) && TryPreempt(t, r).0.gate == t.gate
  {
    PlaceFindsBest(t.nodes, r, hints);
    UniqueHead(t, r, rest);
    if Place(t.nodes, r, hints).Some? {
      CommitKeeps(t, r, rest, Place(t.nodes, r, hints).value);
    }
    if t.preemption && r.sla.Realtime? && t.inflight != [] {
      var gone := MaybeEvictSpec(t.cache, t.nodes[MostLoaded(t.nodes)].id, r.KvBlocksNeeded());
    }
  }

  // --------------------------------------------------------- completing one

  /** The node handed to on_complete and on_fail is the one the request was placed on. */
  ghost predicate AssignedTo(s: Scheduler, r: Request, k: nat) {
    k < |s.nodes| && forall i :: 0 <= i < |s.inflight| && s.inflight[i].id == r.id ==>
      s.inflight[i].node == s.nodes[k].id
  }

  lemma IdsWithout(es: seq<Entry>, i: nat)
    requires i < |es|
    ensures multiset(EntryIds(es)) == multiset(EntryIds(es[..i] + es[i + 1..])) + multiset{es[i].id}
  {
    assert EntryIds(es) == EntryIds(es[..i]) + [es[i].id] + EntryIds(es[i + 1..]);
    assert EntryIds(es[..i] + es[i + 1..]) == EntryIds(es[..i]) + EntryIds(es[i + 1..]);
  }

  lemma FewerIds(a: multiset<string>, b: multiset<string>, c: multiset<string>, x: string)
    requires AtMostOnce((a + multiset{x}) + b + c)
    ensures AtMostOnce(a + b + c)
  {
    forall y
      ensures (a + b + c)[y] <= ((a + multiset{x}) + b + c)[y] <= 1
    {
    }
  }

  lemma RetireKeepsBooks(s: Scheduler, r: Request, k: nat)
    requires Balanced(s) && AssignedTo(s, r, k)
    ensures Balanced(Retire(s, r, k)) && SameShape(s.nodes, Retire(s, r, k).nodes)
  {
    FindSpec(s.inflight, r.id);
    if Find(s.inflight, r.id).Some? {
      var i := Find(s.inflight, r.id).value;
      var t := Retire(s, r, k);
      MemoryWithout(s.inflight, i);
      forall j | 0 <= j < |s.nodes|
        ensures NodeBalanced(t.nodes[j], t.inflight)
      {
        ReleaseBalances(s.nodes, s.inflight, i, k, j);
      }
    }
  }

  lemma RetireKeeps(s: Scheduler, r: Request, k: nat)
    requires Good(s, []) && AssignedTo(s, r, k)
    ensures Good(Retire(s, r, k), []) && Steps(s, Retire(s, r, k))
    ensures Retire(s, r, k).gate == s.gate && Retire(s, r, k).cache == s.cache
    ensures Find(Retire(s, r, k).inflight, r.id) == None
  {
    hide AtMostOnce, LiveIds, Balanced, Inv, Find, NodeBalanced;
    var t := Retire(s, r, k);
    RetireKeepsBooks(s, r, k);
    RetireDropsId(s, r, k);
    BalancedPressure(t);
    assert Known(t.nodes, t.cache);
  }

  lemma RetireDropsId(s: Scheduler, r: Request, k: nat)
    requires AssignedTo(s, r, k) && AtMostOnce(LiveIds(s.inflight, s.gate.queue, []))
    ensures var t := Retire(s, r, k);
            AtMostOnce(LiveIds(t.inflight, t.gate.queue, [])) && Find(t.inflight, r.id) == None
  {
    hide AtMostOnce, Find, EntryIds;
    var t := Retire(s, r, k);
    var a, b, c := multiset(EntryIds(t.inflight)), multiset(RequestIds(s.gate.queue)), multiset(RequestIds([]));
    FindSpec(s.inflight, r.id);
    FoundIsListed(t.inflight, r.id);
    if Find(s.inflight, r.id).Some? {
      IdsWithout(s.inflight, Find(s.inflight, r.id).value);
      FewerIds(a, b, c, r.id);
      OnceIsGone(a, b, c, r.id);
    }
  }

  lemma OnceIsGone(a: multiset<string>, b: multiset<string>, c: multiset<string>, x: string)
    requires AtMostOnce((a + multiset{x}) + b + c)
    ensures x !in a
  {
    assert ((a + multiset{x}) + b + c)[x] == a[x] + 1 + b[x] + c[x];
  }

  // ---------------------------------------------------------------- draining

  lemma DrainOne(s: Scheduler, popped: seq<Request>, inputs: nat -> Inputs, j: nat)
    requires Good(s, popped) && popped != []
    ensures Able(s)
    ensures var t := Schedule(s, popped[0], inputs(j)).0;
            && Good(t, popped[1..]) && Able(t)
            && Drain(s, popped, inputs, j) == Drain(t, popped[1..], inputs, j + 1)
  {
    assert popped == [popped[0]] + popped[1..];
    ScheduleKeeps(s, popped[0], popped[1..], inputs(j));
  }

  /** Draining accounts for each decision, keeps what still waits in front, and rejects no
      BATCH request as long as there is room for all that were popped. */
  lemma {:induction false} DrainFacts(s: Scheduler, popped: seq<Request>, inputs: nat -> Inputs, j: nat)
    requires Good(s, popped)
    ensures var t := Drain(s, popped, inputs, j);
            && Good(t, []) && Steps(s, t)
            && t.gate.Accounted() == s.gate.Accounted() + |popped|
            && s.gate.queue <= t.gate.queue && |t.gate.queue| <= |s.gate.queue| + |popped|
            && (AllBatch(popped) && |s.gate.queue| + |popped| <= s.gate.maxQueue ==> t.gate.rejected == s.gate.rejected)
    decreases |popped|
  {
    if popped == [] {
      StepsSelf(s);
    } else {
      assert popped == [popped[0]] + popped[1..];
      ScheduleKeeps(s, popped[0], popped[1..], inputs(j));
      DrainOne(s, popped, inputs, j);
      hide Good, Schedule, Gate.Accounted, SameShape;
      var t := Schedule(s, popped[0], inputs(j)).0;
      DrainFacts(t, popped[1..], inputs, j + 1);
      StepsTrans(s, t, Drain(t, popped[1..], inputs, j + 1));
    }
  }

  lemma StepsSelf(s: Scheduler)
    requires Ready(s)
    ensures Steps(s, s)
  {
  }

  predicate AllBatch(rs: seq<Request>) {
    forall i :: 0 <= i < |rs| ==> rs[i].sla.Batch?
  }

  lemma PopKeeps(s: Scheduler)
    requires Good(s, [])
    ensures var (t, out) := Popped(s);
            && Good(t, out) && Steps(s, t)
            && out + t.gate.queue == s.gate.queue && |out| == Min(DRAIN, |s.gate.queue|) && AllBatch(out)
            && t.gate.Accounted() == s.gate.Accounted() && t.gate.rejected == s.gate.rejected
            && LiveIds(t.inflight, t.gate.queue, out) == LiveIds(s.inflight, s.gate.queue, [])
  {
    PopSplits(s.gate, s.nodes, DRAIN);
    BalancedPressure(s);
    ClusterPressureBound(s.nodes);
    var (t, out) := Popped(s);
    assert RequestIds(s.gate.queue) == RequestIds(out) + RequestIds(t.gate.queue);
    assert LiveIds(t.inflight, t.gate.queue, out) == LiveIds(s.inflight, s.gate.queue, []);
  }

  lemma RetireLeaves(s: Scheduler, r: Request, k: nat)
    requires k < |s.nodes|
    ensures Retire(s, r, k) == s.(nodes := Retire(s, r, k).nodes, inflight := Retire(s, r, k).inflight)
  {
  }

  /** A completion is a drain of what it pops. */
  lemma CompletionDrains(s: Scheduler, r: Request, k: nat, inputs: nat -> Inputs)
    returns (p: Scheduler, out: seq<Request>)
    requires Good(s, []) && AssignedTo(s, r, k)
    ensures Able(s) && Able(p) && Good(p, out) && OnComplete(s, r, k, inputs) == Drain(p, out, inputs, 0)
    ensures Sized(Retire(s, r, k).nodes) && Popped(Retire(s, r, k)) == (p, out)
    ensures p == Retire(s, r, k).(gate := p.gate) && p.cache == s.cache && p.preempted == s.preempted
    ensures out + p.gate.queue == s.gate.queue && AllBatch(out) && |out| == Min(DRAIN, |s.gate.queue|)
    ensures p.gate.useModel == s.gate.useModel && p.gate.maxQueue == s.gate.maxQueue
    ensures LiveIds(p.inflight, p.gate.queue, out) == LiveIds(Retire(s, r, k).inflight, s.gate.queue, [])
  {
    hide Drain, Retire, LiveIds, AtMostOnce, NodeBalanced, Inv, Known, Gate.Ok, MemoryOfBlocks, DistinctIds;
    RetireKeeps(s, r, k);
    RetireLeaves(s, r, k);
    PopKeeps(Retire(s, r, k));
    p, out := Popped(Retire(s, r, k)).0, Popped(Retire(s, r, k)).1;
  }

  /** A completion frees the node, re-decides the first 16 waiting requests, and drops none of
      them: those deferred again find room at the tail of the queue. */
  lemma CompletionDropsNobody(s: Scheduler, r: Request, k: nat, inputs: nat -> Inputs)
    requires Good(s, []) && AssignedTo(s, r, k)
    ensures var t := OnComplete(s, r, k, inputs);
            && Good(t, []) && Steps(s, t)
            && t.gate.rejected == s.gate.rejected
            && t.gate.Accounted() == s.gate.Accounted() + Min(16, |s.gate.queue|)
            && s.gate.queue[Min(16, |s.gate.queue|)..] <= t.gate.queue
  {
    RetireKeeps(s, r, k);
    var f := Retire(s, r, k);
    PopKeeps(f);
    var (p, out) := Popped(f);
    var t := OnComplete(s, r, k, inputs);
    DrainFacts(p, out, inputs, 0);
    hide Good, Gate.Accounted, Drain, SameShape;
    StepsTrans(s, f, p);
    StepsTrans(s, p, t);
    assert s.gate.queue[Min(DRAIN, |s.gate.queue|)..] == p.gate.queue;
  }

  // ------------------------------------------------------------------- runs

  datatype Event =
    | Arrive(request: Request, inputs: Inputs)
    | Completes(request: Request, node: nat, draws: nat -> Inputs)
    | Fails(request: Request, at: Option<nat>)
    | Caches(op: Op)

  /** New requests have new ids; a finished or failed request comes with its node; whoever
      shares the manager, as the benchmark harness does, may allocate, free with kept
      prefixes, evict or add nodes. */
  ghost predicate Legal(s: Scheduler, e: Event)
    requires Good(s, [])
  {
    match e
    case Arrive(r, _) => AtMostOnce(LiveIds(s.inflight, s.gate.queue, [r]))
    case Completes(r, k, _) => AssignedTo(s, r, k)
    case Fails(r, at) => if at.Some? then AssignedTo(s, r, at.value) else Find(s.inflight, r.id) == None
    case Caches(op) => Callable(s.cache, op)
  }

  ghost function Step(s: Scheduler, e: Event): Scheduler
    requires Good(s, []) && Legal(s, e)
  {
    match e
    case Arrive(r, inputs) => GoodArrival(s, r); Schedule(s, r, inputs).0
    case Completes(r, k, draws) => OnComplete(s, r, k, draws)
    case Fails(r, at) => OnFail(s, r, at)
    case Caches(op) => InvIndexInPool(s.cache); s.(cache := KVCache.Apply(s.cache, op))
  }

  lemma GoodArrival(s: Scheduler, r: Request)
    requires Good(s, []) && AtMostOnce(LiveIds(s.inflight, s.gate.queue, [r]))
    ensures Good(s, [r] + [])
  {
    assert [r] + [] == [r];
  }

  /** How many times an event makes the gate decide. */
  function Decisions(s: Scheduler, e: Event): nat {
    match e
    case Arrive(_, _) => 1
    case Completes(_, _, _) => Min(DRAIN, |s.gate.queue|)
    case Fails(_, _) => 0
    case Caches(_) => 0
  }

  /** Every event keeps the invariant, accounts for each decision and only moves the queue
      forward. */
  lemma StepKeeps(s: Scheduler, e: Event)
    requires Good(s, []) && Legal(s, e)
    ensures var t := Step(s, e);
            && Good(t, []) && Steps(s, t)
            && t.gate.Accounted() == s.gate.Accounted() + Decisions(s, e)
            && s.gate.queue[if e.Completes? then Min(DRAIN, |s.gate.queue|) else 0..] <= t.gate.queue
  {
    match e {
      case Arrive(r, inputs) =>
        GoodArrival(s, r);
        ScheduleKeeps(s, r, [], inputs);
      case Completes(r, k, draws) =>
        CompletionDropsNobody(s, r, k, draws);
      case Fails(r, at) =>
        if at.Some? {
          RetireKeeps(s, r, at.value);
        }
      case Caches(op) =>
        InvIndexInPool(s.cache);
        ApplyKeepsInv(s.cache, op);
    }
  }

  ghost predicate LegalRun(s: Scheduler, events: seq<Event>)
    requires Good(s, [])
    decreases |events|
  {
    events == [] ||
    (Legal(s, events[0]) && (StepKeeps(s, events[0]); LegalRun(Step(s, events[0]), events[1..])))
  }

  /** The state after a run.  That it is Good is the safety theorem: every node's counters are
      the sums over its requests in flight and stay within its pool, no release is clamped,
      the cache manager stays consistent, and only BATCH requests wait. */
  ghost function Run(s: Scheduler, events: seq<Event>): (t: Scheduler)
    requires Good(s, []) && LegalRun(s, events)
    ensures Good(t, []) && Steps(s, t)
    decreases |events|
  {
    if events == [] then s
    else
      StepKeeps(s, events[0]);
      var t := Step(s, events[0]);
      var u := Run(t, events[1..]);
      StepsTrans(s, t, u);
      u
  }

  /** A cluster of idle nodes with an empty queue and the default thresholds, whatever the
      manager already holds. */
  lemma StartIsGood(s: Scheduler)
    requires Ready(s) && s.inflight == [] && DistinctIds(s.nodes)
    requires forall k :: 0 <= k < |s.nodes| ==> s.nodes[k].Idle() && s.nodes[k].KvWithinShare()
    requires s.gate.queue == [] && s.gate.memReject == 0.95 && s.gate.memQueue == 0.85
    ensures Good(s, [])
  {
    assert LiveIds(s.inflight, s.gate.queue, []) == multiset{};
  }

  // ---------------------------------------------------- memory never presses

  /** In every reachable state each node's memory pressure is at most 0.60, and whether a
      request fits is decided by KV blocks alone. */
  lemma PressureStaysLow(s: Scheduler, events: seq<Event>, k: nat, r: Request)
    requires Good(s, []) && LegalRun(s, events) && k < |s.nodes|
    ensures var t := Run(s, events);
            && k < |t.nodes| && t.nodes[k].id == s.nodes[k].id
            && t.nodes[k].totalMemory > 0.0 && t.nodes[k].MemoryPressure() <= 0.60
            && (t.nodes[k].Fits(r) <==> SumBlocks(t.inflight, t.nodes[k].id) + r.KvBlocksNeeded() <= s.nodes[k].kvTotal)
  {
    var t := Run(s, events);
    BalancedIsLow(t.nodes[k], t.inflight, r.KvBlocksNeeded());
    PressureOfNode(t.nodes[k]);
  }

  /** So the memory branches of the gate are unreachable: after any run, a BATCH request is
      accepted or queued, and any other is refused only for load, spill risk or lack of
      cache blocks. */
  lemma MemoryBranchesAreDead(s: Scheduler, events: seq<Event>, r: Request, d: Draw)
    requires Good(s, []) && LegalRun(s, events)
    ensures var t := Run(s, events);
            && Sized(t.nodes) && Known(t.nodes, t.cache)
            && var decision := t.gate.Decide(t.nodes, t.cache, r, d).1;
               && (decision.Queue? || decision.Reject? ==> !MemoryReason(decision.reason))
               && (r.sla.Batch? ==> !decision.Reject?)
  {
    var t := Run(s, events);
    BalancedPressure(t);
    LowPressureDecisions(t.gate, t.nodes, t.cache, r, d);
  }

  // ------------------------------------------------------------- accounting

  ghost function TotalDecisions(s: Scheduler, events: seq<Event>): nat
    requires Good(s, []) && LegalRun(s, events)
    decreases |events|
  {
    if events == [] then 0
    else
      StepKeeps(s, events[0]);
      Decisions(s, events[0]) + TotalDecisions(Step(s, events[0]), events[1..])
  }

  /** Accepted, rejected and waiting requests add up to the decisions taken, over every run,
      although draining counts a request as accepted before it is decided again. */
  lemma {:induction false} AdmissionConserves(s: Scheduler, events: seq<Event>)
    requires Good(s, []) && LegalRun(s, events)
    ensures Run(s, events).gate.Accounted() == s.gate.Accounted() + TotalDecisions(s, events)
    decreases |events|
  {
    hide Good, Legal, Step, Steps, Gate.Accounted, Decisions;
    if events != [] {
      StepKeeps(s, events[0]);
      AdmissionConserves(Step(s, events[0]), events[1..]);
    }
  }

  // -------------------------------------------------------- bounded waiting

  function Completions(events: seq<Event>): nat {
    if events == [] then 0 else (if events[0].Completes? then 1 else 0) + Completions(events[1..])
  }

  /** Whatever arrives in between, each completion moves a waiting request 16 places forward. */
  lemma {:induction false} QueueAdvances(s: Scheduler, events: seq<Event>, i: nat)
    requires Good(s, []) && LegalRun(s, events)
    requires i < |s.gate.queue| && 16 * Completions(events) <= i
    ensures var j := i - 16 * Completions(events);
            j < |Run(s, events).gate.queue| && Run(s, events).gate.queue[j] == s.gate.queue[i]
    decreases |events|
  {
    hide Good, Legal, Step, Steps, Gate.Accounted, Decisions;
    if events != [] {
      StepKeeps(s, events[0]);
      var t := Step(s, events[0]);
      var moved := if events[0].Completes? then 16 else 0;
      assert t.gate.queue[i - moved] == s.gate.queue[moved..][i - moved] == s.gate.queue[i];
      QueueAdvances(t, events[1..], i - moved);
    }
  }

  /** A request at index i of the queue is popped, and so decided again, by the completion
      number i / 16 + 1. */
  lemma BoundedWaiting(s: Scheduler, events: seq<Event>, i: nat, r: Request, k: nat)
    requires Good(s, []) && LegalRun(s, events) && i < |s.gate.queue|
    requires Completions(events) == i / 16
    requires AssignedTo(Run(s, events), r, k)
    ensures var f := Retire(Run(s, events), r, k);
            && Good(f, [])
            && i % 16 < |Popped(f).1| && Popped(f).1[i % 16] == s.gate.queue[i]
  {
    SplitIndex(i);
    hide Good, Retire, Popped, Steps, Run, LegalRun, AssignedTo;
    QueueAdvances(s, events, i);
    NextPop(Run(s, events), r, k, i % 16);
  }

  lemma SplitIndex(i: nat)
    ensures 16 * (i / 16) + i % 16 == i && i % 16 < 16
  {
  }

  /** A completion pops the first 16 waiting requests in order. */
  lemma NextPop(t: Scheduler, r: Request, k: nat, j: nat)
    requires Good(t, []) && AssignedTo(t, r, k) && j < 16 && j < |t.gate.queue|
    ensures var f := Retire(t, r, k);
            Good(f, []) && j < |Popped(f).1| && Popped(f).1[j] == t.gate.queue[j]
  {
    RetireKeeps(t, r, k);
    PopKeeps(Retire(t, r, k));
    var (p, out) := Popped(Retire(t, r, k));
    assert (out + p.gate.queue)[j] == out[j];
  }

  // ---------------------------------------------- what never becomes better

  /** Nothing is evictable.  The scheduler itself never unpins anything, because on_complete
      frees no blocks. */
  ghost predicate AllPinned(c: Cache) {
    forall i :: 0 <= i < |c.blocks| && c.blocks[i].tokens > 0 ==> c.blocks[i].pinned
  }

  lemma NoCandidates(c: Cache, node: string, needed: nat)
    requires Inv(c) && c.Serves(node) && AllPinned(c)
    ensures Numbered(c.blocks) && KVCache.MaybeEvict(c, node, needed) == c && ToEvict(c, node, needed) == 0
  {
    InvNumbered(c);
    VictimIsCandidate(c, node);
    assert Ids(c.blocks, node, Candidate) == {};
  }

  lemma ServedKeepsPinned(c: Cache, a: Allocation, node: string, r: Request, gone: set<nat>)
    requires Served(c, a, node, r, gone) && AllPinned(c)
    ensures AllPinned(a.cache)
  {
    hide IndexLess, StatsServed, SameKind;
  }

  /** The headroom that admission control sees on every node, before and after. */
  ghost predicate HeadroomShrinks(nodes: seq<Node>, c: Cache, d: Cache) {
    Known(nodes, c) && Known(nodes, d)
    && forall k :: 0 <= k < |nodes| ==> d.FreeBlocks(nodes[k].id) <= c.FreeBlocks(nodes[k].id)
  }

  /** Three kinds of runs: everything live stays pinned; preemption is off and nobody else
      forces evictions; or just nobody else forces evictions. */
  datatype Quiet = StaysPinned | PreemptionOff | NoOutsideEviction

  ghost predicate Calm(s: Scheduler, q: Quiet) {
    match q
    case StaysPinned => AllPinned(s.cache)
    case PreemptionOff => !s.preemption
    case NoOutsideEviction => true
  }

  /** The cache operations of others that keep it so. */
  predicate Tame(e: Event, q: Quiet) {
    e.Caches? ==> if q.StaysPinned? then !e.op.FreeOp? else !e.op.ForceEvictOp?
  }

  /** Headroom only shrinks, unless a preemption has freed blocks, which in the first two kinds
      of runs none does. */
  ghost predicate Still(s: Scheduler, t: Scheduler, q: Quiet) {
    && SameShape(s.nodes, t.nodes) && Known(s.nodes, s.cache) && Known(s.nodes, t.cache)
    && s.preempted <= t.preempted && (!q.NoOutsideEviction? ==> t.preempted == s.preempted)
    && (t.preempted == s.preempted ==> HeadroomShrinks(s.nodes, s.cache, t.cache))
    && Calm(t, q)
  }

  lemma StillSelf(s: Scheduler, popped: seq<Request>, q: Quiet)
    requires Good(s, popped) && Calm(s, q)
    ensures Still(s, s, q)
  {
  }

  lemma StillTrans(s: Scheduler, t: Scheduler, u: Scheduler, q: Quiet)
    requires Still(s, t, q) && Still(t, u, q)
    ensures Still(s, u, q)
  {
  }

  lemma ApplyIsStill(nodes: seq<Node>, c: Cache, op: Op, q: Quiet)
    requires Inv(c) && IndexInPool(c) && Callable(c, op) && Known(nodes, c)
    requires if q.StaysPinned? then AllPinned(c) && !op.FreeOp? else !op.ForceEvictOp?
    ensures Known(nodes, KVCache.Apply(c, op)) && HeadroomShrinks(nodes, c, KVCache.Apply(c, op))
    ensures q.StaysPinned? ==> AllPinned(KVCache.Apply(c, op))
  {
    ApplyKeepsInv(c, op);
    if q.StaysPinned? {
      match op {
        case AllocateOp(node, r) =>
          var gone := AllocateServed(c, node, r);
          ServedKeepsPinned(c, KVCache.Allocate(c, node, r), node, r, gone);
        case FreeOp(_, _) =>
        case ForceEvictOp(node, n) =>
          NoCandidates(c, node, n);
        case AddNodeOp(node, total) =>
          AddBlocksSpec(c, node, total);
          assert AllPinned(KVCache.Apply(c, op)) by { NewBlocksAreEmpty(c, node, total); }
      }
    }
    forall k | 0 <= k < |nodes|
      ensures KVCache.Apply(c, op).FreeBlocks(nodes[k].id) <= c.FreeBlocks(nodes[k].id)
    {
      StepConserves(c, op, nodes[k].id);
      if op.ForceEvictOp? {
        NoCandidates(c, op.node, op.n);
      }
    }
  }

  lemma NewBlocksAreEmpty(c: Cache, node: string, total: nat)
    requires AllPinned(c)
    ensures AllPinned(KVCache.AddNode(c, node, total))
  {
    AddBlocksSpec(c, node, total);
    forall i | 0 <= i < |c.blocks|
      ensures KVCache.AddBlocks(c, node, total).blocks[i] == c.blocks[i]
    {
      AddBlocksKeep(c, node, total, i);
    }
  }

  lemma CommitIsStill(s: Scheduler, r: Request, k: nat, q: Quiet)
    requires Ready(s) && Balanced(s) && k < |s.nodes| && s.nodes[k].Fits(r) && Find(s.inflight, r.id) == None
    requires Calm(s, q)
    ensures Still(s, Commit(s, r, k), q)
  {
    hide Inv, KVCache.Allocate, AllPinned, Balanced, Put;
    CommitKeepsBooks(s, r, k);
    InvIndexInPool(s.cache);
    ApplyIsStill(s.nodes, s.cache, AllocateOp(s.nodes[k].id, r), q);
  }

  lemma PreemptIsStill(s: Scheduler, r: Request, q: Quiet)
    requires Ready(s) && Calm(s, q) && (s.inflight != [] ==> s.nodes != [])
    ensures Still(s, TryPreempt(s, r).0, q)
  {
    if s.preemption && r.sla.Realtime? && s.inflight != [] {
      var node := s.nodes[MostLoaded(s.nodes)].id;
      if q.StaysPinned? {
        NoCandidates(s.cache, node, r.KvBlocksNeeded());
      } else if ToEvict(s.cache, node, r.KvBlocksNeeded()) == 0 {
        NothingToEvict(s.cache, node, r.KvBlocksNeeded());
      }
      PreemptKeepsReady(s, r);
    }
  }

  lemma GateIsStill(s: Scheduler, gate: Gate, q: Quiet)
    requires Ready(s) && Calm(s, q)
    ensures Still(s, s.(gate := gate), q)
  {
  }

  lemma ScheduleIsStill(s: Scheduler, r: Request, rest: seq<Request>, inputs: Inputs, q: Quiet)
    requires Good(s, [r] + rest) && Calm(s, q)
    ensures Still(s, Schedule(s, r, inputs).0, q)
  {
    hide Inv, AllPinned, Commit, TryPreempt, Gate.Decide, SameShape, HeadroomShrinks, Sized, SomeFits, Node.Fits,
         ScoreNode, Place, Hints, LiveIds, AtMostOnce, Find, NodeBalanced, MemoryOfBlocks, DistinctIds, Still, Calm,
         Known, Gate.Ok;
    UniqueHead(s, r, rest);
    var t := s.(gate := s.gate.Decide(s.nodes, s.cache, r, inputs.draw).0);
    GateIsStill(s, t.gate, q);
    CalmAfter(s, t, q);
    var hints := Hints(s.nodes, s.cache, inputs.ttft);
    PlaceFindsBest(s.nodes, r, hints);
    if Place(s.nodes, r, hints).Some? {
      CommitIsStill(t, r, Place(s.nodes, r, hints).value, q);
      StillTrans(s, t, Commit(t, r, Place(s.nodes, r, hints).value), q);
    } else {
      PreemptIsStill(t, r, q);
      StillTrans(s, t, TryPreempt(t, r).0, q);
    }
  }

  lemma CalmAfter(s: Scheduler, t: Scheduler, q: Quiet)
    requires Still(s, t, q)
    ensures Calm(t, q)
  {
  }

  lemma {:induction false} DrainIsStill(s: Scheduler, popped: seq<Request>, inputs: nat -> Inputs, j: nat, q: Quiet)
    requires Good(s, popped) && Calm(s, q)
    ensures Still(s, Drain(s, popped, inputs, j), q)
    decreases |popped|
  {
    hide Good, Schedule, SameShape, HeadroomShrinks, Calm, Known;
    if popped == [] {
      StillSelf(s, popped, q);
    } else {
      assert popped == [popped[0]] + popped[1..];
      DrainOne(s, popped, inputs, j);
      ScheduleIsStill(s, popped[0], popped[1..], inputs(j), q);
      var t := Schedule(s, popped[0], inputs(j)).0;
      DrainIsStill(t, popped[1..], inputs, j + 1, q);
      StillTrans(s, t, Drain(t, popped[1..], inputs, j + 1), q);
    }
  }

  lemma StepIsStill(s: Scheduler, e: Event, q: Quiet)
    requires Good(s, []) && Legal(s, e) && Calm(s, q) && Tame(e, q)
    ensures Still(s, Step(s, e), q)
  {
    match e {
      case Arrive(r, inputs) =>
        GoodArrival(s, r);
        ScheduleIsStill(s, r, [], inputs, q);
      case Completes(r, k, draws) =>
        RetireKeeps(s, r, k);
        var f := Retire(s, r, k);
        PopKeeps(f);
        var (p, out) := Popped(f);
        DrainIsStill(p, out, draws, 0, q);
        StillTrans(s, p, Step(s, e), q);
      case Fails(r, at) =>
        if at.Some? {
          RetireKeeps(s, r, at.value);
        }
      case Caches(op) =>
        InvIndexInPool(s.cache);
        ApplyIsStill(s.nodes, s.cache, op, q);
    }
  }

  lemma {:induction false} RunIsStill(s: Scheduler, events: seq<Event>, q: Quiet)
    requires Good(s, []) && LegalRun(s, events) && Calm(s, q)
    requires forall k :: 0 <= k < |events| ==> Tame(events[k], q)
    ensures Still(s, Run(s, events), q)
    decreases |events|
  {
    hide Good, Legal, Step, Steps, SameShape, HeadroomShrinks, Calm;
    if events == [] {
      StillSelf(s, [], q);
    } else {
      StepKeeps(s, events[0]);
      StepIsStill(s, events[0], q);
      RunIsStill(Step(s, events[0]), events[1..], q);
      StillTrans(s, Step(s, events[0]), Run(s, events), q);
    }
  }

  /** As long as nobody else frees on the manager, no preemption of any run frees a block:
      everything live is still pinned, so force_evict finds no candidate. */
  lemma PreemptionNeverFrees(s: Scheduler, events: seq<Event>, r: Request)
    requires Good(s, []) && LegalRun(s, events) && AllPinned(s.cache)
    requires forall k :: 0 <= k < |events| ==> !(events[k].Caches? && events[k].op.FreeOp?)
    ensures AllPinned(Run(s, events).cache) && Run(s, events).preempted == s.preempted
    ensures Run(s, events).inflight != [] ==> Run(s, events).nodes != []
    ensures TryPreempt(Run(s, events), r) == (Run(s, events), false)
  {
    RunIsStill(s, events, StaysPinned);
    var t := Run(s, events);
    if t.preemption && r.sla.Realtime? && t.inflight != [] {
      NoCandidates(t.cache, t.nodes[MostLoaded(t.nodes)].id, r.KvBlocksNeeded());
    }
  }

  /** Exactly when preempting for a request changes the cache: it may preempt at all, and the
      most loaded node has an unpinned live block but fewer vacant blocks than are needed.  Exactly
      then it is counted. */
  lemma PreemptionFreesIff(s: Scheduler, r: Request)
    requires Good(s, [])
    ensures var may := s.preemption && r.sla.Realtime? && s.inflight != [];
            TryPreempt(s, r).0 != s <==>
              may && (var node := s.nodes[MostLoaded(s.nodes)].id;
                      && Ids(s.cache.blocks, node, Candidate) != {}
                      && |Ids(s.cache.blocks, node, Vacant)| < r.KvBlocksNeeded())
    ensures TryPreempt(s, r).0.preempted == s.preempted + (if TryPreempt(s, r).0 != s then 1 else 0)
    ensures TryPreempt(s, r).0.nodes == s.nodes && TryPreempt(s, r).0.inflight == s.inflight
  {
    if s.preemption && r.sla.Realtime? && s.inflight != [] {
      var node := s.nodes[MostLoaded(s.nodes)].id;
      var gone := MaybeEvictSpec(s.cache, node, r.KvBlocksNeeded());
      hide Inv, Evicted, LeastRanked, Ids;
      assert ToEvict(s.cache, node, r.KvBlocksNeeded()) > 0 <==>
             Ids(s.cache.blocks, node, Candidate) != {} && |Ids(s.cache.blocks, node, Vacant)| < r.KvBlocksNeeded();
      assert ToEvict(s.cache, node, r.KvBlocksNeeded()) > 0 ==> TryPreempt(s, r).0.preempted == s.preempted + 1;
      SelectCountsVacant(s.cache, node);
      if ToEvict(s.cache, node, r.KvBlocksNeeded()) == 0 {
        NothingToEvict(s.cache, node, r.KvBlocksNeeded());
      }
    }
  }

  lemma SelectCountsVacant(c: Cache, node: string)
    ensures |Select(c.blocks, node, Vacant)| == |Ids(c.blocks, node, Vacant)|
  {
    SelectCount(c.blocks, node, Vacant);
  }

  lemma NothingToEvict(c: Cache, node: string, needed: nat)
    requires Inv(c) && c.Serves(node) && ToEvict(c, node, needed) == 0
    ensures Numbered(c.blocks) && KVCache.MaybeEvict(c, node, needed) == c
  {
    InvNumbered(c);
    VictimIsCandidate(c, node);
    SelectCount(c.blocks, node, Vacant);
  }

  /** While nobody else forces evictions, a node shows more free cache blocks than before only
      if some preemption of the run has freed blocks. */
  lemma HeadroomNeedsPreemption(s: Scheduler, events: seq<Event>, k: nat)
    requires Good(s, []) && LegalRun(s, events) && k < |s.nodes|
    requires forall i :: 0 <= i < |events| ==> !(events[i].Caches? && events[i].op.ForceEvictOp?)
    ensures var t := Run(s, events);
            && t.preempted >= s.preempted && s.cache.Serves(s.nodes[k].id) && t.cache.Serves(s.nodes[k].id)
            && (t.cache.FreeBlocks(s.nodes[k].id) > s.cache.FreeBlocks(s.nodes[k].id) ==> t.preempted > s.preempted)
  {
    RunIsStill(s, events, NoOutsideEviction);
  }

  /** Headroom lost stays lost until a preemption frees blocks: once no node shows enough free
      cache blocks, no request of that size is accepted in any later state that no such
      preemption precedes.  With everything live pinned and no outside free, or with preemption
      off and no outside eviction, no preemption ever does. */
  lemma ExhaustionIsPermanent(s: Scheduler, events: seq<Event>, r: Request, d: Draw, q: Quiet)
    requires Good(s, []) && LegalRun(s, events) && Calm(s, q)
    requires forall k :: 0 <= k < |events| ==> Tame(events[k], q)
    requires !HasHeadroom(s.nodes, s.cache, r.KvBlocksNeeded())
    ensures var t := Run(s, events);
            && t.preempted >= s.preempted && (!q.NoOutsideEviction? ==> t.preempted == s.preempted)
            && Sized(t.nodes) && Known(t.nodes, t.cache)
            && (t.preempted == s.preempted ==>
                  && !HasHeadroom(t.nodes, t.cache, r.KvBlocksNeeded())
                  && !t.gate.Decide(t.nodes, t.cache, r, d).1.Accept?)
  {
    RunIsStill(s, events, q);
    var t := Run(s, events);
    DecideAccounts(t.gate, t.nodes, t.cache, r, d);
    if t.preempted == s.preempted {
      forall k | 0 <= k < |t.nodes|
        ensures t.cache.FreeBlocks(t.nodes[k].id) < r.KvBlocksNeeded()
      {
        assert t.nodes[k].id == s.nodes[k].id;
      }
    }
  }

  /** on_fail without a node keeps the books exactly when the request was not in flight:
      the entry goes, but its node is never released. */
  lemma FailWithoutNode(s: Scheduler, r: Request, k: nat)
    requires Balanced(s) && AssignedTo(s, r, k)
    ensures Balanced(OnFail(s, r, None)) <==> Find(s.inflight, r.id) == None
  {
    FindSpec(s.inflight, r.id);
    if Find(s.inflight, r.id).Some? {
      var i := Find(s.inflight, r.id).value;
      SumsWithout(s.inflight, i, s.nodes[k].id);
      assert NodeBalanced(s.nodes[k], s.inflight);
      assert !NodeBalanced(s.nodes[k], s.inflight[..i] + s.inflight[i + 1..]);
    }
  }
}
