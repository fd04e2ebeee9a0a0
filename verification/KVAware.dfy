/** The control loop of control_plane/scheduler/kv_aware_scheduler.py as a state machine:
    admission, placement, cache allocation and the in-flight ledger. */
module KVAware {
  import opened Models
  import opened KVCache
  import opened KVCacheProofs
  import opened NodeChoices
  import opened Placement
  import opened Admission

  /** An entry of the in-flight dictionary, in insertion order. */
  datatype Entry = Entry(id: string, node: string, blocks: nat, memory: real)

  datatype Scheduler = Scheduler(
    nodes: seq<Node>,
    cache: Cache,
    gate: Gate,
    inflight: seq<Entry>,
    preemption: bool,
    scheduled: nat,
    preempted: nat)

  /** What one schedule call draws from outside: randomness, the spill model, TTFT estimates. */
  datatype Inputs = Inputs(draw: Draw, ttft: nat -> real)

  datatype Answer = Placed(node: nat) | Deferred(reason: Reason) | Refused(reason: Reason) | NoPlacement

  function HitRate(s: Stats): real {
    if s.hits + s.misses > 0 then s.hits as real / (s.hits + s.misses) as real else 0.0
  }

  function Hints(nodes: seq<Node>, c: Cache, ttft: nat -> real): nat -> Hint
    requires Known(nodes, c)
  {
    (k: nat) => Hint(if k < |nodes| && nodes[k].id in c.stats then HitRate(c.stats[nodes[k].id]) else 0.0, ttft(k))
  }

  function PressureKeys(nodes: seq<Node>): (keys: seq<Option<Key>>)
    requires Sized(nodes)
    ensures |keys| == |nodes| && forall k :: 0 <= k < |nodes| ==> keys[k].Some?
  {
    seq(|nodes|, k requires 0 <= k < |nodes| => Some(Key(nodes[k].MemoryPressure(), 0.0)))
  }

  function MostLoaded(nodes: seq<Node>): (k: nat)
    requires Sized(nodes) && nodes != []
    ensures k < |nodes|
  {
    BestIsFirstMaximum(PressureKeys(nodes));
    Best(PressureKeys(nodes)).value
  }

  /** The node that preemption asks uses the greatest part of its memory, and is the first of
      those. */
  lemma MostLoadedIs(nodes: seq<Node>)
    requires Sized(nodes) && nodes != []
    ensures var k := MostLoaded(nodes);
            && (forall j :: 0 <= j < |nodes| ==>
                  nodes[j].usedMemory / nodes[j].totalMemory <= nodes[k].usedMemory / nodes[k].totalMemory)
            && (forall j :: 0 <= j < k ==>
                  nodes[j].usedMemory / nodes[j].totalMemory < nodes[k].usedMemory / nodes[k].totalMemory)
  {
    var keys := PressureKeys(nodes);
    BestIsFirstMaximum(keys);
    hide Best;
    var k := MostLoaded(nodes);
    assert forall j :: 0 <= j < |nodes| ==> keys[j].Some? && keys[j].value.major == nodes[j].MemoryPressure();
  }

  /** The hit rate that placement reads is hits over lookups. */
  lemma HintsAre(nodes: seq<Node>, c: Cache, ttft: nat -> real, k: nat)
    requires Known(nodes, c) && k < |nodes|
    ensures var (rate, s) := (Hints(nodes, c, ttft)(k).hitRate, c.stats[nodes[k].id]);
            && Hints(nodes, c, ttft)(k).ttft == ttft(k)
            && rate * (s.hits + s.misses) as real == s.hits as real && (s.hits == 0 ==> rate == 0.0)
  {
  }

  /** The pieces a scheduler is made of fit together. */
  ghost predicate Ready(s: Scheduler) {
    Inv(s.cache) && Sized(s.nodes) && Known(s.nodes, s.cache)
  }

  /** _try_preempt_for: whether the eviction freed enough. */
  ghost function TryPreempt(s: Scheduler, r: Request): (Scheduler, bool)
    requires Ready(s) && (s.inflight != [] ==> s.nodes != [])
  {
    if !s.preemption || !r.sla.Realtime? || s.inflight == [] then (s, false)
    else
      var target := s.nodes[MostLoaded(s.nodes)].id;
      var evicted := ToEvict(s.cache, target, r.KvBlocksNeeded());
      InvNumbered(s.cache);
      (s.(cache := MaybeEvict(s.cache, target, r.KvBlocksNeeded()),
          preempted := s.preempted + (if evicted > 0 then 1 else 0)),
       evicted >= r.KvBlocksNeeded())
  }

  function Find(inflight: seq<Entry>, id: string): Option<nat> {
    if inflight == [] then None
    else if inflight[|inflight| - 1].id == id then Some(|inflight| - 1)
    else Find(inflight[..|inflight| - 1], id)
  }

  lemma {:induction false} FindSpec(inflight: seq<Entry>, id: string)
    ensures match Find(inflight, id)
            case None => forall i :: 0 <= i < |inflight| ==> inflight[i].id != id
            case Some(k) => k < |inflight| && inflight[k].id == id
  {
    if inflight != [] && inflight[|inflight| - 1].id != id {
      FindSpec(inflight[..|inflight| - 1], id);
      assert forall i :: 0 <= i < |inflight| - 1 ==> inflight[..|inflight| - 1][i] == inflight[i];
    }
  }

  /** `self._inflight[request_id] = ...` */
  function Put(inflight: seq<Entry>, e: Entry): seq<Entry> {
    FindSpec(inflight, e.id);
    match Find(inflight, e.id)
    case None => inflight + [e]
    case Some(k) => inflight[k := e]
  }

  function EntryFor(r: Request, node: string): Entry {
    Entry(r.id, node, r.KvBlocksNeeded(), r.EstimatedMemoryGb())
  }

  /** Steps 3 and 4 of schedule: allocate on the chosen node and enter the request. */
  ghost function Commit(s: Scheduler, r: Request, k: nat): Scheduler
    requires Ready(s) && k < |s.nodes|
  {
    InvIndexInPool(s.cache);
    var n := s.nodes[k];
    s.(cache := KVCache.Allocate(s.cache, n.id, r).cache,
       nodes := s.nodes[k := n.Allocate(r.KvBlocksNeeded(), r.EstimatedMemoryGb())],
       inflight := Put(s.inflight, EntryFor(r, n.id)),
       scheduled := s.scheduled + 1)
  }

  ghost function Schedule(s: Scheduler, r: Request, inputs: Inputs): (Scheduler, Answer)
    requires Ready(s) && (s.inflight != [] ==> s.nodes != [])
  {
    var (gate, decision) := s.gate.Decide(s.nodes, s.cache, r, inputs.draw);
    var t := s.(gate := gate);
    match decision
    case Reject(reason) => (t, Refused(reason))
    case Queue(reason) => (t, Deferred(reason))
    case Accept =>
      var first := Place(s.nodes, r, Hints(s.nodes, s.cache, inputs.ttft));
      PlaceFindsBest(s.nodes, r, Hints(s.nodes, s.cache, inputs.ttft));
      if first.Some? then (Commit(t, r, first.value), Placed(first.value))
      else (TryPreempt(t, r).0, NoPlacement)  // the second place call cannot succeed: SecondPlaceFails
  }

  /** Each answer of schedule in terms of the gate's decision and of the nodes, and what it counts:
      a placement exactly if the gate accepts and some node fits. */
  lemma AnswersAre(s: Scheduler, r: Request, inputs: Inputs)
    requires Ready(s) && (s.inflight != [] ==> s.nodes != [])
    ensures var (t, answer) := Schedule(s, r, inputs);
            var decision := s.gate.Decide(s.nodes, s.cache, r, inputs.draw).1;
            && (answer.Placed? <==> decision == Accept && SomeFits(s.nodes, r))
            && (answer.NoPlacement? <==> decision == Accept && !SomeFits(s.nodes, r))
            && (answer.Deferred? <==> decision.Queue?) && (answer.Refused? <==> decision.Reject?)
            && (answer.Deferred? || answer.Refused? ==> answer.reason == decision.reason)
            && t.scheduled == s.scheduled + (if answer.Placed? then 1 else 0)
            && (!answer.NoPlacement? ==> t.preempted == s.preempted)
            && (!answer.NoPlacement? && !answer.Placed? ==> t == s.(gate := t.gate))
            && (answer.NoPlacement? ==> t == s.(gate := t.gate, cache := t.cache, preempted := t.preempted))
  {
    PlaceFindsBest(s.nodes, r, Hints(s.nodes, s.cache, inputs.ttft));
    hide Inv, KVCache.Allocate, MaybeEvict, ToEvict, Gate.Decide, Place, SomeFits, MostLoaded, Put;
  }

  /** A request that is placed goes to a node that fits it and has no disadvantage against any
      other that does. */
  lemma ScheduleWeighs(s: Scheduler, r: Request, inputs: Inputs)
    requires Ready(s) && (s.inflight != [] ==> s.nodes != [])
    ensures var (answer, hints) := (Schedule(s, r, inputs).1, Hints(s.nodes, s.cache, inputs.ttft));
            answer.Placed? ==>
              && answer.node < |s.nodes| && s.nodes[answer.node].Fits(r)
              && forall j :: 0 <= j < |s.nodes| && s.nodes[j].Fits(r) ==>
                   Advantage(s.nodes[answer.node], s.nodes[j], r, hints(answer.node), hints(j)) >= 0.0
  {
    PlaceWeighs(s.nodes, r, Hints(s.nodes, s.cache, inputs.ttft));
    hide Inv, Commit, TryPreempt, Gate.Decide, Place, Node.Fits, SomeFits, Advantage;
  }

  /** Preemption evicts cached blocks but leaves the node counters alone, so asking for a
      placement again gives the same answer, whatever the hints. */
  lemma SecondPlaceFails(s: Scheduler, r: Request, hints: nat -> Hint, again: nat -> Hint)
    requires Ready(s) && (s.inflight != [] ==> s.nodes != [])
    requires Place(s.nodes, r, hints) == None
    ensures Sized(TryPreempt(s, r).0.nodes) && Place(TryPreempt(s, r).0.nodes, r, again) == None
  {
    PreemptKeepsReady(s, r);
    PlaceFindsBest(s.nodes, r, hints);
    PlaceFindsBest(s.nodes, r, again);
  }

  lemma PreemptKeepsReady(s: Scheduler, r: Request)
    requires Ready(s) && (s.inflight != [] ==> s.nodes != [])
    ensures Ready(TryPreempt(s, r).0) && TryPreempt(s, r).0.nodes == s.nodes
  {
    if s.preemption && r.sla.Realtime? && s.inflight != [] {
      var gone := MaybeEvictSpec(s.cache, s.nodes[MostLoaded(s.nodes)].id, r.KvBlocksNeeded());
    }
  }

  /** Taking a finished request out of the ledger and off its node. */
  function Retire(s: Scheduler, r: Request, k: nat): Scheduler
    requires k < |s.nodes|
  {
    FindSpec(s.inflight, r.id);
    match Find(s.inflight, r.id)
    case None => s
    case Some(i) =>
      var e := s.inflight[i];
      s.(inflight := s.inflight[..i] + s.inflight[i + 1..],
         nodes := s.nodes[k := s.nodes[k].Release(e.blocks, e.memory)])
  }

  /** on_fail: without a node the entry is dropped but nothing is released. */
  function OnFail(s: Scheduler, r: Request, node: Option<nat>): Scheduler
    requires node.Some? ==> node.value < |s.nodes|
  {
    FindSpec(s.inflight, r.id);
    if node.Some? then Retire(s, r, node.value)
    else match Find(s.inflight, r.id)
      case None => s
      case Some(i) => s.(inflight := s.inflight[..i] + s.inflight[i + 1..])
  }

  const DRAIN: nat := 16  // the default of pop_queued

  /** What a schedule call needs; nodes without an entry in the ledger may be busy, and entries
      may have lost their node. */
  ghost predicate Able(s: Scheduler) {
    Ready(s) && (s.inflight != [] ==> s.nodes != [])
  }

  lemma ScheduleKeepsAble(s: Scheduler, r: Request, inputs: Inputs)
    requires Able(s)
    ensures Able(Schedule(s, r, inputs).0)
  {
    hide Inv, KVCache.Allocate, Place, Hints, Gate.Decide, TryPreempt, SomeFits, Node.Fits, Put;
    var t := s.(gate := s.gate.Decide(s.nodes, s.cache, r, inputs.draw).0);
    var first := Place(s.nodes, r, Hints(s.nodes, s.cache, inputs.ttft));
    PlaceFindsBest(s.nodes, r, Hints(s.nodes, s.cache, inputs.ttft));
    if first.Some? {
      CommitKeepsAble(t, r, first.value);
    } else {
      PreemptKeepsReady(t, r);
      PreemptKeepsLedger(t, r);
    }
  }

  lemma PreemptKeepsLedger(s: Scheduler, r: Request)
    requires Able(s)
    ensures TryPreempt(s, r).0.inflight == s.inflight
  {
  }

  lemma CommitKeepsAble(s: Scheduler, r: Request, k: nat)
    requires Able(s) && k < |s.nodes|
    ensures Able(Commit(s, r, k))
  {
    hide Inv, KVCache.Allocate, Put, IndexInPool, Allocatable;
    AllocatableNow(s.cache, s.nodes[k].id);
    AllocateKeepsInv(s.cache, s.nodes[k].id, r);
    AllocateKeepsNodes(s.cache, s.nodes[k].id, r);
    var t := Commit(s, r, k);
    assert forall j :: 0 <= j < |s.nodes| ==>
             (t.nodes[j].id == s.nodes[j].id && t.nodes[j].totalMemory == s.nodes[j].totalMemory);
  }

  lemma AllocatableNow(c: Cache, node: string)
    requires Inv(c) && c.Serves(node)
    ensures Allocatable(c, node)
  {
    InvIndexInPool(c);
    InvNumbered(c);
  }

  lemma AllocateKeepsNodes(c: Cache, node: string, r: Request)
    requires Inv(c) && Allocatable(c, node)
    ensures KVCache.Allocate(c, node, r).cache.stats.Keys == c.stats.Keys
  {
    var gone := AllocateServed(c, node, r);
    hide Inv, KVCache.Allocate, BlocksServed, IndexLess, SameKind;
  }

  /** The requests popped from the queue are scheduled again, one after the other. */
  ghost function Drain(s: Scheduler, popped: seq<Request>, inputs: nat -> Inputs, j: nat): (t: Scheduler)
    requires Able(s)
    ensures Able(t)
    decreases |popped|
  {
    if popped == [] then s
    else
      ScheduleKeepsAble(s, popped[0], inputs(j));
      Drain(Schedule(s, popped[0], inputs(j)).0, popped[1..], inputs, j + 1)
  }

  /** The state in which the popped requests are about to be scheduled. */
  function Popped(s: Scheduler): (Scheduler, seq<Request>)
    requires Sized(s.nodes)
  {
    var (gate, out) := s.gate.PopQueued(s.nodes, DRAIN);
    (s.(gate := gate), out)
  }

  /** on_complete */
  ghost function OnComplete(s: Scheduler, r: Request, k: nat, inputs: nat -> Inputs): Scheduler
    requires Able(s) && k < |s.nodes|
  {
    CompletionKeepsAble(s, r, k);
    var (t, out) := Popped(Retire(s, r, k));
    Drain(t, out, inputs, 0)
  }

  lemma CompletionKeepsAble(s: Scheduler, r: Request, k: nat)
    requires Able(s) && k < |s.nodes|
    ensures var f := Retire(s, r, k);
            Able(f) && Sized(f.nodes) && Able(Popped(f).0) && f.cache == s.cache
  {
    hide Inv;
  }

  // ----------------------------------------------------------- the ledger

  function SumBlocks(inflight: seq<Entry>, node: string): nat {
    if inflight == [] then 0
    else SumBlocks(inflight[..|inflight| - 1], node)
         + (if inflight[|inflight| - 1].node == node then inflight[|inflight| - 1].blocks else 0)
  }

  function SumMemory(inflight: seq<Entry>, node: string): real {
    if inflight == [] then 0.0
    else SumMemory(inflight[..|inflight| - 1], node)
         + (if inflight[|inflight| - 1].node == node then inflight[|inflight| - 1].memory else 0.0)
  }

  function Count(inflight: seq<Entry>, node: string): nat {
    if inflight == [] then 0
    else Count(inflight[..|inflight| - 1], node) + (if inflight[|inflight| - 1].node == node then 1 else 0)
  }

  lemma {:induction false} SumsConcat(a: seq<Entry>, b: seq<Entry>, node: string)
    ensures SumBlocks(a + b, node) == SumBlocks(a, node) + SumBlocks(b, node)
    ensures SumMemory(a + b, node) == SumMemory(a, node) + SumMemory(b, node)
    ensures Count(a + b, node) == Count(a, node) + Count(b, node)
  {
    if b == [] {
      assert a + b == a;
    } else {
      SumsConcat(a, b[..|b| - 1], node);
      assert (a + b)[..|a + b| - 1] == a + b[..|b| - 1];
    }
  }

  lemma SumsOne(e: Entry, node: string)
    ensures SumBlocks([e], node) == (if e.node == node then e.blocks else 0)
    ensures SumMemory([e], node) == (if e.node == node then e.memory else 0.0)
    ensures Count([e], node) == (if e.node == node then 1 else 0)
  {
    assert [e][..0] == [];
  }

  lemma SumsWithout(s: seq<Entry>, i: nat, node: string)
    requires i < |s|
    ensures var e, rest := s[i], s[..i] + s[i + 1..];
            && SumBlocks(s, node) == SumBlocks(rest, node) + (if e.node == node then e.blocks else 0)
            && SumMemory(s, node) == SumMemory(rest, node) + (if e.node == node then e.memory else 0.0)
            && Count(s, node) == Count(rest, node) + (if e.node == node then 1 else 0)
  {
    SumsConcat(s[..i], s[i + 1..], node);
    SumsConcat(s[..i] + [s[i]], s[i + 1..], node);
    SumsConcat(s[..i], [s[i]], node);
    SumsOne(s[i], node);
    hide SumBlocks, SumMemory, Count;
    assert s == s[..i] + [s[i]] + s[i + 1..];
  }

  /** A node's counters are the sums over the requests in flight on it, and fit its pool. */
  ghost predicate NodeBalanced(n: Node, inflight: seq<Entry>) {
    && n.kvUsed == SumBlocks(inflight, n.id)
    && n.usedMemory == SumMemory(inflight, n.id)
    && n.active == Count(inflight, n.id)
    && n.kvUsed <= n.kvTotal
    && n.KvWithinShare()
  }

  ghost predicate MemoryOfBlocks(inflight: seq<Entry>) {
    forall i :: 0 <= i < |inflight| ==> inflight[i].memory == BlocksGb(inflight[i].blocks)
  }

  ghost predicate Balanced(s: Scheduler) {
    && DistinctIds(s.nodes) && MemoryOfBlocks(s.inflight)
    && (forall k :: 0 <= k < |s.nodes| ==> NodeBalanced(s.nodes[k], s.inflight))
    && (s.inflight != [] ==> s.nodes != [])
  }

  lemma {:induction false} MemoryIsBlocks(inflight: seq<Entry>, node: string)
    requires MemoryOfBlocks(inflight)
    ensures SumMemory(inflight, node) == BlocksGb(SumBlocks(inflight, node))
  {
    if inflight != [] {
      MemoryIsBlocks(inflight[..|inflight| - 1], node);
    }
  }

  lemma BlocksGbMonotone(a: nat, b: nat)
    ensures a <= b ==> BlocksGb(a) <= BlocksGb(b)
    ensures BlocksGb(a + b) == BlocksGb(a) + BlocksGb(b)
  {
  }

  /** A balanced node uses at most 60 % of its memory, so fitting is a matter of blocks alone. */
  lemma BalancedIsLow(n: Node, inflight: seq<Entry>, blocks: nat)
    requires NodeBalanced(n, inflight) && MemoryOfBlocks(inflight)
    ensures n.usedMemory == BlocksGb(n.kvUsed) && n.totalMemory > 0.0 && n.usedMemory <= 0.60 * n.totalMemory
    ensures n.CanFit(blocks, BlocksGb(blocks)) <==> n.kvUsed + blocks <= n.kvTotal
  {
    MemoryIsBlocks(inflight, n.id);
    BlocksGbMonotone(n.kvUsed, n.kvTotal);
    BlocksGbMonotone(n.kvUsed, blocks);
    BlocksGbMonotone(n.kvUsed + blocks, n.kvTotal);
  }

  lemma BalancedPressure(s: Scheduler)
    requires Balanced(s)
    ensures LowPressure(s.nodes) && Sized(s.nodes)
  {
    forall k | 0 <= k < |s.nodes|
      ensures s.nodes[k].totalMemory > 0.0 && s.nodes[k].usedMemory <= 0.60 * s.nodes[k].totalMemory
    {
      BalancedIsLow(s.nodes[k], s.inflight, 0);
    }
  }

  /** Entering a new request on a node that fits it keeps the books. */
  lemma CommitBalances(nodes: seq<Node>, inflight: seq<Entry>, r: Request, k: nat, j: nat)
    requires DistinctIds(nodes) && MemoryOfBlocks(inflight) && k < |nodes| && j < |nodes|
    requires NodeBalanced(nodes[j], inflight) && NodeBalanced(nodes[k], inflight) && nodes[k].Fits(r)
    ensures NodeBalanced(nodes[k := nodes[k].Allocate(r.KvBlocksNeeded(), r.EstimatedMemoryGb())][j],
                         inflight + [EntryFor(r, nodes[k].id)])
  {
    var e := EntryFor(r, nodes[k].id);
    SumsConcat(inflight, [e], nodes[j].id);
    SumsOne(e, nodes[j].id);
    BalancedIsLow(nodes[k], inflight, r.KvBlocksNeeded());
    assert k != j ==> nodes[k].id != nodes[j].id;
  }

  /** Releasing an entry on its own node keeps the books, and no clamp fires. */
  lemma ReleaseBalances(nodes: seq<Node>, inflight: seq<Entry>, i: nat, k: nat, j: nat)
    requires DistinctIds(nodes) && MemoryOfBlocks(inflight) && k < |nodes| && j < |nodes| && i < |inflight|
    requires NodeBalanced(nodes[j], inflight) && NodeBalanced(nodes[k], inflight)
    requires inflight[i].node == nodes[k].id
    ensures var e, n := inflight[i], nodes[k];
            && NodeBalanced(nodes[k := n.Release(e.blocks, e.memory)][j], inflight[..i] + inflight[i + 1..])
            && n.kvUsed >= e.blocks && n.usedMemory >= e.memory && n.active >= 1
  {
    var e := inflight[i];
    var rest := inflight[..i] + inflight[i + 1..];
    SumsWithout(inflight, i, nodes[j].id);
    SumsWithout(inflight, i, nodes[k].id);
    MemoryWithout(inflight, i);
    MemoryIsBlocks(rest, nodes[k].id);
    assert BlocksGb(SumBlocks(rest, nodes[k].id)) >= 0.0;
    assert k != j ==> nodes[k].id != nodes[j].id;
  }

  lemma MemoryWithout(inflight: seq<Entry>, i: nat)
    requires MemoryOfBlocks(inflight) && i < |inflight|
    ensures MemoryOfBlocks(inflight[..i] + inflight[i + 1..])
  {
  }
}
