/** What the harness does with a request that waits: it is recorded as rejected, and if a later
    completion places it all the same, nobody completes it then. */
module StrandedRequests {
  import opened Models
  import opened Placement
  import opened Harness
  import opened Admission
  import opened KVAware
  import opened KVAwareRuns
  import opened KVAwareReplays

  /** Everything in flight stays in flight, and what joins it was waiting or just popped. */
  ghost predicate Joins(s: Scheduler, popped: seq<Request>, t: Scheduler, left: seq<Request>) {
    && s.inflight <= t.inflight
    && LiveIds(t.inflight, t.gate.queue, left) <= LiveIds(s.inflight, s.gate.queue, popped)
  }

  // ------------------------------------------------------------------- one call

  /** A placed request goes to the end of the ledger, any other leaves the ledger alone. */
  lemma ScheduleAppends(s: Scheduler, r: Request, rest: seq<Request>, inputs: Inputs)
    requires Good(s, [r] + rest)
    ensures var (t, answer) := Schedule(s, r, inputs);
            && Joins(s, [r] + rest, t, rest)
            && (answer.Placed? ==>
                  && answer.node < |s.nodes| && t.gate.queue == s.gate.queue
                  && t.inflight == s.inflight + [EntryFor(r, s.nodes[answer.node].id)])
  {
    UniqueHead(s, r, rest);
    ScheduleIds(s, r, rest, inputs);
    DecideAccounts(s.gate, s.nodes, s.cache, r, inputs.draw);
    PlaceFindsBest(s.nodes, r, Hints(s.nodes, s.cache, inputs.ttft));
    hide Gate.Decide, Place, Balanced, AtMostOnce, LiveIds;
  }

  lemma {:induction false} DrainAppends(s: Scheduler, popped: seq<Request>, inputs: nat -> Inputs, j: nat)
    requires Good(s, popped)
    ensures Joins(s, popped, Drain(s, popped, inputs, j), [])
    decreases |popped|
  {
    if popped != [] {
      assert popped == [popped[0]] + popped[1..];
      DrainOne(s, popped, inputs, j);
      ScheduleAppends(s, popped[0], popped[1..], inputs(j));
      hide Good, Schedule, LiveIds;
      DrainAppends(Schedule(s, popped[0], inputs(j)).0, popped[1..], inputs, j + 1);
    }
  }

  /** Completing the request placed last takes exactly its own entry out. */
  lemma RetireLast(u: Scheduler, before: seq<Entry>, r: Request, k: nat)
    requires k < |u.nodes| && u.inflight == before + [EntryFor(r, u.nodes[k].id)]
    ensures Retire(u, r, k).inflight == before
  {
    assert u.inflight[..|before|] == before && u.inflight[|before| + 1..] == [];
  }

  lemma CompletionAppends(s: Scheduler, u: Scheduler, r: Request, k: nat, draws: nat -> Inputs)
    requires Good(u, []) && AssignedTo(u, r, k)
    requires u.inflight == s.inflight + [EntryFor(r, u.nodes[k].id)] && u.gate.queue == s.gate.queue
    ensures Joins(s, [], OnComplete(u, r, k, draws), [])
  {
    hide Good, Drain, Retire, OnComplete, Able, LiveIds;
    var p, out := CompletionDrains(u, r, k, draws);
    RetireLast(u, s.inflight, r, k);
    DrainAppends(p, out, draws, 0);
  }

  // ------------------------------------------------------------------ one round

  lemma ServeAppends(s: Scheduler, r: Request, inputs: Inputs, draws: nat -> Inputs)
    requires Good(s, []) && NewIds(s, [r])
    ensures var (t, o) := ServeOne(s, r, inputs, draws);
            Joins(s, if o.Rejected? then [r] else [], t, [])
  {
    GoodArrival(s, r);
    assert [r] + [] == [r];
    ScheduleAnswers(s, r, inputs);
    ScheduleAppends(s, r, [], inputs);
    var (t, answer) := Schedule(s, r, inputs);
    hide Good, Schedule, OnComplete, CacheRound, Joins, LiveIds, NewIds;
    if answer.Placed? {
      var node := s.nodes[answer.node].id;
      var u := CacheRound(t, node, r);
      PlacedIds(s, t, u, r, answer.node, node);
      CacheRoundKeeps(t, node, r);
      CompletionAppends(s, u, r, answer.node, draws);
    }
  }

  lemma PlacedIds(s: Scheduler, t: Scheduler, u: Scheduler, r: Request, k: nat, node: string)
    requires k < |s.nodes| && node == s.nodes[k].id && SameShape(s.nodes, t.nodes) && Find(s.inflight, r.id) == None
    requires t.inflight == s.inflight + [EntryFor(r, node)] && t.cache.Serves(node) && Good(t, [])
    requires u == CacheRound(t, node, r)
    ensures k < |u.nodes| && u.nodes[k].id == node && u.inflight == t.inflight && u.gate == t.gate
    ensures AssignedTo(u, r, k)
  {
    hide TakenAndGiven, Good;
    RoundCompletes(s, t, u, r, k);
  }

  // ------------------------------------------------------------- whole replays

  /** The requests of a trace that the harness recorded as rejected. */
  ghost function RejectedOf(trace: seq<Request>, outcomes: seq<Outcome>): seq<Request>
    requires |outcomes| == |trace|
  {
    if trace == [] then []
    else (if outcomes[0].Rejected? then [trace[0]] else []) + RejectedOf(trace[1..], outcomes[1..])
  }

  lemma {:induction false} ReplayAppends(s: Scheduler, trace: seq<Request>, inputs: nat -> Inputs,
                                         draws: nat -> nat -> Inputs, j: nat)
    requires Good(s, []) && NewIds(s, trace)
    ensures var (t, outcomes) := Replayed(s, trace, inputs, draws, j);
            Joins(s, RejectedOf(trace, outcomes), t, [])
    decreases |trace|
  {
    hide Good, ServeOne, NewIds, Joins;
    if trace == [] {
      JoinsNothing(s);
    } else {
      NextRound(s, trace, inputs(j), draws(j));
      ServeAppends(s, trace[0], inputs(j), draws(j));
      var (t, o) := ServeOne(s, trace[0], inputs(j), draws(j));
      ReplayAppends(t, trace[1..], inputs, draws, j + 1);
      var (u, rest) := Replayed(t, trace[1..], inputs, draws, j + 1);
      assert ([o] + rest)[1..] == rest;
      JoinsTrans(s, if o.Rejected? then [trace[0]] else [], t, RejectedOf(trace[1..], rest), u);
    }
  }

  lemma JoinsNothing(s: Scheduler)
    ensures Joins(s, [], s, [])
  {
  }

  lemma JoinsTrans(s: Scheduler, first: seq<Request>, t: Scheduler, second: seq<Request>, u: Scheduler)
    requires Joins(s, first, t, []) && Joins(t, second, u, [])
    ensures Joins(s, first + second, u, [])
  {
    hide LiveIds;
    LiveWith(s, first, second);
    LiveWith(t, [], second);
    assert [] + second == second;
    var more := multiset(RequestIds(second));
    MoreOnBoth(LiveIds(t.inflight, t.gate.queue, []), LiveIds(s.inflight, s.gate.queue, first), more);
  }

  lemma LiveWith(s: Scheduler, first: seq<Request>, second: seq<Request>)
    ensures LiveIds(s.inflight, s.gate.queue, first + second) ==
              LiveIds(s.inflight, s.gate.queue, first) + multiset(RequestIds(second))
  {
    assert RequestIds(first + second) == RequestIds(first) + RequestIds(second);
    hide EntryIds;
  }

  lemma MoreOnBoth(a: multiset<string>, b: multiset<string>, more: multiset<string>)
    requires a <= b
    ensures a + more <= b + more
  {
  }

  /** Capacity held by what joined the ledger. */
  lemma AddedHold(s: Scheduler, t: Scheduler, rejected: seq<Request>, k: nat)
    requires Good(s, []) && Good(t, []) && SameShape(s.nodes, t.nodes) && Joins(s, rejected, t, []) && k < |s.nodes|
    ensures k < |t.nodes| && t.nodes[k].id == s.nodes[k].id
    ensures var added := t.inflight[|s.inflight|..];
            && multiset(EntryIds(added)) <= multiset(RequestIds(s.gate.queue)) + multiset(RequestIds(rejected))
            && t.nodes[k].kvUsed == s.nodes[k].kvUsed + SumBlocks(added, s.nodes[k].id)
            && t.nodes[k].active == s.nodes[k].active + Count(added, s.nodes[k].id)
  {
    hide Good, EntryIds, RequestIds, LiveIds, SumBlocks, SumMemory, Count;
    var added := t.inflight[|s.inflight|..];
    NodeBooks(s, k);
    NodeBooks(t, k);
    AddedIds(s, t, rejected);
    assert t.inflight == s.inflight + added;
    SumsConcat(s.inflight, added, s.nodes[k].id);
  }

  lemma NodeBooks(s: Scheduler, k: nat)
    requires Good(s, []) && k < |s.nodes|
    ensures s.nodes[k].kvUsed == SumBlocks(s.inflight, s.nodes[k].id)
    ensures s.nodes[k].active == Count(s.inflight, s.nodes[k].id)
  {
    assert NodeBalanced(s.nodes[k], s.inflight);
  }

  lemma AddedIds(s: Scheduler, t: Scheduler, rejected: seq<Request>)
    requires Joins(s, rejected, t, [])
    ensures multiset(EntryIds(t.inflight[|s.inflight|..])) <=
              multiset(RequestIds(s.gate.queue)) + multiset(RequestIds(rejected))
  {
    var added := t.inflight[|s.inflight|..];
    var held, waiting := multiset(EntryIds(s.inflight)), multiset(RequestIds(s.gate.queue));
    assert EntryIds(t.inflight) == EntryIds(s.inflight) + EntryIds(added);
    assert multiset(EntryIds(t.inflight)) == held + multiset(EntryIds(added));
    hide EntryIds, RequestIds;
    assert LiveIds(s.inflight, s.gate.queue, rejected) == held + waiting + multiset(RequestIds(rejected));
    LessCommon(held, multiset(EntryIds(added)), multiset(RequestIds(t.gate.queue)) + multiset(RequestIds([])),
      waiting, multiset(RequestIds(rejected)));
  }

  lemma LessCommon(a: multiset<string>, b: multiset<string>, c: multiset<string>, d: multiset<string>,
                   e: multiset<string>)
    requires (a + b) + c <= a + d + e
    ensures b <= d + e
  {
    forall x
      ensures b[x] <= (d + e)[x]
    {
      assert ((a + b) + c)[x] <= (a + d + e)[x];
    }
  }

  /** Whatever is in flight when a replay begins, and whatever a completion places while
      draining, is in flight when it ends: the entries that the replay adds are those of
      requests that were waiting at the start or were recorded as rejected, and the blocks and
      slots they hold on their nodes are never given back. */
  lemma NobodyCompletesDrained(s: Scheduler, trace: seq<Request>, inputs: nat -> Inputs,
                               draws: nat -> nat -> Inputs, k: nat)
    requires Good(s, []) && NewIds(s, trace) && k < |s.nodes|
    ensures var (t, outcomes) := Replayed(s, trace, inputs, draws, 0);
            && s.inflight <= t.inflight && k < |t.nodes| && t.nodes[k].id == s.nodes[k].id
            && var added := t.inflight[|s.inflight|..];
               && multiset(EntryIds(added)) <=
                    multiset(RequestIds(s.gate.queue)) + multiset(RequestIds(RejectedOf(trace, outcomes)))
               && t.nodes[k].kvUsed == s.nodes[k].kvUsed + SumBlocks(added, s.nodes[k].id)
               && t.nodes[k].active == s.nodes[k].active + Count(added, s.nodes[k].id)
  {
    hide Good, NewIds, Replayed, LiveIds, ReplayEvents, KVAwareRuns.Run, LegalRun, SameShape, RejectedOf;
    ReplayAppends(s, trace, inputs, draws, 0);
    ReplayIsARun(s, trace, inputs, draws, 0);
    var (t, outcomes) := Replayed(s, trace, inputs, draws, 0);
    assert Steps(s, KVAwareRuns.Run(s, ReplayEvents(s, trace, inputs, draws, 0)));
    AddedHold(s, t, RejectedOf(trace, outcomes), k);
  }
}
