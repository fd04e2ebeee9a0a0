/** When the KV-aware scheduler sheds load: over its runs, and in the replay. */
module LoadShedding {
  import opened Models
  import opened KVCache
  import opened Admission
  import opened AdmissionDecisions
  import opened KVAware
  import opened KVAwareRuns
  import opened KVAwareReplays
  import opened WaitingRequests

  /** The entries of the ledger that are on one of the nodes. */
  ghost function Entries(nodes: seq<Node>, inflight: seq<Entry>): nat {
    if nodes == [] then 0 else Count(inflight, nodes[0].id) + Entries(nodes[1..], inflight)
  }

  ghost function Named(nodes: seq<Node>, id: string): nat {
    if nodes == [] then 0 else (if nodes[0].id == id then 1 else 0) + Named(nodes[1..], id)
  }

  lemma DistinctRest(nodes: seq<Node>)
    requires DistinctIds(nodes) && nodes != []
    ensures DistinctIds(nodes[1..])
  {
  }

  lemma {:induction false} NamedNone(nodes: seq<Node>, id: string)
    requires forall k :: 0 <= k < |nodes| ==> nodes[k].id != id
    ensures Named(nodes, id) == 0
  {
    if nodes != [] {
      NamedNone(nodes[1..], id);
    }
  }

  lemma {:induction false} NamedOnce(nodes: seq<Node>, id: string)
    requires DistinctIds(nodes)
    ensures Named(nodes, id) <= 1
  {
    if nodes != [] {
      DistinctRest(nodes);
      NamedOnce(nodes[1..], id);
      if nodes[0].id == id {
        NamedNone(nodes[1..], id);
      }
    }
  }

  lemma {:induction false} EntriesLast(nodes: seq<Node>, inflight: seq<Entry>)
    requires inflight != []
    ensures Entries(nodes, inflight) ==
            Entries(nodes, inflight[..|inflight| - 1]) + Named(nodes, inflight[|inflight| - 1].node)
  {
    if nodes != [] {
      EntriesLast(nodes[1..], inflight);
    }
  }

  lemma {:induction false} EntriesNone(nodes: seq<Node>)
    ensures Entries(nodes, []) == 0
  {
    if nodes != [] {
      EntriesNone(nodes[1..]);
    }
  }

  lemma {:induction false} EntriesBound(nodes: seq<Node>, inflight: seq<Entry>)
    requires DistinctIds(nodes)
    ensures Entries(nodes, inflight) <= |inflight|
  {
    if inflight == [] {
      EntriesNone(nodes);
    } else {
      EntriesBound(nodes, inflight[..|inflight| - 1]);
      EntriesLast(nodes, inflight);
      NamedOnce(nodes, inflight[|inflight| - 1].node);
    }
  }

  lemma {:induction false} RunningIsEntries(nodes: seq<Node>, inflight: seq<Entry>)
    requires forall k :: 0 <= k < |nodes| ==> nodes[k].active == Count(inflight, nodes[k].id)
    ensures Running(nodes) == Entries(nodes, inflight)
  {
    if nodes != [] {
      RunningIsEntries(nodes[1..], inflight);
    }
  }

  lemma BooksCount(s: Scheduler)
    requires Good(s, [])
    ensures Sized(s.nodes) && Known(s.nodes, s.cache) && Running(s.nodes) <= |s.inflight|
  {
    forall k | 0 <= k < |s.nodes|
      ensures s.nodes[k].active == Count(s.inflight, s.nodes[k].id)
    {
      assert NodeBalanced(s.nodes[k], s.inflight);
    }
    RunningIsEntries(s.nodes, s.inflight);
    EntriesBound(s.nodes, s.inflight);
  }

  /** After every run: who is shed is REALTIME, and more than 17 requests per node are in
      flight. */
  lemma ShedOnlyUnderLoad(s: Scheduler, events: seq<Event>, r: Request, d: Draw)
    requires Good(s, []) && LegalRun(s, events)
    ensures var t := KVAwareRuns.Run(s, events);
            && Sized(t.nodes) && Known(t.nodes, t.cache)
            && (t.gate.Decide(t.nodes, t.cache, r, d).1 == Reject(LoadShedding) ==>
                  r.sla.Realtime? && |t.inflight| > 17 * |t.nodes|)
  {
    var t := KVAwareRuns.Run(s, events);
    BooksCount(t);
    hide Good, LegalRun, KVAwareRuns.Run, Gate.Decide;
    DecideIff(t.gate, t.nodes, t.cache, r, d);
    if Shed(t.nodes, r, d) {
      ShedNeedsLoad(t.nodes, r, d);
    }
  }

  /** In the replay from fresh nodes nobody is ever shed: after every trace, whatever is drawn. */
  lemma NobodyIsShed(model: (Request, seq<Node>) -> real, s: Scheduler, trace: seq<Request>, inputs: nat -> Inputs,
                     draws: nat -> nat -> Inputs, r: Request, d: Draw)
    requires Settled(model, s) && NewIds(s, trace)
    requires s.gate.useModel ==> ReplayPredicted(model, s, trace, inputs, draws, 0)
    ensures var t := Replayed(s, trace, inputs, draws, 0).0;
            && Sized(t.nodes) && Known(t.nodes, t.cache)
            && t.gate.Decide(t.nodes, t.cache, r, d).1 != Reject(LoadShedding)
  {
    LedgerStaysEmpty(model, s, trace, inputs, draws);
    var t := Replayed(s, trace, inputs, draws, 0).0;
    assert LegalRun(t, []) && KVAwareRuns.Run(t, []) == t;
    hide Good, Settled, Replayed;
    ShedOnlyUnderLoad(t, [], r, d);
  }
}
