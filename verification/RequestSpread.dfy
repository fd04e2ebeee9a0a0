/** How the baselines spread the requests of a replay over the nodes: when round-robin is fair
    in the number of requests, and that the load-aware ones do not spread them at all. */
module RequestSpread {
  import opened Models
  import opened KVCache
  import opened KVCacheProofs
  import opened Placement
  import opened Harness

  /** How many requests were completed, on any node and on one. */
  function Accepted(outcomes: seq<Outcome>): nat {
    if outcomes == [] then 0
    else Accepted(outcomes[..|outcomes| - 1]) + (if outcomes[|outcomes| - 1].Completed? then 1 else 0)
  }

  predicate On(o: Outcome, node: string) {
    o.Completed? && o.node == node
  }

  function ServedOn(outcomes: seq<Outcome>, node: string): nat {
    if outcomes == [] then 0
    else ServedOn(outcomes[..|outcomes| - 1], node) + (if On(outcomes[|outcomes| - 1], node) then 1 else 0)
  }

  lemma OneOutcome(done: seq<Outcome>, o: Outcome, node: string)
    ensures Accepted(done + [o]) == Accepted(done) + (if o.Completed? then 1 else 0)
    ensures ServedOn(done + [o], node) == ServedOn(done, node) + (if On(o, node) then 1 else 0)
  {
    assert (done + [o])[..|done|] == done;
  }

  /** No node has served two requests more than another. */
  ghost predicate Even(nodes: seq<Node>, outcomes: seq<Outcome>) {
    forall a, b :: 0 <= a < |nodes| && 0 <= b < |nodes| ==>
      ServedOn(outcomes, nodes[a].id) <= ServedOn(outcomes, nodes[b].id) + 1
  }

  /** The request fits every node or none. */
  ghost predicate AllOrNone(nodes: seq<Node>, r: Request) {
    forall a, b :: 0 <= a < |nodes| && 0 <= b < |nodes| && nodes[a].Fits(r) ==> nodes[b].Fits(r)
  }

  // ------------------------------------------------------------------- one round

  /** What a round tells about the choice. */
  lemma RoundOutcome(s: Cluster, r: Request)
    requires Between(s)
    ensures var (b, choice) := Choose(s.scheduler, s.nodes, r);
            var (t, o) := Replay1(s, r);
            && Between(t) && t.nodes == s.nodes && t.scheduler == b
            && (choice.None? <==> o.Rejected?) && (choice.Some? <==> SomeFits(s.nodes, r))
            && (choice.Some? ==>
                  && choice.value < |s.nodes| && s.nodes[choice.value].Fits(r)
                  && o.node == s.nodes[choice.value].id)
  {
    ReplayRound(s, r);
    BaselinesConserveWork(s.scheduler, s.nodes, r);
    hide Inv, KVCache.Allocate, Free, Choose, Node.Fits, SomeFits, Faithful, SameSpills, Between;
  }

  /** If the request fits all nodes, round-robin takes the node under the cursor. */
  lemma TakesNext(nodes: seq<Node>, r: Request, cursor: nat, counter: nat)
    requires cursor < |nodes| && AllOrNone(nodes, r) && SomeFits(nodes, r)
    ensures Rotate(nodes, r, cursor, counter, |nodes|)
            == (RoundRobin(Ahead(cursor, 1, |nodes|), counter + 1), Some(cursor))
  {
    var k :| 0 <= k < |nodes| && nodes[k].Fits(r);
    assert nodes[cursor].Fits(r);
  }

  // ----------------------------------------------------------------- round-robin

  lemma NextTurn(m: nat, n: nat)
    requires n > 0
    ensures m % n < n
    ensures m % n + 1 < n ==> (m + 1) / n == m / n && (m + 1) % n == m % n + 1
    ensures m % n + 1 == n ==> (m + 1) / n == m / n + 1 && (m + 1) % n == 0
  {
    var q, r := m / n, m % n;
    assert m == n * q + r;
    if r + 1 < n {
      Quotient(m + 1, n, q, r + 1);
    } else {
      assert m + 1 == n * (q + 1) + 0;
      Quotient(m + 1, n, q + 1, 0);
    }
  }

  lemma Quotient(m: nat, n: nat, q: nat, r: nat)
    requires r < n && m == n * q + r
    ensures m / n == q && m % n == r
  {
    var p := m / n;
    assert m == n * p + m % n;
    if p < q {
      Ordered(n, p, q);
    } else if p > q {
      Ordered(n, q, p);
    }
  }

  lemma Ordered(n: nat, p: nat, q: nat)
    requires p < q
    ensures n * p + n <= n * q
  {
    Distribute(n, p, q - p);
    TimesGrows(n, 1, q - p);
  }

  /** After m turns from `start`: where the cursor stands, and how often the node j places
      ahead of `start` had its turn. */
  ghost predicate Turns(start: nat, n: nat, m: nat, j: nat, cursor: nat, served: nat)
    requires start < n
  {
    cursor == Ahead(start, m % n, n) && served == m / n + (if j < m % n then 1 else 0)
  }

  lemma OneTurn(start: nat, n: nat, m: nat, j: nat, cursor: nat, served: nat)
    requires start < n && j < n && Turns(start, n, m, j, cursor, served)
    ensures cursor < n
    ensures Turns(start, n, m + 1, j, Ahead(cursor, 1, n), served + (if cursor == Ahead(start, j, n) then 1 else 0))
  {
    NextTurn(m, n);
  }

  /** Over every trace whose requests fit all nodes or none, the node j places ahead of the
      cursor has served exactly m / n of the m accepted requests, and one more if j < m % n. */
  lemma {:induction false} EvenTurns(s: Cluster, trace: seq<Request>, j: nat)
    requires Between(s) && s.scheduler.RoundRobin? && j < |s.nodes|
    requires forall i :: 0 <= i < |trace| ==> AllOrNone(s.nodes, trace[i])
    ensures var (t, outcomes) := Replay(s, trace);
            && Between(t) && t.nodes == s.nodes && t.scheduler.RoundRobin?
            && Turns(s.scheduler.cursor, |s.nodes|, Accepted(outcomes), j, t.scheduler.cursor,
                     ServedOn(outcomes, s.nodes[Ahead(s.scheduler.cursor, j, |s.nodes|)].id))
    decreases |trace|
  {
    hide Replay1, AllOrNone, Turns, Inv, NothingPinned, AllIdle, PoolsMatch, Known;
    if trace == [] {
      NoTurns(s.scheduler.cursor, |s.nodes|, j);
    } else {
      var last := |trace| - 1;
      EvenTurns(s, trace[..last], j);
      var (t, done) := Replay(s, trace[..last]);
      TurnOfOne(s, t, done, trace[last], j);
      assert Replay(s, trace) == (Replay1(t, trace[last]).0, done + [Replay1(t, trace[last]).1]);
    }
  }

  lemma NoTurns(start: nat, n: nat, j: nat)
    requires start < n
    ensures Turns(start, n, 0, j, start, 0)
  {
    Quotient(0, n, 0, 0);
  }

  lemma TurnOfOne(s: Cluster, t: Cluster, done: seq<Outcome>, r: Request, j: nat)
    requires Between(s) && s.scheduler.RoundRobin? && j < |s.nodes|
    requires Between(t) && t.nodes == s.nodes && t.scheduler.RoundRobin? && AllOrNone(s.nodes, r)
    requires Turns(s.scheduler.cursor, |s.nodes|, Accepted(done), j, t.scheduler.cursor,
                   ServedOn(done, s.nodes[Ahead(s.scheduler.cursor, j, |s.nodes|)].id))
    ensures var (u, o) := Replay1(t, r);
            && Between(u) && u.nodes == s.nodes && u.scheduler.RoundRobin?
            && Turns(s.scheduler.cursor, |s.nodes|, Accepted(done + [o]), j, u.scheduler.cursor,
                     ServedOn(done + [o], s.nodes[Ahead(s.scheduler.cursor, j, |s.nodes|)].id))
  {
    hide Inv, NothingPinned, AllIdle, PoolsMatch, Known, Sized, Replay1, Turns, Rotate, Node.Fits, SomeFits, AllOrNone,
         Accepted, ServedOn;
    var n, k := |s.nodes|, Ahead(s.scheduler.cursor, j, |s.nodes|);
    var (u, o) := Replay1(t, r);
    RoundOutcome(t, r);
    OneOutcome(done, o, s.nodes[k].id);
    if o.Completed? {
      assert Choose(t.scheduler, t.nodes, r).1.Some?;
      assert SomeFits(t.nodes, r);
      TakesNext(t.nodes, r, t.scheduler.cursor, t.scheduler.counter);
      OneTurn(s.scheduler.cursor, n, Accepted(done), j, t.scheduler.cursor, ServedOn(done, s.nodes[k].id));
      assert On(o, s.nodes[k].id) <==> t.scheduler.cursor == k;
    } else {
      BaselinesConserveWork(t.scheduler, t.nodes, r);
    }
  }

  lemma RoundRobinIsEven(s: Cluster, trace: seq<Request>)
    requires Between(s) && s.scheduler.RoundRobin?
    requires forall i :: 0 <= i < |trace| ==> AllOrNone(s.nodes, trace[i])
    ensures Even(s.nodes, Replay(s, trace).1)
  {
    hide Replay, AllOrNone, ServedOn, Accepted, Inv, NothingPinned, AllIdle, PoolsMatch, Known;
    var outcomes := Replay(s, trace).1;
    forall a, b | 0 <= a < |s.nodes| && 0 <= b < |s.nodes|
      ensures ServedOn(outcomes, s.nodes[a].id) <= ServedOn(outcomes, s.nodes[b].id) + 1
    {
      var j := TurnReaches(s.scheduler.cursor, a, |s.nodes|);
      var i := TurnReaches(s.scheduler.cursor, b, |s.nodes|);
      EvenTurns(s, trace, j);
      EvenTurns(s, trace, i);
    }
  }

  // ------------------------------------------------------------- when it is not even

  /** Completed requests of the first i nodes. */
  function ServedByFirst(nodes: seq<Node>, outcomes: seq<Outcome>, i: nat): nat
    requires i <= |nodes|
  {
    if i == 0 then 0 else ServedByFirst(nodes, outcomes, i - 1) + ServedOn(outcomes, nodes[i - 1].id)
  }

  lemma {:induction false} FirstServeOne(nodes: seq<Node>, done: seq<Outcome>, o: Outcome, k: nat, i: nat)
    requires DistinctIds(nodes) && k < |nodes| && i <= |nodes| && (o.Completed? ==> o.node == nodes[k].id)
    ensures ServedByFirst(nodes, done + [o], i)
            == ServedByFirst(nodes, done, i) + (if o.Completed? && k < i then 1 else 0)
  {
    if i > 0 {
      FirstServeOne(nodes, done, o, k, i - 1);
      OneOutcome(done, o, nodes[i - 1].id);
      assert k < i - 1 ==> nodes[k].id != nodes[i - 1].id;
      assert k > i - 1 ==> nodes[i - 1].id != nodes[k].id;
    }
  }

  lemma {:induction false} FirstServeNone(nodes: seq<Node>, i: nat)
    requires i <= |nodes|
    ensures ServedByFirst(nodes, [], i) == 0
  {
    if i > 0 {
      FirstServeNone(nodes, i - 1);
    }
  }

  /** n copies of a request that some node fits and node b does not: all are completed, and
      none on b. */
  lemma {:induction false} CopiesAvoid(s: Cluster, r: Request, trace: seq<Request>, b: nat)
    requires Between(s) && b < |s.nodes| && !s.nodes[b].Fits(r) && SomeFits(s.nodes, r)
    requires forall i :: 0 <= i < |trace| ==> trace[i] == r
    ensures var (t, outcomes) := Replay(s, trace);
            && Between(t) && t.nodes == s.nodes
            && ServedByFirst(s.nodes, outcomes, |s.nodes|) == |trace| && ServedOn(outcomes, s.nodes[b].id) == 0
    decreases |trace|
  {
    hide Replay1, Inv, NothingPinned, AllIdle, PoolsMatch, Known, Node.Fits, SomeFits, ServedByFirst, ServedOn, Choose;
    if trace == [] {
      FirstServeNone(s.nodes, |s.nodes|);
      NoneServed(s.nodes[b].id);
    } else {
      var last := |trace| - 1;
      CopiesAvoid(s, r, trace[..last], b);
      var (t, done) := Replay(s, trace[..last]);
      RoundOutcome(t, r);
      var o := Replay1(t, r).1;
      var k := Choose(t.scheduler, t.nodes, r).1.value;
      FirstServeOne(s.nodes, done, o, k, |s.nodes|);
      OneOutcome(done, o, s.nodes[b].id);
      assert k < b ==> s.nodes[k].id != s.nodes[b].id;
      assert b < k ==> s.nodes[b].id != s.nodes[k].id;
      assert Replay(s, trace).1 == done + [o];
    }
  }

  lemma NoneServed(node: string)
    ensures ServedOn([], node) == 0
  {
  }

  lemma {:induction false} FewServed(nodes: seq<Node>, outcomes: seq<Outcome>, b: nat, i: nat)
    requires Even(nodes, outcomes) && b < |nodes| && ServedOn(outcomes, nodes[b].id) == 0 && i <= |nodes|
    ensures ServedByFirst(nodes, outcomes, i) <= i - (if b < i then 1 else 0)
  {
    hide ServedOn;
    if i > 0 {
      FewServed(nodes, outcomes, b, i - 1);
    }
  }

  ghost predicate Among(trace: seq<Request>, rs: set<Request>) {
    forall i :: 0 <= i < |trace| ==> trace[i] in rs
  }

  /** Exactly when round-robin is fair in the number of requests, on every trace of requests
      from a given set: when each of them fits all nodes of the cluster or none. */
  lemma RoundRobinEvenIff(s: Cluster, rs: set<Request>)
    requires Between(s) && s.scheduler.RoundRobin?
    ensures (forall trace :: Among(trace, rs) ==> Even(s.nodes, Replay(s, trace).1)) <==>
            forall r :: r in rs ==> AllOrNone(s.nodes, r)
  {
    hide Replay, AllOrNone, Even, Inv, NothingPinned, AllIdle, PoolsMatch, Known, Sized, DistinctIds;
    if forall r :: r in rs ==> AllOrNone(s.nodes, r) {
      forall trace | Among(trace, rs)
        ensures Even(s.nodes, Replay(s, trace).1)
      {
        RoundRobinIsEven(s, trace);
      }
    } else {
      var r :| r in rs && !AllOrNone(s.nodes, r);
      var trace := seq(|s.nodes|, _ => r);
      UnevenCopies(s, r, trace);
      assert Among(trace, rs);
    }
  }

  lemma UnevenCopies(s: Cluster, r: Request, trace: seq<Request>)
    requires Between(s) && !AllOrNone(s.nodes, r)
    requires |trace| == |s.nodes| && forall i :: 0 <= i < |trace| ==> trace[i] == r
    ensures !Even(s.nodes, Replay(s, trace).1)
  {
    var a, b :| 0 <= a < |s.nodes| && 0 <= b < |s.nodes| && s.nodes[a].Fits(r) && !s.nodes[b].Fits(r);
    assert SomeFits(s.nodes, r);
    hide Replay, Between, Node.Fits, SomeFits;
    CopiesAvoid(s, r, trace, b);
    var outcomes := Replay(s, trace).1;
    if Even(s.nodes, outcomes) {
      FewServed(s.nodes, outcomes, b, |s.nodes|);
    }
  }

  // ------------------------------------------------------- the load-aware baselines

  /** The first node that fits. */
  ghost predicate FirstFit(nodes: seq<Node>, r: Request, k: nat) {
    k < |nodes| && nodes[k].Fits(r) && forall i :: 0 <= i < k ==> !nodes[i].Fits(r)
  }

  ghost predicate ToFirst(nodes: seq<Node>, r: Request, o: Outcome) {
    o.Completed? ==> exists k: nat :: FirstFit(nodes, r, k) && o.node == nodes[k].id
  }

  /** On idle nodes all scores tie, so least-loaded and memory-aware take the first that fits. */
  lemma LoadAwareTakesFirst(b: Baseline, nodes: seq<Node>, r: Request)
    requires !b.RoundRobin? && AllIdle(nodes) && Sized(nodes)
    ensures var choice := Choose(b, nodes, r).1;
            choice.Some? ==> FirstFit(nodes, r, choice.value)
  {
    var keys := BaselineKeys(b, nodes, r);
    BestIsFirstMaximum(keys);
    forall i, k | 0 <= i < |nodes| && 0 <= k < |nodes| && nodes[i].Fits(r) && nodes[k].Fits(r)
      ensures keys[i] == keys[k]
    {
      IdleKey(b, nodes[i], r);
      IdleKey(b, nodes[k], r);
    }
  }

  lemma IdleKey(b: Baseline, n: Node, r: Request)
    requires !b.RoundRobin? && n.Idle() && n.totalMemory > 0.0 && n.Fits(r)
    ensures (if b.LeastLoaded? then LeastLoadedKey(n) else MemoryAwareKey(n, b.alpha, b.beta))
            == if b.LeastLoaded? then Key(0.0, 0.0) else Key(b.alpha + b.beta, 0.0)
  {
  }

  /** Since the replay leaves all nodes idle between requests, the load-aware baselines see no
      load at all: each accepted request goes to the first node that it fits, and with equal
      nodes the first one serves them all. */
  lemma {:induction false} LoadAwareNeverSpreads(s: Cluster, trace: seq<Request>)
    requires Between(s) && !s.scheduler.RoundRobin?
    ensures var (t, outcomes) := Replay(s, trace);
            && Between(t) && t.nodes == s.nodes && t.scheduler == s.scheduler
            && forall i :: 0 <= i < |trace| ==> ToFirst(s.nodes, trace[i], outcomes[i])
    decreases |trace|
  {
    hide Replay1, Inv, NothingPinned, AllIdle, PoolsMatch, Known, Sized, DistinctIds, ToFirst;
    if trace != [] {
      var last := |trace| - 1;
      LoadAwareNeverSpreads(s, trace[..last]);
      var (t, done) := Replay(s, trace[..last]);
      RoundToFirst(t, trace[last]);
      assert Replay(s, trace).1 == done + [Replay1(t, trace[last]).1];
      assert forall i :: 0 <= i < last ==> trace[..last][i] == trace[i];
    }
  }

  lemma RoundToFirst(s: Cluster, r: Request)
    requires Between(s) && !s.scheduler.RoundRobin?
    ensures var (t, o) := Replay1(s, r);
            Between(t) && t.nodes == s.nodes && t.scheduler == s.scheduler && ToFirst(s.nodes, r, o)
  {
    hide Replay1, Inv, NothingPinned, PoolsMatch, Known, Node.Fits, SomeFits, FirstFit, Best, BaselineKeys;
    RoundOutcome(s, r);
    LoadAwareTakesFirst(s.scheduler, s.nodes, r);
    var choice := Choose(s.scheduler, s.nodes, r).1;
    if choice.Some? {
      assert FirstFit(s.nodes, r, choice.value);
    }
  }
}
