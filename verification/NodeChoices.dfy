/** Which node the load-aware schedulers and the placement engine choose, in terms of the
    counters of the nodes. */
module NodeChoices {
  import opened Models
  import opened Placement

  /** Used over total memory. */
  ghost function Pressure(n: Node): real
    requires n.totalMemory > 0.0
  {
    n.usedMemory / n.totalMemory
  }

  /** Free over total blocks of the KV pool; nothing for a node without a pool. */
  ghost function FreeShare(n: Node): real {
    if n.kvUsed >= n.kvTotal then 0.0 else (n.kvTotal - n.kvUsed) as real / n.kvTotal as real
  }

  /** A twentieth for each running request, up to all of the node. */
  ghost function Busy(n: Node): real {
    if n.active >= 20 then 1.0 else n.active as real / 20.0
  }

  lemma FreeShareIs(n: Node)
    ensures n.KvFree() as real / Max(1, n.kvTotal) as real == FreeShare(n)
  {
  }

  // ------------------------------------------------------------- least_loaded

  /** Fewer running requests, or as many and less pressure. */
  ghost predicate LessLoaded(a: Node, b: Node)
    requires a.totalMemory > 0.0 && b.totalMemory > 0.0
  {
    a.active < b.active || (a.active == b.active && Pressure(a) < Pressure(b))
  }

  /** Node k fits, no node that fits is less loaded, and every earlier one that fits is more
      loaded. */
  ghost predicate IsLeastLoaded(nodes: seq<Node>, r: Request, k: nat)
    requires Sized(nodes)
  {
    && k < |nodes| && nodes[k].Fits(r)
    && (forall j :: 0 <= j < |nodes| && nodes[j].Fits(r) ==> !LessLoaded(nodes[j], nodes[k]))
    && (forall j :: 0 <= j < k && nodes[j].Fits(r) ==> LessLoaded(nodes[k], nodes[j]))
  }

  lemma LeastLoadedChoice(nodes: seq<Node>, r: Request)
    requires Sized(nodes)
    ensures var choice := Choose(LeastLoaded, nodes, r).1;
            && (choice.Some? <==> SomeFits(nodes, r))
            && (choice.Some? ==> IsLeastLoaded(nodes, r, choice.value))
  {
    BaselinesConserveWork(LeastLoaded, nodes, r);
    var keys := BaselineKeys(LeastLoaded, nodes, r);
    BestIsFirstMaximum(keys);
    hide Node.Fits, SomeFits, Best;
    var choice := Choose(LeastLoaded, nodes, r).1;
    if choice.Some? {
      var k := choice.value;
      forall j | 0 <= j < |nodes| && nodes[j].Fits(r)
        ensures LessLoaded(nodes[j], nodes[k]) <==> keys[j].value.Above(keys[k].value)
        ensures LessLoaded(nodes[k], nodes[j]) <==> keys[k].value.Above(keys[j].value)
      {
      }
    }
  }

  // ------------------------------------------------------------- memory_aware

  /** The greater free share of `a`, weighed by alpha, makes up for its greater load, weighed
      by beta. */
  ghost predicate MakesUp(alpha: real, beta: real, a: Node, b: Node) {
    alpha * (FreeShare(a) - FreeShare(b)) >= beta * (Busy(a) - Busy(b))
  }

  ghost predicate MoreThanMakesUp(alpha: real, beta: real, a: Node, b: Node) {
    alpha * (FreeShare(a) - FreeShare(b)) > beta * (Busy(a) - Busy(b))
  }

  ghost predicate IsMemoryAware(alpha: real, beta: real, nodes: seq<Node>, r: Request, k: nat) {
    && k < |nodes| && nodes[k].Fits(r)
    && (forall j :: 0 <= j < |nodes| && nodes[j].Fits(r) ==> MakesUp(alpha, beta, nodes[k], nodes[j]))
    && (forall j :: 0 <= j < k && nodes[j].Fits(r) ==> MoreThanMakesUp(alpha, beta, nodes[k], nodes[j]))
  }

  lemma MemoryAwareKeyIs(n: Node, alpha: real, beta: real)
    ensures MemoryAwareKey(n, alpha, beta) == Key(alpha * FreeShare(n) + beta * (1.0 - Busy(n)), 0.0)
  {
    FreeShareIs(n);
    assert n.ComputeUtilization() == Busy(n);
  }

  lemma WorthDifference(alpha: real, beta: real, a: Node, b: Node)
    ensures MemoryAwareKey(a, alpha, beta).major - MemoryAwareKey(b, alpha, beta).major
            == alpha * (FreeShare(a) - FreeShare(b)) - beta * (Busy(a) - Busy(b))
    ensures MemoryAwareKey(a, alpha, beta).minor == MemoryAwareKey(b, alpha, beta).minor
  {
    hide MemoryAwareKey, FreeShare, Busy;
    MemoryAwareKeyIs(a, alpha, beta);
    MemoryAwareKeyIs(b, alpha, beta);
    Difference(alpha, beta, FreeShare(a), FreeShare(b), Busy(a), Busy(b));
  }

  lemma Difference(alpha: real, beta: real, f: real, g: real, u: real, v: real)
    ensures (alpha * f + beta * (1.0 - u)) - (alpha * g + beta * (1.0 - v)) == alpha * (f - g) - beta * (u - v)
  {
  }

  lemma KeysCompare(alpha: real, beta: real, a: Node, b: Node)
    ensures !MemoryAwareKey(b, alpha, beta).Above(MemoryAwareKey(a, alpha, beta)) <==> MakesUp(alpha, beta, a, b)
    ensures MemoryAwareKey(a, alpha, beta).Above(MemoryAwareKey(b, alpha, beta)) <==>
            MoreThanMakesUp(alpha, beta, a, b)
  {
    WorthDifference(alpha, beta, a, b);
    var p, q := alpha * (FreeShare(a) - FreeShare(b)), beta * (Busy(a) - Busy(b));
    var x, y := MemoryAwareKey(a, alpha, beta).major, MemoryAwareKey(b, alpha, beta).major;
    hide MemoryAwareKey, FreeShare, Busy;
    assert x - y == p - q;
  }

  /** The greater free share of the node taken makes up for its greater load against every node
      that fits, and more than that against every earlier one. */
  lemma MemoryAwareChoice(alpha: real, beta: real, nodes: seq<Node>, r: Request)
    requires Sized(nodes)
    ensures var choice := Choose(MemoryAware(alpha, beta), nodes, r).1;
            && (choice.Some? <==> SomeFits(nodes, r))
            && (choice.Some? ==> IsMemoryAware(alpha, beta, nodes, r, choice.value))
  {
    hide Node.Fits, SomeFits, Best, MemoryAwareKey, MakesUp, MoreThanMakesUp, Key.Above;
    var b := MemoryAware(alpha, beta);
    BaselinesConserveWork(b, nodes, r);
    var keys := BaselineKeys(b, nodes, r);
    BestIsFirstMaximum(keys);
    var choice := Choose(b, nodes, r).1;
    if choice.Some? {
      var k := choice.value;
      forall j | 0 <= j < |nodes| && nodes[j].Fits(r)
        ensures MakesUp(alpha, beta, nodes[k], nodes[j])
        ensures j < k ==> MoreThanMakesUp(alpha, beta, nodes[k], nodes[j])
      {
        KeysCompare(alpha, beta, nodes[k], nodes[j]);
        assert keys[j].Some? && keys[k].Some?;
      }
    }
  }

  /** So with positive weights no node is passed over for one with no more room and more load,
      or with less room and no less load. */
  lemma MemoryAwareNeverPassesOver(alpha: real, beta: real, nodes: seq<Node>, r: Request, j: nat)
    requires Sized(nodes) && alpha > 0.0 && beta > 0.0 && j < |nodes| && nodes[j].Fits(r)
    ensures var choice := Choose(MemoryAware(alpha, beta), nodes, r).1;
            && choice.Some? && choice.value < |nodes|
            && var (f, g) := (FreeShare(nodes[choice.value]), FreeShare(nodes[j]));
               var (u, v) := (Busy(nodes[choice.value]), Busy(nodes[j]));
               !(f <= g && u > v) && !(f < g && u >= v)
  {
    hide Node.Fits, FreeShare, Busy, Choose;
    MemoryAwareChoice(alpha, beta, nodes, r);
    assert SomeFits(nodes, r);
    var k := Choose(MemoryAware(alpha, beta), nodes, r).1.value;
    assert MakesUp(alpha, beta, nodes[k], nodes[j]);
    Signs(alpha, FreeShare(nodes[k]) - FreeShare(nodes[j]));
    Signs(beta, Busy(nodes[k]) - Busy(nodes[j]));
  }

  lemma Signs(w: real, x: real)
    requires w > 0.0
    ensures (w * x > 0.0 <==> x > 0.0) && (w * x < 0.0 <==> x < 0.0)
  {
    if x > 0.0 {
      assert w * x > 0.0;
    } else if x < 0.0 {
      assert w * (-x) > 0.0;
    }
  }

  // --------------------------------------------------- least_loaded over a run

  /** Requests scheduled one after the other, none of them completing. */
  function ScheduleAll(nodes: seq<Node>, rs: seq<Request>): (ns: seq<Node>)
    requires Sized(nodes)
    ensures Sized(ns) && |ns| == |nodes|
  {
    if rs == [] then nodes
    else
      var n := |rs| - 1;
      var before := ScheduleAll(nodes, rs[..n]);
      match Choose(LeastLoaded, before, rs[n]).1
      case None => before
      case Some(k) =>
        BaselinesConserveWork(LeastLoaded, before, rs[n]);
        before[k := before[k].Allocate(rs[n].KvBlocksNeeded(), rs[n].EstimatedMemoryGb())]
  }

  /** No node runs two requests more than another. */
  ghost predicate EvenlyLoaded(nodes: seq<Node>) {
    forall i, j :: 0 <= i < |nodes| && 0 <= j < |nodes| ==> nodes[i].active <= nodes[j].active + 1
  }

  ghost predicate AllFit(nodes: seq<Node>, r: Request) {
    forall k :: 0 <= k < |nodes| ==> nodes[k].Fits(r)
  }

  /** As long as every node keeps fitting, the counts of running requests stay within one of
      each other, and each request adds one. */
  lemma {:induction false} LeastLoadedStaysEven(nodes: seq<Node>, rs: seq<Request>)
    requires Sized(nodes) && nodes != [] && EvenlyLoaded(nodes)
    requires forall i :: 0 <= i < |rs| ==> AllFit(ScheduleAll(nodes, rs[..i]), rs[i])
    ensures EvenlyLoaded(ScheduleAll(nodes, rs))
    ensures Started(ScheduleAll(nodes, rs)) == Started(nodes) + |rs|
  {
    if rs != [] {
      var n := |rs| - 1;
      forall i | 0 <= i < n
        ensures AllFit(ScheduleAll(nodes, rs[..n][..i]), rs[..n][i])
      {
        assert rs[..n][..i] == rs[..i];
      }
      LeastLoadedStaysEven(nodes, rs[..n]);
      var before := ScheduleAll(nodes, rs[..n]);
      assert AllFit(before, rs[n]);
      OneMoreEven(before, rs[n]);
    }
  }

  function Started(nodes: seq<Node>): nat {
    if nodes == [] then 0 else Started(nodes[..|nodes| - 1]) + nodes[|nodes| - 1].active
  }

  lemma {:induction false} StartedOne(nodes: seq<Node>, k: nat, n: Node)
    requires k < |nodes| && n.active == nodes[k].active + 1
    ensures Started(nodes[k := n]) == Started(nodes) + 1
  {
    var last := |nodes| - 1;
    if k == last {
      assert nodes[k := n][..last] == nodes[..last];
    } else {
      assert nodes[k := n][..last] == nodes[..last][k := n];
      StartedOne(nodes[..last], k, n);
    }
  }

  lemma OneMoreEven(nodes: seq<Node>, r: Request)
    requires Sized(nodes) && nodes != [] && EvenlyLoaded(nodes) && AllFit(nodes, r)
    ensures var choice := Choose(LeastLoaded, nodes, r).1;
            && choice.Some? && choice.value < |nodes|
            && var n := nodes[choice.value];
               var after := nodes[choice.value := n.Allocate(r.KvBlocksNeeded(), r.EstimatedMemoryGb())];
               EvenlyLoaded(after) && Started(after) == Started(nodes) + 1
  {
    LeastLoadedChoice(nodes, r);
    assert nodes[0].Fits(r);
    hide Node.Fits, Choose;
    var k := Choose(LeastLoaded, nodes, r).1.value;
    StartedOne(nodes, k, nodes[k].Allocate(r.KvBlocksNeeded(), r.EstimatedMemoryGb()));
    assert forall j :: 0 <= j < |nodes| ==> nodes[k].active <= nodes[j].active;
  }

  // ------------------------------------------------------------ placement engine

  /** 1 for an answer at once, falling to 0 at half a second. */
  ghost function Urgency(ttft: real): real {
    if ttft >= 500.0 then 0.0 else (500.0 - ttft) / 500.0
  }

  ghost function Bonus(n: Node): real {
    if n.nvlink then 1.0 else 0.0
  }

  /** By how much one node is better than another for a request. */
  ghost function Advantage(a: Node, b: Node, r: Request, h: Hint, g: Hint): real
    requires a.totalMemory > 0.0 && b.totalMemory > 0.0
  {
    0.40 * (FreeShare(a) - FreeShare(b)) + 0.25 * (Pressure(b) - Pressure(a)) + 0.20 * (Busy(b) - Busy(a))
    + (if r.prefixHash.Some? && r.prefixHash.value != "" then 0.15 * (h.hitRate - g.hitRate) else 0.0)
    + (if r.promptTokens > 8192 then 0.1 * (Bonus(a) - Bonus(b)) else 0.0)
    + (if r.sla.Realtime? then 0.2 * (Urgency(h.ttft) - Urgency(g.ttft)) else 0.0)
  }

  lemma ScoreDifference(a: Node, b: Node, r: Request, h: Hint, g: Hint)
    requires a.totalMemory > 0.0 && b.totalMemory > 0.0
    ensures ScoreNode(a, r, h) - ScoreNode(b, r, g) == Advantage(a, b, r, h, g)
  {
    FreeShareIs(a);
    FreeShareIs(b);
    UrgencyIs(h.ttft);
    UrgencyIs(g.ttft);
    hide FreeShare;
  }

  lemma UrgencyIs(ttft: real)
    ensures (if 1.0 - ttft / 500.0 > 0.0 then 1.0 - ttft / 500.0 else 0.0) == Urgency(ttft)
  {
  }

  /** place decides exactly if some node fits; the node it takes has no disadvantage against
      any that fits, and an advantage over every earlier one. */
  lemma PlaceWeighs(nodes: seq<Node>, r: Request, hints: nat -> Hint)
    requires Sized(nodes)
    ensures var choice := Place(nodes, r, hints);
            && (choice.Some? <==> SomeFits(nodes, r))
            && (choice.Some? ==>
                  var k := choice.value;
                  && k < |nodes| && nodes[k].Fits(r)
                  && (forall j :: 0 <= j < |nodes| && nodes[j].Fits(r) ==>
                        Advantage(nodes[k], nodes[j], r, hints(k), hints(j)) >= 0.0)
                  && (forall j :: 0 <= j < k && nodes[j].Fits(r) ==>
                        Advantage(nodes[k], nodes[j], r, hints(k), hints(j)) > 0.0))
  {
    PlaceFindsBest(nodes, r, hints);
    var keys := PlacementKeys(nodes, r, hints);
    BestIsFirstMaximum(keys);
    hide Node.Fits, SomeFits, Best, ScoreNode, Advantage;
    var choice := Place(nodes, r, hints);
    if choice.Some? {
      var k := choice.value;
      forall j | 0 <= j < |nodes| && nodes[j].Fits(r)
        ensures Advantage(nodes[k], nodes[j], r, hints(k), hints(j)) >= 0.0
        ensures j < k ==> Advantage(nodes[k], nodes[j], r, hints(k), hints(j)) > 0.0
      {
        ScoreDifference(nodes[k], nodes[j], r, hints(k), hints(j));
        assert keys[j].Some? && keys[k].Some?;
      }
    }
  }
}
