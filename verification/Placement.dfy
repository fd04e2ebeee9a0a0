/** Choosing a node: control_plane/placement_engine/placement_engine.py and the three
    baseline policies of control_plane/scheduler. */
module Placement {
  import opened Models

  // --------------------------------------------------------- first maximum

  /** What a node is ranked by, compared first component first; bigger is better. */
  datatype Key = Key(major: real, minor: real)
  {
    predicate Above(other: Key) {
      major > other.major || (major == other.major && minor > other.minor)
    }
  }

  /** Python's max over the entries that are there: the first one that none exceeds. */
  function Best(keys: seq<Option<Key>>): (r: Option<nat>)
    ensures r.Some? ==> r.value < |keys| && keys[r.value].Some?
  {
    if keys == [] then None
    else
      var n := |keys| - 1;
      var best := Best(keys[..n]);
      if keys[n].None? then best
      else if best.None? || keys[n].value.Above(keys[best.value].value) then Some(n)
      else best
  }

  lemma {:induction false} BestIsFirstMaximum(keys: seq<Option<Key>>)
    ensures Best(keys).None? <==> forall k :: 0 <= k < |keys| ==> keys[k].None?
    ensures Best(keys).Some? ==>
              var b := Best(keys).value;
              && (forall k :: 0 <= k < |keys| && keys[k].Some? ==> !keys[k].value.Above(keys[b].value))
              && (forall k :: 0 <= k < b && keys[k].Some? ==> keys[b].value.Above(keys[k].value))
  {
    if keys != [] {
      var n := |keys| - 1;
      var front := keys[..n];
      BestIsFirstMaximum(front);
      assert forall k :: 0 <= k < n ==> keys[k] == front[k];
    }
  }

  // ------------------------------------------------------ placement engine

  /** What _score_node reads besides the node: the node's hit rate and a TTFT estimate in ms,
      from the predictor or the heuristic. */
  datatype Hint = Hint(hitRate: real, ttft: real)

  function ScoreNode(n: Node, r: Request, h: Hint): real
    requires n.totalMemory > 0.0
  {
    var headroom := n.KvFree() as real / Max(1, n.kvTotal) as real;
    var affinity := if Truthy(r.prefixHash) then h.hitRate else 0.0;
    var nvlink := if n.nvlink && r.IsLongContext() then 0.1 else 0.0;
    var urgency := if 1.0 - h.ttft / 500.0 > 0.0 then 1.0 - h.ttft / 500.0 else 0.0;
    0.40 * headroom + 0.25 * (1.0 - n.MemoryPressure()) + 0.20 * (1.0 - n.ComputeUtilization())
      + 0.15 * affinity + nvlink + (if r.sla.Realtime? then 0.2 * urgency else 0.0)
  }

  function PlacementKeys(nodes: seq<Node>, r: Request, hints: nat -> Hint): (keys: seq<Option<Key>>)
    requires Sized(nodes)
    ensures |keys| == |nodes| && forall k :: 0 <= k < |nodes| ==> (keys[k].Some? <==> nodes[k].Fits(r))
  {
    seq(|nodes|, k requires 0 <= k < |nodes| =>
      if nodes[k].Fits(r) then Some(Key(ScoreNode(nodes[k], r, hints(k)), 0.0)) else None)
  }

  function Place(nodes: seq<Node>, r: Request, hints: nat -> Hint): Option<nat>
    requires Sized(nodes)
  {
    Best(PlacementKeys(nodes, r, hints))
  }

  predicate SomeFits(nodes: seq<Node>, r: Request) {
    exists k :: 0 <= k < |nodes| && nodes[k].Fits(r)
  }

  /** place returns None exactly when no node fits; otherwise a node that fits, of highest score. */
  lemma PlaceFindsBest(nodes: seq<Node>, r: Request, hints: nat -> Hint)
    requires Sized(nodes)
    ensures Place(nodes, r, hints).Some? <==> SomeFits(nodes, r)
    ensures Place(nodes, r, hints).Some? ==>
              var b := Place(nodes, r, hints).value;
              && b < |nodes| && nodes[b].Fits(r)
              && forall k :: 0 <= k < |nodes| && nodes[k].Fits(r) ==>
                   ScoreNode(nodes[k], r, hints(k)) <= ScoreNode(nodes[b], r, hints(b))
  {
    var keys := PlacementKeys(nodes, r, hints);
    BestIsFirstMaximum(keys);
    if SomeFits(nodes, r) {
      var k :| 0 <= k < |nodes| && nodes[k].Fits(r);
      assert keys[k].Some?;
    }
    if Best(keys).Some? {
      var b := Best(keys).value;
      hide ScoreNode;
      forall k | 0 <= k < |nodes| && nodes[k].Fits(r)
        ensures ScoreNode(nodes[k], r, hints(k)) <= ScoreNode(nodes[b], r, hints(b))
      {
        assert !keys[k].value.Above(keys[b].value);
      }
    }
  }

  // ---------------------------------------------------------- the baselines

  datatype Baseline =
    | RoundRobin(cursor: nat, counter: nat)
    | LeastLoaded
    | MemoryAware(alpha: real, beta: real)
  {
    /** The cursor of itertools.cycle stands on a node. */
    predicate Sane(n: nat) {
      RoundRobin? && n > 0 ==> cursor < n
    }
  }

  function LeastLoadedKey(n: Node): Key
    requires n.totalMemory > 0.0
  {
    Key(-(n.active as real), -n.MemoryPressure())
  }

  function MemoryAwareKey(n: Node, alpha: real, beta: real): Key {
    Key(alpha * (n.KvFree() as real / Max(1, n.kvTotal) as real) + beta * (1.0 - n.ComputeUtilization()), 0.0)
  }

  function BaselineKeys(b: Baseline, nodes: seq<Node>, r: Request): (keys: seq<Option<Key>>)
    requires Sized(nodes) && !b.RoundRobin?
    ensures |keys| == |nodes| && forall k :: 0 <= k < |nodes| ==> (keys[k].Some? <==> nodes[k].Fits(r))
  {
    seq(|nodes|, k requires 0 <= k < |nodes| =>
      if !nodes[k].Fits(r) then None
      else if b.LeastLoaded? then Some(LeastLoadedKey(nodes[k]))
      else Some(MemoryAwareKey(nodes[k], b.alpha, b.beta)))
  }

  /** The round-robin loop with `tries` nodes left to look at. */
  function Rotate(nodes: seq<Node>, r: Request, cursor: nat, counter: nat, tries: nat): (Baseline, Option<nat>)
    requires nodes != [] ==> cursor < |nodes|
    requires nodes == [] ==> tries == 0
    decreases tries
  {
    if tries == 0 then (RoundRobin(cursor, counter), None)
    else
      var next := if cursor + 1 == |nodes| then 0 else cursor + 1;
      if nodes[cursor].Fits(r) then (RoundRobin(next, counter + 1), Some(cursor))
      else Rotate(nodes, r, next, counter + 1, tries - 1)
  }

  function Choose(b: Baseline, nodes: seq<Node>, r: Request): (Baseline, Option<nat>)
    requires Sized(nodes) && b.Sane(|nodes|)
  {
    if b.RoundRobin? then Rotate(nodes, r, b.cursor, b.counter, |nodes|)
    else (b, Best(BaselineKeys(b, nodes, r)))
  }

  /** The node reached after `steps` steps of the cycle, at most one turn. */
  function Ahead(cursor: nat, steps: nat, n: nat): (k: nat)
    requires cursor < n && steps <= n
    ensures k < n
  {
    if cursor + steps < n then cursor + steps else cursor + steps - n
  }

  /** The loop takes the first fitting node in cyclic order, looking at no node twice, and
      leaves the cursor behind it; if none fits it has looked at every node once. */
  lemma {:induction false} RotateSpec(nodes: seq<Node>, r: Request, cursor: nat, counter: nat, tries: nat)
    returns (steps: nat)
    requires nodes != [] && cursor < |nodes| && tries <= |nodes|
    ensures steps <= tries
    ensures forall j :: 0 <= j < steps ==> !nodes[Ahead(cursor, j, |nodes|)].Fits(r)
    ensures var (b, k) := Rotate(nodes, r, cursor, counter, tries);
            match k
            case None => steps == tries && b == RoundRobin(Ahead(cursor, tries, |nodes|), counter + tries)
            case Some(i) => steps < tries && i == Ahead(cursor, steps, |nodes|) && nodes[i].Fits(r)
                            && b == RoundRobin(Ahead(cursor, steps + 1, |nodes|), counter + steps + 1)
    decreases tries
  {
    var n := |nodes|;
    if tries == 0 || nodes[cursor].Fits(r) {
      steps := 0;
    } else {
      var next := Ahead(cursor, 1, n);
      var rest := RotateSpec(nodes, r, next, counter + 1, tries - 1);
      steps := rest + 1;
      hide Node.Fits;
      forall j | 0 <= j < steps
        ensures !nodes[Ahead(cursor, j, n)].Fits(r)
      {
        if j > 0 {
          assert Ahead(next, j - 1, n) == Ahead(cursor, j, n);
        }
      }
    }
  }

  /** Every node lies within one turn of the cursor. */
  lemma TurnReaches(cursor: nat, k: nat, n: nat) returns (j: nat)
    requires k < n && cursor < n
    ensures j < n && Ahead(cursor, j, n) == k
  {
    j := if k >= cursor then k - cursor else k + n - cursor;
  }

  /** All three baselines accept a request exactly when some node fits it, and place it on a
      node that fits; a rejecting round-robin call leaves its cursor where it was. */
  lemma BaselinesConserveWork(b: Baseline, nodes: seq<Node>, r: Request)
    requires Sized(nodes) && b.Sane(|nodes|)
    ensures var (b', k) := Choose(b, nodes, r);
            && b'.Sane(|nodes|)
            && (k.Some? <==> SomeFits(nodes, r))
            && (k.Some? ==> k.value < |nodes| && nodes[k.value].Fits(r))
            && (k.None? && b.RoundRobin? ==> b' == b.(counter := b.counter + |nodes|))
  {
    hide Node.Fits, Rotate, BaselineKeys, Best;
    if b.RoundRobin? {
      if nodes == [] {
        RotateNowhere(r, b.cursor, b.counter);
      } else {
        var steps := RotateSpec(nodes, r, b.cursor, b.counter, |nodes|);
        if SomeFits(nodes, r) {
          var k :| 0 <= k < |nodes| && nodes[k].Fits(r);
          var j := TurnReaches(b.cursor, k, |nodes|);
          assert !(j < steps);
          assert Choose(b, nodes, r).1.Some?;
        }
      }
    } else {
      var keys := BaselineKeys(b, nodes, r);
      BestIsFirstMaximum(keys);
      if SomeFits(nodes, r) {
        var k :| 0 <= k < |nodes| && nodes[k].Fits(r);
        assert keys[k].Some?;
      }
    }
  }

  lemma RotateNowhere(r: Request, cursor: nat, counter: nat)
    ensures Rotate([], r, cursor, counter, 0) == (RoundRobin(cursor, counter), None)
  {
  }
}
