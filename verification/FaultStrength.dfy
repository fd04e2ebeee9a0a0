/** When a fault strikes, on which node and how hard, and that in every run without a clash the
    nodes show exactly the faults that are active. */
module FaultStrength {
  import opened Models
  import opened FailureInjection
  import opened FailureRuns

  /** `k` blocks are the share of all blocks that `used` is of the memory, rounded down. */
  ghost predicate IsShare(k: nat, blocks: nat, used: real, total: real) {
    k as real * total <= blocks as real * used < (k + 1) as real * total
  }

  /** The node `d` is what a fault of this kind and magnitude leaves of `n`: a lost node is full; a
      spike adds its share of the whole memory, up to all of it, and the used blocks become the same
      share of the blocks, rounded down; a degraded link loses its share of the bandwidth, a slow
      node its share of the compute and half that share of the bandwidth. */
  ghost predicate HitBy(kind: Kind, magnitude: real, n: Node, d: Node) {
    match kind
    case NodeLoss => d.usedMemory == d.totalMemory && d.kvUsed == d.kvTotal
    case MemorySpike =>
      && d.usedMemory <= d.totalMemory && d.usedMemory - n.usedMemory <= magnitude * d.totalMemory
      && (d.usedMemory == d.totalMemory || d.usedMemory - n.usedMemory == magnitude * d.totalMemory)
      && (d.usedMemory >= 0.0 ==> IsShare(d.kvUsed, d.kvTotal, d.usedMemory, d.totalMemory))
    case NvlinkDegrade => n.bandwidth - d.bandwidth == magnitude * n.bandwidth
    case SlowNode =>
      n.tflops - d.tflops == magnitude * n.tflops && 2.0 * (n.bandwidth - d.bandwidth) == magnitude * n.bandwidth
    case NetworkSlowdown => true
  }

  lemma Scaled(lo: real, x: real, hi: real, total: real, y: real)
    requires lo <= x < hi && total > 0.0 && x * total == y
    ensures lo * total <= y < hi * total
  {
    assert x * total - lo * total == (x - lo) * total;
    assert hi * total - x * total == (hi - x) * total;
  }

  lemma ShareOf(blocks: real, used: real, total: real)
    requires total > 0.0 && used >= 0.0 && blocks >= 0.0
    ensures Portion(blocks, used, total) * total == blocks * used && Portion(blocks, used, total) >= 0.0
  {
    var share := used / total;
    assert share >= 0.0 && share * total == used;
    assert (blocks * share) * total == blocks * (share * total);
  }

  lemma WholeBounds(x: real)
    requires x >= 0.0
    ensures Whole(x) as real <= x < (Whole(x) + 1) as real
  {
  }

  lemma ShareRounded(blocks: nat, used: real, total: real)
    requires total > 0.0 && used >= 0.0
    ensures IsShare(BlocksShare(blocks, used, total), blocks, used, total)
  {
    hide Whole, Portion;
    ShareOf(blocks as real, used, total);
    var x := Portion(blocks as real, used, total);
    var k := Whole(x);
    WholeBounds(x);
    Scaled(k as real, x, (k + 1) as real, total, blocks as real * used);
  }

  lemma SpikeBounds(n: Node, magnitude: real)
    ensures var used := SpikedMemory(n, magnitude);
            && used <= n.totalMemory && used - n.usedMemory <= magnitude * n.totalMemory
            && (used == n.totalMemory || used - n.usedMemory == magnitude * n.totalMemory)
  {
  }

  lemma SpikeIsHitBy(magnitude: real, n: Node, m: Node)
    requires n.totalMemory > 0.0 && SameFrame(n, m) && Same(MemoryUse, n, m)
    ensures HitBy(MemorySpike, magnitude, m, Hit(MemorySpike, magnitude, n))
  {
    hide SpikedMemory, BlocksShare, IsShare;
    var d := Hit(MemorySpike, magnitude, n);
    SpikeBounds(n, magnitude);
    assert d.totalMemory == n.totalMemory && d.kvTotal == n.kvTotal && m.usedMemory == n.usedMemory;
    if d.usedMemory >= 0.0 {
      ShareRounded(n.kvTotal, d.usedMemory, n.totalMemory);
    }
  }

  /** On a node whose touched attributes are the original ones, the fault is as strong as said. */
  lemma HitIsHitBy(kind: Kind, magnitude: real, n: Node, m: Node)
    requires n.totalMemory > 0.0 && SameFrame(n, m) && forall a :: Touches(kind, a) ==> Same(a, n, m)
    ensures HitBy(kind, magnitude, m, Hit(kind, magnitude, n))
  {
    match kind {
      case NodeLoss =>
      case MemorySpike =>
        assert Same(MemoryUse, n, m);
        SpikeIsHitBy(magnitude, n, m);
      case NvlinkDegrade =>
        assert Same(Bandwidth, n, m);
      case SlowNode =>
        assert Same(Bandwidth, n, m) && Same(Compute, n, m);
      case NetworkSlowdown =>
    }
  }

  lemma HitByStays(kind: Kind, magnitude: real, n: Node, d: Node, e: Node)
    requires HitBy(kind, magnitude, n, d) && SameFrame(e, d) && forall a :: Touches(kind, a) ==> Same(a, e, d)
    ensures HitBy(kind, magnitude, n, e)
  {
    match kind {
      case NodeLoss => assert Same(MemoryUse, e, d);
      case MemorySpike => assert Same(MemoryUse, e, d);
      case NvlinkDegrade => assert Same(Bandwidth, e, d);
      case SlowNode => assert Same(Bandwidth, e, d) && Same(Compute, e, d);
      case NetworkSlowdown =>
    }
  }

  // ------------------------------------------------------------------ one turn

  /** The event names a node that the injector knows. */
  ghost predicate Names(s: Injector, e: Event, id: string) {
    e.target == Some(id) && id != "" && id in s.nodes
  }

  lemma {:induction false} AliveMembers(ids: seq<string>, dead: set<string>)
    ensures Alive(ids, dead) == [] <==> forall k :: 0 <= k < |ids| ==> ids[k] in dead
  {
    if ids != [] {
      var n := |ids| - 1;
      AliveMembers(ids[..n], dead);
      assert forall k :: 0 <= k < n ==> ids[..n][k] == ids[k];
    }
  }

  /** An active fault ends in its turn exactly if it recovers by itself and its duration is over. */
  lemma TurnEnds(s: Injector, i: nat, now: real)
    requires Sound(s) && i < |s.events| && s.events[i].active
    ensures var e := s.events[i];
            var over := e.autoRecover && e.duration.Some?
                        && now >= (if e.triggeredAt.Some? then e.triggeredAt.value else 0.0) + e.duration.value;
            && Visit(s, i, now).events[i].active == !over
            && (!over ==> Visit(s, i, now) == s)
            && (over && e.target.Some? ==>
                  Visit(s, i, now).history == s.history + [Restored(e.tag, e.kind, e.target.value)])
  {
  }

  /** When an inactive fault is due: at its time or after, or else by chance. */
  ghost predicate Due(s: Injector, e: Event, now: real) {
    if e.triggerTime.Some? then now >= e.triggerTime.value else s.draw(s.draws) < e.triggerProb && 0.0 < e.triggerProb
  }

  ghost predicate SomeTarget(s: Injector, e: Event) {
    (exists id :: Names(s, e, id)) || (exists k :: 0 <= k < |s.ids| && s.ids[k] !in s.dead)
  }

  /** An inactive fault strikes in its turn exactly if it is due and some node can be struck; then it
      strikes the node it names, or else one that is up, as hard as its magnitude says, and no other. */
  lemma TurnStrikes(s: Injector, i: nat, now: real) returns (id: string)
    requires Sound(s) && i < |s.events| && !s.events[i].active
    ensures var e, t := s.events[i], Visit(s, i, now);
            && (t.events[i].active <==> Due(s, e, now) && SomeTarget(s, e))
            && (!t.events[i].active ==>
                  t.nodes == s.nodes && t.events == s.events && t.dead == s.dead && t.history == s.history)
            && t.draws == s.draws + (if e.triggerTime.None? && e.triggerProb > 0.0 then 1 else 0)
            && (t.events[i].active ==>
                  && id in s.nodes && t.events[i].target == Some(id) && t.events[i].triggeredAt == Some(now)
                  && (Names(s, e, id) || ((forall a :: !Names(s, e, a)) && id in s.ids && id !in s.dead))
                  && t.history == s.history + [Triggered(e.tag, e.kind, id, now)]
                  && t.dead == s.dead + (if e.kind.NodeLoss? then {id} else {})
                  && t.nodes.Keys == s.nodes.Keys && (forall a :: a in s.nodes && a != id ==> t.nodes[a] == s.nodes[a])
                  && HitBy(e.kind, e.magnitude, s.nodes[id], t.nodes[id]))
  {
    hide Hit, HitBy, Save;
    var e := s.events[i];
    AliveMembers(s.ids, s.dead);
    var target := TargetOf(s, e);
    assert target.Some? <==> SomeTarget(s, e) by {
      if Truthy(e.target) && e.target.value in s.nodes {
        assert Names(s, e, e.target.value);
      }
    }
    id := if target.Some? then target.value else "";
    if target.Some? {
      Unchanged(s.nodes[id]);
      HitIsHitBy(e.kind, e.magnitude, s.nodes[id], s.nodes[id]);
    }
  }

  /** step returns exactly the faults that were inactive and due when their turn came, struck or
      not. */
  lemma {:induction false} FiredIff(s: Injector, k: nat, now: real, i: nat)
    requires Sound(s) && i < k <= |s.events|
    ensures var u := Visits(s, i, now);
            i in Fired(s, k, now) <==> !u.events[i].active && Due(u, u.events[i], now)
  {
    hide Visit;
    if i < k - 1 {
      FiredIff(s, k - 1, now, i);
    }
  }

  lemma Unchanged(n: Node)
    ensures SameFrame(n, n) && forall a :: Same(a, n, n)
  {
  }

  // ----------------------------------------------------------------- whole runs

  /** Every active fault shows on its node with the strength of its magnitude. */
  ghost predicate Shows(s: Injector, orig: map<string, Node>) {
    forall i, id :: 0 <= i < |s.events| && Targets(s.events[i], id) && id in s.nodes && id in orig ==>
      HitBy(s.events[i].kind, s.events[i].magnitude, orig[id], s.nodes[id])
  }

  lemma OtherFaultsShow(e: Event, f: Event, id: string, orig: Node, n: Node, d: Node)
    requires HitBy(f.kind, f.magnitude, orig, n) && SameFrame(d, n)
    requires forall a :: !Touches(e.kind, a) ==> Same(a, d, n)
    requires forall a :: !(Touches(e.kind, a) && Touches(f.kind, a))
    ensures HitBy(f.kind, f.magnitude, orig, d)
  {
    hide HitBy, SameFrame, Same, Touches;
    HitByStays(f.kind, f.magnitude, orig, n, d);
  }

  lemma ApplyShows(s: Injector, orig: map<string, Node>, i: nat, now: real)
    requires Sound(s) && Inv(s, orig) && Shows(s, orig) && i < |s.events| && !s.events[i].active
    requires NoClash(Applied(s, i, now).events)
    ensures Shows(Applied(s, i, now), orig)
  {
    var e, t := s.events[i], Applied(s, i, now);
    if TargetOf(s, e).Some? {
      var id := TargetOf(s, e).value;
      Undisturbed(s.events, t.events, i, id);
      assert NodeOk(s.nodes[id], orig[id], id, s.events);
      HitTouches(e.kind, e.magnitude, s.nodes[id]);
      hide HitBy, SameFrame, Same, Touches, Hit, Save;
      HitIsHitBy(e.kind, e.magnitude, s.nodes[id], orig[id]);
      forall j, at | 0 <= j < |t.events| && Targets(t.events[j], at) && at in t.nodes && at in orig
        ensures HitBy(t.events[j].kind, t.events[j].magnitude, orig[at], t.nodes[at])
      {
        if j != i {
          assert Targets(s.events[j], at);
          if at == id {
            OtherFaultsShow(e, s.events[j], id, orig[id], s.nodes[id], t.nodes[id]);
          }
        }
      }
    }
  }

  lemma RecoverShows(s: Injector, orig: map<string, Node>, i: nat)
    requires Sound(s) && Inv(s, orig) && Shows(s, orig) && NoClash(s.events) && i < |s.events| && s.events[i].active
    ensures Shows(Recovered(s, i), orig)
  {
    var e, t := s.events[i], Recovered(s, i);
    assert Remembers(e, orig);
    var id := e.target.value;
    assert NodeOk(s.nodes[id], orig[id], id, s.events);
    RestoresTouched(e.kind, s.nodes[id], orig[id]);
    SameFrameTurns(t.nodes[id], s.nodes[id], orig[id]);
    hide HitBy, SameFrame, Same, Touches, Restore, Save;
    forall j, at | 0 <= j < |t.events| && Targets(t.events[j], at) && at in t.nodes && at in orig
      ensures HitBy(t.events[j].kind, t.events[j].magnitude, orig[at], t.nodes[at])
    {
      assert j != i && Targets(s.events[j], at);
      if at == id {
        OtherFaultsShow(e, s.events[j], id, orig[id], s.nodes[id], t.nodes[id]);
      }
    }
  }

  lemma SameFrameTurns(n: Node, m: Node, o: Node)
    requires SameFrame(n, o) && SameFrame(m, o)
    ensures SameFrame(n, m)
  {
  }

  lemma VisitShows(s: Injector, orig: map<string, Node>, i: nat, now: real)
    requires Sound(s) && Inv(s, orig) && Shows(s, orig) && NoClash(s.events) && i < |s.events|
    requires NoClash(Visit(s, i, now).events)
    ensures Shows(Visit(s, i, now), orig)
  {
    hide Inv, NoClash, Applied, Recovered, HitBy;
    var e := s.events[i];
    if Expired(e, now) {
      RecoverShows(s, orig, i);
    } else if !e.active {
      var drawn := s.(draws := s.draws + (if Tosses(e) then 1 else 0));
      DrawKeepsInv(s, orig, drawn.draws);
      if Fires(s, e, now) {
        ApplyShows(drawn, orig, i, now);
      }
    }
  }

  lemma {:induction false} VisitsShow(s: Injector, orig: map<string, Node>, k: nat, now: real)
    requires Sound(s) && Inv(s, orig) && Shows(s, orig) && ClashFreeStep(s, now) && k <= |s.events|
    ensures Shows(Visits(s, k, now), orig)
  {
    hide Inv, NoClash, Visit, Shows;
    if k > 0 {
      VisitsShow(s, orig, k - 1, now);
      VisitsKeepInv(s, orig, k - 1, now);
      assert NoClash(Visits(s, k - 1, now).events) && NoClash(Visits(s, k, now).events);
      VisitShows(Visits(s, k - 1, now), orig, k - 1, now);
    }
  }

  lemma {:induction false} RunKeepsShows(s: Injector, times: seq<real>)
    requires Fresh(s) && ClashFree(s, times)
    ensures Shows(Run(s, times), s.nodes)
  {
    hide Inv, NoClash, Visits, HitBy;
    if times != [] {
      var n := |times| - 1;
      RunKeepsShows(s, times[..n]);
      FreshInv(s);
      RunKeepsInv(s, s.nodes, times[..n]);
      var before := Run(s, times[..n]);
      VisitsShow(before, s.nodes, |before.events|, times[n]);
    }
  }

  /** In every run without a clash each node shows exactly the faults that are active on it: every
      one with the strength of its magnitude measured on the original, and what none of them
      touches is the original. */
  lemma NodesShowFaults(s: Injector, times: seq<real>, id: string)
    requires Fresh(s) && ClashFree(s, times) && id in s.nodes
    ensures var t := Run(s, times);
            && id in t.nodes
            && (forall i :: 0 <= i < |t.events| && Targets(t.events[i], id) ==>
                  HitBy(t.events[i].kind, t.events[i].magnitude, s.nodes[id], t.nodes[id]))
            && (forall a :: !Disturbed(t.events, id, a) ==> Same(a, t.nodes[id], s.nodes[id]))
            && SameFrame(t.nodes[id], s.nodes[id])
            && (id in t.dead <==> Down(t.events, id))
  {
    hide NoClash, Run, HitBy, SameFrame, Same, Disturbed, Down;
    FreshInv(s);
    RunKeepsInv(s, s.nodes, times);
    RunKeepsShows(s, times);
    assert NodeOk(Run(s, times).nodes[id], s.nodes[id], id, Run(s, times).events);
  }
}
