/** What fault injection keeps over whole runs, when recover_all undoes it, and what its
    history records. */
module FailureRuns {
  import opened Models
  import opened FailureInjection

  // ------------------------------------------------------------------- invariant

  /** The attributes that faults save; memory stands for used memory and used blocks.  Running
      requests and NVLink are saved but never disturbed. */
  datatype Attribute = MemoryUse | Bandwidth | Compute | Requests | Nvlink

  ghost predicate Touches(kind: Kind, a: Attribute) {
    match kind
    case NodeLoss => a.MemoryUse?
    case MemorySpike => a.MemoryUse?
    case NvlinkDegrade => a.Bandwidth?
    case SlowNode => a.Bandwidth? || a.Compute?
    case NetworkSlowdown => false
  }

  ghost predicate Same(a: Attribute, n: Node, m: Node) {
    match a
    case MemoryUse => n.usedMemory == m.usedMemory && n.kvUsed == m.kvUsed
    case Bandwidth => n.bandwidth == m.bandwidth
    case Compute => n.tflops == m.tflops
    case Requests => n.active == m.active
    case Nvlink => n.nvlink == m.nvlink
  }

  /** Everything that no fault disturbs. */
  ghost predicate SameFrame(n: Node, m: Node) {
    n == m.(usedMemory := n.usedMemory, kvUsed := n.kvUsed, bandwidth := n.bandwidth, tflops := n.tflops)
  }

  ghost predicate Targets(e: Event, id: string) {
    e.active && e.target == Some(id)
  }

  ghost predicate Disturbed(events: seq<Event>, id: string, a: Attribute) {
    exists i :: 0 <= i < |events| && Targets(events[i], id) && Touches(events[i].kind, a)
  }

  /** Two active events never disturb the same attribute of the same node. */
  ghost predicate NoClash(events: seq<Event>) {
    forall i, j, id, a :: 0 <= i < |events| && 0 <= j < |events| && i != j ==>
      !(Targets(events[i], id) && Targets(events[j], id) && Touches(events[i].kind, a) && Touches(events[j].kind, a))
  }

  ghost predicate Down(events: seq<Event>, id: string) {
    exists i :: 0 <= i < |events| && Targets(events[i], id) && events[i].kind.NodeLoss?
  }

  /** An active event can put back what its node had in `orig`. */
  ghost predicate Remembers(e: Event, orig: map<string, Node>) {
    && (e.active ==> e.target.Some? && e.target.value in orig && e.saved == Save(e.kind, orig[e.target.value], Nothing))
    && (e.kind.NetworkSlowdown? ==> e.saved == Nothing)
  }

  ghost predicate NodeOk(n: Node, m: Node, id: string, events: seq<Event>) {
    SameFrame(n, m) && forall a :: !Disturbed(events, id, a) ==> Same(a, n, m)
  }

  /** Every difference from `orig` is accounted for by an active event that remembers it. */
  ghost predicate Inv(s: Injector, orig: map<string, Node>) {
    && s.nodes.Keys == orig.Keys
    && (forall id :: id in s.nodes ==> NodeOk(s.nodes[id], orig[id], id, s.events))
    && (forall i :: 0 <= i < |s.events| ==> Remembers(s.events[i], orig))
    && (forall id :: id in s.dead <==> Down(s.events, id))
  }

  // ------------------------------------------------------------- single faults

  /** Without a clash the event that fires finds what it disturbs undisturbed, so what it
      remembers is the original. */
  lemma ApplyKeepsInv(s: Injector, orig: map<string, Node>, i: nat, now: real)
    requires Sound(s) && Inv(s, orig) && i < |s.events| && !s.events[i].active
    requires NoClash(Applied(s, i, now).events)
    ensures Inv(Applied(s, i, now), orig)
  {
    var e := s.events[i];
    var t := Applied(s, i, now);
    var target := TargetOf(s, e);
    if target.Some? {
      var id := target.value;
      Undisturbed(s.events, t.events, i, id);
      SavesOriginal(s, orig, t.events, i, id);
      FiredAccounts(s, orig, t, i, id);
    }
  }

  lemma FiredAccounts(s: Injector, orig: map<string, Node>, t: Injector, i: nat, id: string)
    requires Sound(s) && Inv(s, orig) && id in s.nodes && Struck(s.events, t.events, i, id)
    requires t.nodes == s.nodes[id := Hit(s.events[i].kind, s.events[i].magnitude, s.nodes[id])]
    requires t.dead == if s.events[i].kind.NodeLoss? then s.dead + {id} else s.dead
    requires t.events[i].saved == Save(s.events[i].kind, orig[id], Nothing)
    ensures Inv(t, orig)
  {
    var e := s.events[i];
    HitTouches(e.kind, e.magnitude, s.nodes[id]);
    hide Hit, Touches, Same, Save, Sound;
    assert Remembers(e, orig);
    forall at | at in t.nodes
      ensures NodeOk(t.nodes[at], orig[at], at, t.events)
    {
      assert NodeOk(s.nodes[at], orig[at], at, s.events);
      FiredEvent(s.events, t.events, i, id, at);
      if at == id {
        SameIsTransitive(t.nodes[id], s.nodes[id], orig[id]);
      }
    }
    forall at
      ensures at in t.dead <==> Down(t.events, at)
    {
      FiredEvent(s.events, t.events, i, id, at);
    }
    forall j | 0 <= j < |t.events|
      ensures Remembers(t.events[j], orig)
    {
      assert Remembers(s.events[j], orig);
      NetworkSavesNothing(e.kind, orig[id]);
    }
  }

  lemma NetworkSavesNothing(kind: Kind, n: Node)
    ensures kind.NetworkSlowdown? ==> Save(kind, n, Nothing) == Nothing
  {
  }

  lemma HitTouches(kind: Kind, magnitude: real, n: Node)
    requires n.totalMemory > 0.0
    ensures var m := Hit(kind, magnitude, n);
            SameFrame(m, n) && forall a :: !Touches(kind, a) ==> Same(a, m, n)
  {
  }

  lemma SameIsTransitive(n: Node, m: Node, o: Node)
    ensures SameFrame(n, m) && SameFrame(m, o) ==> SameFrame(n, o)
    ensures forall a :: Same(a, n, m) && Same(a, m, o) ==> Same(a, n, o)
  {
  }

  /** `after` is `before` with event i, inactive so far, now active on `id`. */
  ghost predicate Struck(before: seq<Event>, after: seq<Event>, i: nat, id: string) {
    && |after| == |before| && i < |before| && !before[i].active
    && Targets(after[i], id) && after[i].kind == before[i].kind
    && forall j :: 0 <= j < |before| && j != i ==> after[j] == before[j]
  }

  lemma FiredEvent(before: seq<Event>, after: seq<Event>, i: nat, id: string, at: string)
    requires Struck(before, after, i, id)
    ensures forall a :: Disturbed(after, at, a) <==>
              Disturbed(before, at, a) || (at == id && Touches(before[i].kind, a))
    ensures Down(after, at) <==> Down(before, at) || (at == id && before[i].kind.NodeLoss?)
  {
    forall a
      ensures Disturbed(after, at, a) <==> Disturbed(before, at, a) || (at == id && Touches(before[i].kind, a))
    {
      if Disturbed(before, at, a) {
        var j :| 0 <= j < |before| && Targets(before[j], at) && Touches(before[j].kind, a);
        assert Targets(after[j], at) && Touches(after[j].kind, a);
      }
      if at == id && Touches(before[i].kind, a) {
        assert Targets(after[i], at) && Touches(after[i].kind, a);
      }
    }
    if Down(before, at) {
      var j :| 0 <= j < |before| && Targets(before[j], at) && before[j].kind.NodeLoss?;
      assert Targets(after[j], at) && after[j].kind.NodeLoss?;
    }
  }

  lemma Undisturbed(before: seq<Event>, after: seq<Event>, i: nat, id: string)
    requires Struck(before, after, i, id) && NoClash(after)
    ensures forall a :: Touches(before[i].kind, a) ==> !Disturbed(before, id, a)
  {
    forall a | Touches(before[i].kind, a)
      ensures !Disturbed(before, id, a)
    {
      forall j | 0 <= j < |before|
        ensures !(Targets(before[j], id) && Touches(before[j].kind, a))
      {
        if j != i {
          assert after[j] == before[j];
        }
      }
    }
  }

  lemma SavesOriginal(s: Injector, orig: map<string, Node>, after: seq<Event>, i: nat, id: string)
    requires Inv(s, orig) && i < |s.events| && id in s.nodes
    requires forall a :: Touches(s.events[i].kind, a) ==> !Disturbed(s.events, id, a)
    ensures Save(s.events[i].kind, s.nodes[id], s.events[i].saved) == Save(s.events[i].kind, orig[id], Nothing)
  {
    var kind := s.events[i].kind;
    assert NodeOk(s.nodes[id], orig[id], id, s.events);
    assert Remembers(s.events[i], orig);
    assert forall a :: Touches(kind, a) ==> Same(a, s.nodes[id], orig[id]);
    match kind {
      case NodeLoss => assert Touches(kind, MemoryUse);
      case MemorySpike => assert Touches(kind, MemoryUse);
      case NvlinkDegrade => assert Touches(kind, Bandwidth);
      case SlowNode => assert Touches(kind, Bandwidth) && Touches(kind, Compute);
      case NetworkSlowdown =>
    }
  }

  /** Without a clash a recovery puts back the original and keeps every other account. */
  lemma RecoverKeepsInv(s: Injector, orig: map<string, Node>, i: nat)
    requires Sound(s) && Inv(s, orig) && NoClash(s.events) && i < |s.events| && s.events[i].active
    ensures var t := Recovered(s, i);
            Inv(t, orig) && NoClash(t.events) && t.events == s.events[i := s.events[i].(active := false)]
  {
    var e := s.events[i];
    var t := Recovered(s, i);
    assert Remembers(e, orig);
    var id := e.target.value;
    forall id' | id' in t.nodes
      ensures NodeOk(t.nodes[id'], orig[id'], id', t.events)
    {
      assert NodeOk(s.nodes[id'], orig[id'], id', s.events);
      EndedEvent(s.events, i, id, id');
      if id' == id {
        RestoresTouched(e.kind, s.nodes[id], orig[id]);
      }
    }
    forall id'
      ensures id' in t.dead <==> Down(t.events, id')
    {
      EndedEvent(s.events, i, id, id');
    }
    forall j, k, at, a | 0 <= j < |t.events| && 0 <= k < |t.events| && j != k
      ensures !(Targets(t.events[j], at) && Targets(t.events[k], at) && Touches(t.events[j].kind, a) &&
                Touches(t.events[k].kind, a))
    {
      assert !(Targets(s.events[j], at) && Targets(s.events[k], at) && Touches(s.events[j].kind, a) &&
               Touches(s.events[k].kind, a));
    }
    forall j | 0 <= j < |t.events|
      ensures Remembers(t.events[j], orig)
    {
      assert Remembers(s.events[j], orig);
    }
  }

  lemma RestoresTouched(kind: Kind, n: Node, m: Node)
    requires SameFrame(n, m)
    ensures var r := Restore(Save(kind, m, Nothing), n);
            && SameFrame(r, m)
            && (forall a :: Touches(kind, a) ==> Same(a, r, m))
            && (forall a :: !Touches(kind, a) ==> Same(a, r, n))
  {
  }

  lemma EndedEvent(events: seq<Event>, i: nat, id: string, at: string)
    requires i < |events| && Targets(events[i], id) && NoClash(events)
    ensures var after := events[i := events[i].(active := false)];
            && (forall a :: Disturbed(after, at, a) <==>
                  Disturbed(events, at, a) && !(at == id && Touches(events[i].kind, a)))
            && (Down(after, at) <==> Down(events, at) && !(at == id && events[i].kind.NodeLoss?))
  {
    var after := events[i := events[i].(active := false)];
    forall a
      ensures Disturbed(after, at, a) <==> Disturbed(events, at, a) && !(at == id && Touches(events[i].kind, a))
    {
      EndedOne(events, i, id, at, a);
    }
    if Down(after, at) {
      var j :| 0 <= j < |after| && Targets(after[j], at) && after[j].kind.NodeLoss?;
      assert Targets(events[j], at) && Touches(events[j].kind, MemoryUse) && j != i;
    }
    if Down(events, at) && !(at == id && events[i].kind.NodeLoss?) {
      var j :| 0 <= j < |events| && Targets(events[j], at) && events[j].kind.NodeLoss?;
      assert Targets(after[j], at) && after[j].kind.NodeLoss?;
    }
  }

  lemma EndedOne(events: seq<Event>, i: nat, id: string, at: string, a: Attribute)
    requires i < |events| && Targets(events[i], id) && NoClash(events)
    ensures var after := events[i := events[i].(active := false)];
            Disturbed(after, at, a) <==> Disturbed(events, at, a) && !(at == id && Touches(events[i].kind, a))
  {
    var after := events[i := events[i].(active := false)];
    if Disturbed(after, at, a) {
      var j :| 0 <= j < |after| && Targets(after[j], at) && Touches(after[j].kind, a);
      assert Targets(events[j], at) && Touches(events[j].kind, a) && j != i;
    }
    if Disturbed(events, at, a) && !(at == id && Touches(events[i].kind, a)) {
      var j :| 0 <= j < |events| && Targets(events[j], at) && Touches(events[j].kind, a);
      assert Targets(after[j], at) && Touches(after[j].kind, a);
    }
  }

  // --------------------------------------------------------------- whole runs

  lemma VisitKeepsInv(s: Injector, orig: map<string, Node>, i: nat, now: real)
    requires Sound(s) && Inv(s, orig) && NoClash(s.events) && i < |s.events|
    requires NoClash(Visit(s, i, now).events)
    ensures Inv(Visit(s, i, now), orig)
  {
    hide Inv, NoClash, Applied, Recovered;
    var e := s.events[i];
    if Expired(e, now) {
      RecoverKeepsInv(s, orig, i);
    } else if !e.active {
      var drawn := s.(draws := s.draws + (if Tosses(e) then 1 else 0));
      DrawKeepsInv(s, orig, drawn.draws);
      if Fires(s, e, now) {
        ApplyKeepsInv(drawn, orig, i, now);
      }
    }
  }

  lemma DrawKeepsInv(s: Injector, orig: map<string, Node>, draws: nat)
    requires Sound(s) && Inv(s, orig)
    ensures Sound(s.(draws := draws)) && Inv(s.(draws := draws), orig)
  {
  }

  /** No turn of any step of the run makes two active events clash. */
  ghost predicate ClashFree(s: Injector, times: seq<real>)
    requires Sound(s)
  {
    times == [] || (var n := |times| - 1;
                    ClashFree(s, times[..n]) && ClashFreeStep(Run(s, times[..n]), times[n]))
  }

  ghost predicate ClashFreeStep(s: Injector, now: real)
    requires Sound(s)
  {
    forall k :: 0 <= k <= |s.events| ==> NoClash(Visits(s, k, now).events)
  }

  lemma {:induction false} VisitsKeepInv(s: Injector, orig: map<string, Node>, k: nat, now: real)
    requires Sound(s) && Inv(s, orig) && ClashFreeStep(s, now) && k <= |s.events|
    ensures Inv(Visits(s, k, now), orig)
  {
    hide Inv, NoClash, Visit;
    if k > 0 {
      VisitsKeepInv(s, orig, k - 1, now);
      assert NoClash(Visits(s, k - 1, now).events) && NoClash(Visits(s, k, now).events);
      VisitKeepsInv(Visits(s, k - 1, now), orig, k - 1, now);
    }
  }

  lemma {:induction false} RunKeepsInv(s: Injector, orig: map<string, Node>, times: seq<real>)
    requires Sound(s) && Inv(s, orig) && NoClash(s.events) && ClashFree(s, times)
    ensures Inv(Run(s, times), orig) && NoClash(Run(s, times).events)
  {
    hide Inv, NoClash, Visits;
    if times != [] {
      var n := |times| - 1;
      RunKeepsInv(s, orig, times[..n]);
      var before := Run(s, times[..n]);
      VisitsKeepInv(before, orig, |before.events|, times[n]);
      assert NoClash(Visits(before, |before.events|, times[n]).events);
    }
  }

  lemma {:induction false} RecoveriesKeepInv(s: Injector, orig: map<string, Node>, k: nat)
    requires Sound(s) && Inv(s, orig) && NoClash(s.events) && k <= |s.events|
    ensures var t := Recoveries(s, k);
            Inv(t, orig) && NoClash(t.events) && forall j :: 0 <= j < k ==> !t.events[j].active
  {
    hide Inv, NoClash, Recovered;
    if k > 0 {
      RecoveriesKeepInv(s, orig, k - 1);
      var before := Recoveries(s, k - 1);
      if before.events[k - 1].active {
        RecoverKeepsInv(before, orig, k - 1);
      }
    }
  }

  lemma NothingActive(s: Injector, orig: map<string, Node>)
    requires Inv(s, orig) && forall j :: 0 <= j < |s.events| ==> !s.events[j].active
    ensures s.nodes == orig && s.dead == {}
  {
    forall id | id in s.nodes
      ensures s.nodes[id] == orig[id]
    {
      assert NodeOk(s.nodes[id], orig[id], id, s.events);
      assert !Disturbed(s.events, id, MemoryUse) && !Disturbed(s.events, id, Bandwidth) &&
               !Disturbed(s.events, id, Compute);
      assert Same(MemoryUse, s.nodes[id], orig[id]) && Same(Bandwidth, s.nodes[id], orig[id]) &&
               Same(Compute, s.nodes[id], orig[id]);
    }
    forall id
      ensures !Down(s.events, id)
    {
    }
  }

  /** An injector before its first step: nothing active, nobody dead. */
  ghost predicate Fresh(s: Injector) {
    && Sound(s) && s.dead == {}
    && (forall i :: 0 <= i < |s.events| ==> !s.events[i].active)
    && (forall i :: 0 <= i < |s.events| && s.events[i].kind.NetworkSlowdown? ==> s.events[i].saved == Nothing)
  }

  lemma FreshInv(s: Injector)
    requires Fresh(s)
    ensures Inv(s, s.nodes) && NoClash(s.events)
  {
    forall id
      ensures !Down(s.events, id)
    {
    }
  }

  /** Fault injection undoes itself: after any run without a clash, recover_all puts every
      attribute of every node back and nobody stays dead. */
  lemma RecoverAllRestores(s: Injector, times: seq<real>)
    requires Fresh(s) && ClashFree(s, times)
    ensures AllRecovered(Run(s, times)).nodes == s.nodes && AllRecovered(Run(s, times)).dead == {}
  {
    hide Inv, NoClash;
    FreshInv(s);
    RunKeepsInv(s, s.nodes, times);
    var t := Run(s, times);
    RecoveriesKeepInv(t, s.nodes, |t.events|);
    NothingActive(AllRecovered(t), s.nodes);
  }

  // ---------------------------------------------------------- assigned targets

  /** The event names one of the injector's nodes. */
  ghost predicate Assigned(s: Injector, e: Event) {
    Truthy(e.target) && e.target.value in s.nodes
  }

  /** Events with targets of their own, or at least with different attributes to disturb. */
  ghost predicate Separate(events: seq<Event>) {
    forall i, j, a :: 0 <= i < |events| && 0 <= j < |events| && i != j && events[i].target == events[j].target ==>
      !(Touches(events[i].kind, a) && Touches(events[j].kind, a))
  }

  /** Same kinds and targets, event by event. */
  ghost predicate SamePlan(s: Injector, t: Injector) {
    && t.nodes.Keys == s.nodes.Keys && |t.events| == |s.events|
    && forall i :: 0 <= i < |s.events| ==>
         t.events[i].kind == s.events[i].kind && t.events[i].target == s.events[i].target &&
         t.events[i].triggerTime == s.events[i].triggerTime
  }

  lemma VisitKeepsPlan(s: Injector, t: Injector, i: nat, now: real)
    requires Sound(t) && SamePlan(s, t) && i < |t.events| && Assigned(s, s.events[i])
    ensures SamePlan(s, Visit(t, i, now))
  {
  }

  lemma PlanLength(s: Injector, t: Injector)
    requires SamePlan(s, t)
    ensures |t.events| == |s.events|
  {
  }

  lemma {:induction false} VisitsKeepPlan(s: Injector, t: Injector, k: nat, now: real)
    requires Sound(t) && SamePlan(s, t) && k <= |t.events|
    requires forall i :: 0 <= i < |s.events| ==> Assigned(s, s.events[i])
    ensures SamePlan(s, Visits(t, k, now))
  {
    hide Assigned, Visit, SamePlan;
    assert |t.events| == |s.events| by { PlanLength(s, t); }
    if k > 0 {
      VisitsKeepPlan(s, t, k - 1, now);
      VisitKeepsPlan(s, Visits(t, k - 1, now), k - 1, now);
    }
  }

  lemma SeparatePlanNeverClashes(s: Injector, t: Injector)
    requires SamePlan(s, t) && Separate(s.events)
    ensures NoClash(t.events)
  {
    forall i, j, id, a | 0 <= i < |t.events| && 0 <= j < |t.events| && i != j
      ensures !(Targets(t.events[i], id) && Targets(t.events[j], id) && Touches(t.events[i].kind, a) &&
                Touches(t.events[j].kind, a))
    {
      assert s.events[i].target == s.events[j].target ==>
               !(Touches(s.events[i].kind, a) && Touches(s.events[j].kind, a));
    }
  }

  lemma {:induction false} SeparateRunsNeverClash(s: Injector, times: seq<real>)
    requires Sound(s) && Separate(s.events)
    requires forall i :: 0 <= i < |s.events| ==> Assigned(s, s.events[i])
    ensures SamePlan(s, Run(s, times)) && ClashFree(s, times)
  {
    hide Assigned, Separate, NoClash, Visits, SamePlan;
    if times == [] {
      SamePlanItself(s);
    } else {
      var n := |times| - 1;
      SeparateRunsNeverClash(s, times[..n]);
      var before := Run(s, times[..n]);
      forall k | 0 <= k <= |before.events|
        ensures SamePlan(s, Visits(before, k, times[n])) && NoClash(Visits(before, k, times[n]).events)
      {
        VisitsKeepPlan(s, before, k, times[n]);
        SeparatePlanNeverClashes(s, Visits(before, k, times[n]));
      }
    }
  }

  lemma SamePlanItself(s: Injector)
    ensures SamePlan(s, s)
  {
  }

  /** What a caller can check beforehand: if every event names its node and no two events
      share both node and attribute, recover_all restores everything after any run. */
  lemma SeparateTargetsRestore(s: Injector, times: seq<real>)
    requires Fresh(s) && Separate(s.events)
    requires forall i :: 0 <= i < |s.events| ==> Assigned(s, s.events[i])
    ensures AllRecovered(Run(s, times)).nodes == s.nodes && AllRecovered(Run(s, times)).dead == {}
  {
    SeparateRunsNeverClash(s, times);
    RecoverAllRestores(s, times);
  }

  // ---------------------------------------------------------------- overlaps

  /** Two faults on one node, recovered in the order they came: the node is back exactly when
      the first fault left alone what both disturb.  In the opposite order it always is. */
  lemma OverlapOnNode(k1: Kind, m1: real, k2: Kind, m2: real, n: Node)
    requires n.totalMemory > 0.0
    ensures var first := Hit(k1, m1, n);
            var both := Hit(k2, m2, first);
            var saved1, saved2 := Save(k1, n, Nothing), Save(k2, first, Nothing);
            && (Restore(saved2, Restore(saved1, both)) == n <==>
                  forall a :: Touches(k1, a) && Touches(k2, a) ==> Same(a, first, n))
            && Restore(saved1, Restore(saved2, both)) == n
  {
    var first := Hit(k1, m1, n);
    var both := Hit(k2, m2, first);
    var back := Restore(Save(k2, first, Nothing), Restore(Save(k1, n, Nothing), both));
    if forall a :: Touches(k1, a) && Touches(k2, a) ==> Same(a, first, n) {
      assert Touches(k1, MemoryUse) && Touches(k2, MemoryUse) ==> Same(MemoryUse, first, n);
      assert Touches(k1, Bandwidth) && Touches(k2, Bandwidth) ==> Same(Bandwidth, first, n);
      assert Touches(k1, Compute) && Touches(k2, Compute) ==> Same(Compute, first, n);
    }
  }

  /** recover_all goes by registration: of two overlapping faults on one node it undoes the
      pair always when the later registered one struck first, and otherwise only if the
      first one changed nothing that both disturb. */
  lemma OverlapRestoredIff(s: Injector, id: string, now: real, later: real)
    requires Fresh(s) && |s.events| == 2 && Truthy(Some(id)) && id in s.nodes
    requires s.events[0].target == Some(id) && s.events[1].target == Some(id)
    requires forall i :: 0 <= i < 2 ==> s.events[i].saved == Nothing
    ensures var (e0, e1, n) := (s.events[0], s.events[1], s.nodes[id]);
            && (AllRecovered(Applied(Applied(s, 0, now), 1, later)).nodes == s.nodes <==>
                  forall a :: Touches(e0.kind, a) && Touches(e1.kind, a) ==> Same(a, Hit(e0.kind, e0.magnitude, n), n))
            && AllRecovered(Applied(Applied(s, 1, now), 0, later)).nodes == s.nodes
  {
    var (e0, e1, n) := (s.events[0], s.events[1], s.nodes[id]);
    OverlapOnNode(e0.kind, e0.magnitude, e1.kind, e1.magnitude, n);
    OverlapOnNode(e1.kind, e1.magnitude, e0.kind, e0.magnitude, n);
    BothRecovered(s, id, 0, 1, now, later);
    BothRecovered(s, id, 1, 0, now, later);
  }

  lemma BothRecovered(s: Injector, id: string, i: nat, j: nat, now: real, later: real)
    requires Sound(s) && |s.events| == 2 && Truthy(Some(id)) && id in s.nodes && i + j == 1
    requires s.events[0].target == Some(id) && s.events[1].target == Some(id)
    requires forall k :: 0 <= k < 2 ==> s.events[k].saved == Nothing
    ensures var (x, y, n) := (s.events[i], s.events[j], s.nodes[id]);
            var first := Hit(x.kind, x.magnitude, n);
            var both := Hit(y.kind, y.magnitude, first);
            var saved := map[i := Save(x.kind, n, Nothing), j := Save(y.kind, first, Nothing)];
            AllRecovered(Applied(Applied(s, i, now), j, later)).nodes
            == s.nodes[id := Restore(saved[1], Restore(saved[0], both))]
  {
    hide Hit, Save, Restore, Sound;
    var t := Applied(Applied(s, i, now), j, later);
    assert t.nodes.Keys == s.nodes.Keys;
    RecoverPair(t, id);
  }

  lemma RecoverPair(t: Injector, id: string)
    requires Sound(t) && |t.events| == 2 && id in t.nodes
    requires t.events[0].active && t.events[0].target == Some(id)
    requires t.events[1].active && t.events[1].target == Some(id)
    ensures AllRecovered(t).nodes == t.nodes[id := Restore(t.events[1].saved, Restore(t.events[0].saved, t.nodes[id]))]
  {
    hide Restore;
    assert Recoveries(t, 0) == t;
    assert Recoveries(t, 1) == Recovered(t, 0);
    assert Recoveries(t, 2) == Recovered(Recovered(t, 0), 1);
  }

  /** A saved state says something about an attribute. */
  predicate Covers(saved: Saved, a: Attribute) {
    match saved
    case Nothing => false
    case Load(_, _, _) => a.MemoryUse? || a.Requests?
    case Memory(_, _) => a.MemoryUse?
    case Link(_, _) => a.Nvlink? || a.Bandwidth?
    case Speed(_, _) => a.Compute? || a.Bandwidth?
  }

  /** The last registered active event that saved an attribute of a node. */
  ghost function LastSaver(events: seq<Event>, id: string, a: Attribute): (i: Option<nat>)
    ensures i.Some? ==> i.value < |events| && Targets(events[i.value], id) && Covers(events[i.value].saved, a)
  {
    if events == [] then None
    else if Targets(events[|events| - 1], id) && Covers(events[|events| - 1].saved, a) then Some(|events| - 1)
    else LastSaver(events[..|events| - 1], id, a)
  }

  /** The attributes that nothing here changes. */
  ghost predicate SameHardware(n: Node, m: Node) {
    n.id == m.id && n.totalMemory == m.totalMemory && n.kvTotal == m.kvTotal
  }

  /** What the first k events leave of an attribute when they are recovered. */
  ghost predicate LeftBy(s: Injector, n: Node, id: string, a: Attribute, k: nat)
    requires id in s.nodes && k <= |s.events|
  {
    match LastSaver(s.events[..k], id, a)
    case None => Same(a, n, s.nodes[id])
    case Some(i) => Same(a, n, Restore(s.events[i].saved, n))
  }

  lemma {:induction false} RecoveriesLeave(s: Injector, k: nat, id: string, a: Attribute)
    requires Sound(s) && k <= |s.events| && id in s.nodes
    ensures var t := Recoveries(s, k);
            && t.nodes.Keys == s.nodes.Keys && SameHardware(t.nodes[id], s.nodes[id])
            && LeftBy(s, t.nodes[id], id, a, k)
            && forall j :: k <= j < |s.events| ==> t.events[j] == s.events[j]
  {
    hide Restore, Same, Covers, SameHardware, Recovered, LeftBy, Targets;
    if k == 0 {
      SameSelf(s.nodes[id], a);
      LeftByNone(s, id, a);
    } else {
      RecoveriesLeave(s, k - 1, id, a);
      var t := Recoveries(s, k - 1);
      RecoveryEffect(t, k - 1, id);
      if Targets(s.events[k - 1], id) {
        LeftAgain(s, t.nodes[id], s.events[k - 1].saved, id, a, k);
      } else {
        LeftSame(s, t.nodes[id], id, a, k);
      }
    }
  }

  lemma LeftByNone(s: Injector, id: string, a: Attribute)
    requires id in s.nodes
    ensures LeftBy(s, s.nodes[id], id, a, 0)
  {
    SameSelf(s.nodes[id], a);
  }

  /** One turn of recover_all's loop, as one node sees it. */
  lemma RecoveryEffect(t: Injector, i: nat, id: string)
    requires Sound(t) && i < |t.events| && id in t.nodes
    ensures var u := if t.events[i].active then Recovered(t, i) else t;
            && u.nodes.Keys == t.nodes.Keys
            && u.nodes[id] ==
                 (if Targets(t.events[i], id) then Restore(t.events[i].saved, t.nodes[id]) else t.nodes[id])
            && |u.events| == |t.events| && forall j :: 0 <= j < |t.events| && j != i ==> u.events[j] == t.events[j]
  {
    hide Restore;
  }

  lemma LeftSame(s: Injector, n: Node, id: string, a: Attribute, k: nat)
    requires 0 < k <= |s.events| && id in s.nodes && LeftBy(s, n, id, a, k - 1) && !Targets(s.events[k - 1], id)
    ensures LeftBy(s, n, id, a, k)
  {
    assert s.events[..k][..k - 1] == s.events[..k - 1];
  }

  lemma SameSelf(n: Node, a: Attribute)
    ensures Same(a, n, n) && SameHardware(n, n)
  {
  }

  lemma LeftAgain(s: Injector, n: Node, saved: Saved, id: string, a: Attribute, k: nat)
    requires Sound(s) && 0 < k <= |s.events| && id in s.nodes && LeftBy(s, n, id, a, k - 1)
    requires Targets(s.events[k - 1], id) && s.events[k - 1].saved == saved
    requires SameHardware(n, s.nodes[id])
    ensures LeftBy(s, Restore(saved, n), id, a, k) && SameHardware(Restore(saved, n), s.nodes[id])
  {
    assert s.events[..k][..k - 1] == s.events[..k - 1] && s.events[..k][k - 1] == s.events[k - 1];
    var before := LastSaver(s.events[..k - 1], id, a);
    RestoreTwice(saved, n, s.nodes[id], a);
    if before.Some? {
      RestoreOther(saved, s.events[before.value].saved, n, a);
    }
    hide Restore, Covers, Same, SameHardware;
  }

  lemma RestoreTwice(saved: Saved, n: Node, m: Node, a: Attribute)
    ensures var r := Restore(saved, n);
            && (SameHardware(n, m) ==> SameHardware(r, m))
            && Same(a, r, Restore(saved, r))
            && (!Covers(saved, a) && Same(a, n, m) ==> Same(a, r, m))
  {
  }

  lemma RestoreOther(saved: Saved, before: Saved, n: Node, a: Attribute)
    requires Covers(before, a) && Same(a, n, Restore(before, n))
    ensures !Covers(saved, a) ==> Same(a, Restore(saved, n), Restore(before, Restore(saved, n)))
  {
  }

  /** What recover_all leaves of an attribute is what it was in `m`: the last registered event
      that saved it found it so, or, if none saved it, it still is so. */
  ghost predicate PutRight(s: Injector, m: Node, id: string, a: Attribute)
    requires id in s.nodes
  {
    match LastSaver(s.events, id, a)
    case None => Same(a, s.nodes[id], m)
    case Some(i) => Same(a, m, Restore(s.events[i].saved, m))
  }

  lemma RecoveredAttribute(s: Injector, m: Node, id: string, a: Attribute)
    requires Sound(s) && id in s.nodes
    ensures id in AllRecovered(s).nodes
    ensures Same(a, AllRecovered(s).nodes[id], m) <==> PutRight(s, m, id, a)
  {
    RecoveriesLeave(s, |s.events|, id, a);
    assert s.events[..|s.events|] == s.events;
    var n := AllRecovered(s).nodes[id];
    if LastSaver(s.events, id, a).Some? {
      RestoreAgrees(s.events[LastSaver(s.events, id, a).value].saved, n, m, a);
    }
  }

  lemma RestoreAgrees(saved: Saved, n: Node, m: Node, a: Attribute)
    requires Covers(saved, a) && Same(a, n, Restore(saved, n))
    ensures Same(a, n, m) <==> Same(a, m, Restore(saved, m))
  {
  }

  /** The nodes that active losses keep down. */
  ghost function Lost(events: seq<Event>): set<string> {
    set i | 0 <= i < |events| && events[i].active && events[i].target.Some? && events[i].kind.NodeLoss?
      :: events[i].target.value
  }

  lemma {:induction false} RecoveriesRaise(s: Injector, k: nat)
    requires Sound(s) && k <= |s.events|
    ensures Recoveries(s, k).dead == s.dead - Lost(s.events[..k])
    ensures forall j :: k <= j < |s.events| ==> Recoveries(s, k).events[j] == s.events[j]
  {
    if k > 0 {
      RecoveriesRaise(s, k - 1);
      LostLast(s.events, k);
    }
  }

  lemma LostLast(events: seq<Event>, k: nat)
    requires 0 < k <= |events|
    ensures var e := events[k - 1];
            Lost(events[..k]) == Lost(events[..k - 1]) +
              (if e.active && e.target.Some? && e.kind.NodeLoss? then {e.target.value} else {})
  {
    assert events[..k] == events[..k - 1] + [events[k - 1]];
  }

  /** Exactly when recover_all restores, from any state and with any overlaps: for every node
      and attribute, the last registered active event that saved it had found it original, or
      nobody saved it and it is original; and every dead node is one that an active loss names. */
  lemma RecoverAllRestoresIff(s: Injector, orig: map<string, Node>)
    requires Sound(s) && s.nodes.Keys == orig.Keys
    requires forall id :: id in orig ==> SameHardware(s.nodes[id], orig[id])
    ensures AllRecovered(s).nodes == orig <==> forall id, a :: id in orig ==> PutRight(s, orig[id], id, a)
    ensures AllRecovered(s).dead == {} <==> s.dead <= Lost(s.events)
  {
    var t := AllRecovered(s);
    RecoveriesRaise(s, |s.events|);
    assert s.events[..|s.events|] == s.events;
    NothingLeft(s.dead, Lost(s.events));
    RecoveredKeys(s);
    forall id | id in orig
      ensures SameHardware(t.nodes[id], orig[id])
    {
      RecoveriesLeave(s, |s.events|, id, MemoryUse);
    }
    forall id, a | id in orig
      ensures Same(a, t.nodes[id], orig[id]) <==> PutRight(s, orig[id], id, a)
    {
      RecoveredAttribute(s, orig[id], id, a);
    }
    hide PutRight, AllRecovered, Lost;
    NodesByAttribute(t.nodes, orig);
  }

  lemma NothingLeft(a: set<string>, b: set<string>)
    ensures a - b == {} <==> a <= b
  {
    assert a <= b + (a - b);
  }

  lemma {:induction false} RecoveriesKeys(s: Injector, k: nat)
    requires Sound(s) && k <= |s.events|
    ensures Recoveries(s, k).nodes.Keys == s.nodes.Keys
  {
    if k > 0 {
      RecoveriesKeys(s, k - 1);
    }
  }

  lemma RecoveredKeys(s: Injector)
    requires Sound(s)
    ensures AllRecovered(s).nodes.Keys == s.nodes.Keys
  {
    RecoveriesKeys(s, |s.events|);
  }

  lemma NodesByAttribute(ns: map<string, Node>, ms: map<string, Node>)
    requires ns.Keys == ms.Keys && forall id :: id in ms ==> SameHardware(ns[id], ms[id])
    ensures ns == ms <==> forall id, a :: id in ms ==> Same(a, ns[id], ms[id])
  {
    if forall id, a :: id in ms ==> Same(a, ns[id], ms[id]) {
      forall id | id in ms
        ensures ns[id] == ms[id]
      {
        SameNode(ns[id], ms[id]);
      }
    }
  }

  lemma SameNode(n: Node, m: Node)
    requires SameHardware(n, m) && forall a :: Same(a, n, m)
    ensures n == m
  {
    assert Same(MemoryUse, n, m) && Same(Bandwidth, n, m) && Same(Compute, n, m) && Same(Requests, n, m) &&
             Same(Nvlink, n, m);
  }

  lemma {:induction false} VisitsKeepHardware(s: Injector, k: nat, now: real)
    requires Sound(s) && k <= |s.events|
    ensures var t := Visits(s, k, now);
            t.nodes.Keys == s.nodes.Keys && forall id :: id in s.nodes ==> SameHardware(t.nodes[id], s.nodes[id])
  {
    hide Visit;
    if k > 0 {
      VisitsKeepHardware(s, k - 1, now);
      VisitKeepsHardware(Visits(s, k - 1, now), k - 1, now);
    }
  }

  lemma VisitKeepsHardware(s: Injector, i: nat, now: real)
    requires Sound(s) && i < |s.events|
    ensures var t := Visit(s, i, now);
            t.nodes.Keys == s.nodes.Keys && forall id :: id in s.nodes ==> SameHardware(t.nodes[id], s.nodes[id])
  {
  }

  /** The same over whole runs, overlapping or not. */
  lemma {:induction false} RunRestoredIff(s: Injector, times: seq<real>)
    requires Sound(s)
    ensures Run(s, times).nodes.Keys == s.nodes.Keys
    ensures forall id :: id in s.nodes ==> SameHardware(Run(s, times).nodes[id], s.nodes[id])
    ensures AllRecovered(Run(s, times)).nodes == s.nodes <==>
            forall id, a :: id in s.nodes ==> PutRight(Run(s, times), s.nodes[id], id, a)
  {
    if times != [] {
      var n := |times| - 1;
      RunRestoredIff(s, times[..n]);
      VisitsKeepHardware(Run(s, times[..n]), |s.events|, times[n]);
    }
    hide Run, AllRecovered, PutRight;
    RecoverAllRestoresIff(Run(s, times), s.nodes);
  }

  // ----------------------------------------------------------------- the history

  /** Strikes minus recoveries under a label. */
  function Open(history: seq<Entry>, tag: string): int {
    if history == [] then 0
    else
      var e := history[|history| - 1];
      Open(history[..|history| - 1], tag) + (if e.tag != tag then 0 else if e.Triggered? then 1 else -1)
  }

  function ActiveCount(events: seq<Event>, tag: string): nat {
    if events == [] then 0
    else
      var e := events[|events| - 1];
      ActiveCount(events[..|events| - 1], tag) + (if e.active && e.tag == tag then 1 else 0)
  }

  lemma {:induction false} ActiveUpdate(events: seq<Event>, i: nat, e: Event, tag: string)
    requires i < |events| && e.tag == events[i].tag
    ensures ActiveCount(events[i := e], tag) == ActiveCount(events, tag) +
              (if e.tag != tag then 0 else (if e.active then 1 else 0) - (if events[i].active then 1 else 0))
  {
    var n := |events| - 1;
    var after := events[i := e];
    if i == n {
      assert after[..n] == events[..n];
    } else {
      ActiveUpdate(events[..n], i, e, tag);
      assert after[..n] == events[..n][i := e];
    }
  }

  lemma OpenLast(history: seq<Entry>, e: Entry, tag: string)
    ensures Open(history + [e], tag) == Open(history, tag) +
              (if e.tag != tag then 0 else if e.Triggered? then 1 else -1)
  {
    assert (history + [e])[..|history|] == history;
  }

  /** What the history says beyond the faults that are active. */
  function Surplus(s: Injector, tag: string): int {
    Open(s.history, tag) - ActiveCount(s.events, tag)
  }

  /** An active event has a target. */
  ghost predicate Aimed(s: Injector) {
    forall i :: 0 <= i < |s.events| && s.events[i].active ==> s.events[i].target.Some?
  }

  lemma RecoverKeepsBooks(s: Injector, i: nat, tag: string)
    requires Sound(s) && Aimed(s) && i < |s.events|
    ensures var t := Recovered(s, i);
            Aimed(t) && Surplus(t, tag) == Surplus(s, tag)
  {
    var e := s.events[i];
    ActiveUpdate(s.events, i, e.(active := false), tag);
    if e.active {
      OpenLast(s.history, Restored(e.tag, e.kind, e.target.value), tag);
    } else {
      assert s.history + [] == s.history;
    }
  }

  lemma VisitKeepsBooks(s: Injector, i: nat, now: real, tag: string)
    requires Sound(s) && Aimed(s) && i < |s.events|
    ensures var t := Visit(s, i, now);
            Aimed(t) && Surplus(t, tag) == Surplus(s, tag)
  {
    hide Open, ActiveCount;
    var e := s.events[i];
    if Expired(e, now) {
      RecoverKeepsBooks(s, i, tag);
    } else if !e.active && Fires(s, e, now) && TargetOf(s, e).Some? {
      var id := TargetOf(s, e).value;
      var drawn := s.(draws := s.draws + (if Tosses(e) then 1 else 0));
      assert TargetOf(drawn, e) == Some(id);
      var after := Applied(drawn, i, now).events[i];
      ActiveUpdate(s.events, i, after, tag);
      OpenLast(s.history, Triggered(e.tag, e.kind, id, now), tag);
    }
  }

  lemma {:induction false} VisitsKeepBooks(s: Injector, k: nat, now: real, tag: string)
    requires Sound(s) && Aimed(s) && k <= |s.events|
    ensures var t := Visits(s, k, now);
            Aimed(t) && Surplus(t, tag) == Surplus(s, tag)
  {
    hide Visit, Open, ActiveCount, Aimed;
    if k > 0 {
      VisitsKeepBooks(s, k - 1, now, tag);
      VisitKeepsBooks(Visits(s, k - 1, now), k - 1, now, tag);
    }
  }

  /** Over every run the history is a ledger: under each label, the strikes it records minus
      the recoveries are the faults active now, on top of those active at the start. */
  lemma {:induction false} HistoryBalances(s: Injector, times: seq<real>, tag: string)
    requires Sound(s) && Aimed(s)
    ensures var t := Run(s, times);
            && Aimed(t)
            && Open(t.history, tag) - Open(s.history, tag) == ActiveCount(t.events, tag) - ActiveCount(s.events, tag)
  {
    hide Visits, Open, ActiveCount, Aimed;
    if times != [] {
      var n := |times| - 1;
      HistoryBalances(s, times[..n], tag);
      VisitsKeepBooks(Run(s, times[..n]), |s.events|, times[n], tag);
    }
  }

  // ------------------------------------------------------- scheduled and spiked

  /** A visit to one event leaves the others as they are. */
  lemma {:induction false} VisitsLeaveOthers(s: Injector, k: nat, now: real, i: nat)
    requires Sound(s) && k <= |s.events| && i < |s.events|
    ensures k <= i ==> Visits(s, k, now).events[i] == s.events[i]
    ensures i < k ==> Visits(s, k, now).events[i] == Visits(s, i + 1, now).events[i]
    ensures Visits(s, k, now).nodes.Keys == s.nodes.Keys
  {
    hide Visit;
    if k > 0 {
      VisitsLeaveOthers(s, k - 1, now, i);
      VisitLeavesOthers(Visits(s, k - 1, now), k - 1, now);
    }
  }

  lemma VisitLeavesOthers(s: Injector, i: nat, now: real)
    requires Sound(s) && i < |s.events|
    ensures var t := Visit(s, i, now);
            t.nodes.Keys == s.nodes.Keys && forall j :: 0 <= j < |s.events| && j != i ==> t.events[j] == s.events[j]
  {
  }

  /** Once its time has come a scheduled fault is never inactive after two steps in a row: a
      transient one strikes again at the step after it recovered. */
  lemma ScheduledFaultReturns(s: Injector, i: nat, now: real)
    requires Sound(s) && i < |s.events| && Assigned(s, s.events[i])
    requires s.events[i].triggerTime.Some? && now >= s.events[i].triggerTime.value
    ensures s.events[i].active || Stepped(s, now).events[i].active
  {
    VisitsLeaveOthers(s, i, now, i);
    VisitsLeaveOthers(s, |s.events|, now, i);
    assert Visits(s, i + 1, now) == Visit(Visits(s, i, now), i, now);
  }

  /** An event keeps its schedule for good, and its target from when it has one; it has one
      from its first strike on, unless a node has the empty id. */
  ghost predicate SameEvent(s: Injector, t: Injector, i: nat)
    requires i < |s.events|
  {
    && t.nodes.Keys == s.nodes.Keys && |t.events| == |s.events|
    && t.events[i].triggerTime == s.events[i].triggerTime
    && (Assigned(s, s.events[i]) ==> t.events[i].target == s.events[i].target)
    && ("" !in s.nodes && t.events[i].triggeredAt.Some? && t.events[i].triggeredAt != s.events[i].triggeredAt ==>
          Assigned(t, t.events[i]))
  }

  lemma VisitKeepsEvent(s: Injector, i: nat, now: real)
    requires Sound(s) && i < |s.events|
    ensures SameEvent(s, Visit(s, i, now), i)
  {
  }

  lemma SameEventTrans(s: Injector, t: Injector, u: Injector, i: nat)
    requires i < |s.events| && SameEvent(s, t, i) && SameEvent(t, u, i)
    ensures SameEvent(s, u, i)
  {
  }

  lemma StepKeepsEvent(s: Injector, i: nat, now: real)
    requires Sound(s) && i < |s.events|
    ensures SameEvent(s, Stepped(s, now), i)
  {
    VisitsLeaveOthers(s, i, now, i);
    VisitsLeaveOthers(s, |s.events|, now, i);
    var before := Visits(s, i, now);
    VisitKeepsEvent(before, i, now);
    assert Visits(s, i + 1, now) == Visit(before, i, now);
    VisitsLeaveOthers(s, i + 1, now, i);
  }

  lemma {:induction false} RunKeepsEvent(s: Injector, times: seq<real>, i: nat)
    requires Sound(s) && i < |s.events|
    ensures SameEvent(s, Run(s, times), i)
  {
    hide Stepped, SameEvent;
    if times == [] {
      SameEventItself(s, i);
    } else {
      var n := |times| - 1;
      RunKeepsEvent(s, times[..n], i);
      StepKeepsEvent(Run(s, times[..n]), i, times[n]);
      SameEventTrans(s, Run(s, times[..n]), Run(s, times), i);
    }
  }

  lemma SameEventItself(s: Injector, i: nat)
    requires i < |s.events|
    ensures SameEvent(s, s, i)
  {
  }

  /** The same over whole runs, for every scheduled event that names its node or has struck
      during the run, whatever other faults do in between. */
  lemma RecoveryLastsOneStep(s: Injector, times: seq<real>, now: real, i: nat)
    requires Sound(s) && i < |s.events|
    requires s.events[i].triggerTime.Some? && now >= s.events[i].triggerTime.value
    requires Assigned(s, s.events[i]) ||
             ("" !in s.nodes && s.events[i].triggeredAt.None? && Run(s, times).events[i].triggeredAt.Some?)
    ensures Run(s, times).events[i].active || Run(s, times + [now]).events[i].active
  {
    RunKeepsEvent(s, times, i);
    assert (times + [now])[..|times|] == times;
    ScheduledFaultReturns(Run(s, times), i, now);
  }

  /** A memory spike overwrites the used blocks by the node's memory share: on a node whose
      pool is full it frees blocks, exactly when it leaves some memory free. */
  lemma SpikeOnFullPool(n: Node, magnitude: real)
    requires n.totalMemory > 0.0 && n.usedMemory >= 0.0 && magnitude >= 0.0
    requires n.kvUsed == n.kvTotal > 0
    ensures Hit(MemorySpike, magnitude, n).KvFree() > n.KvFree() <==>
            n.usedMemory + n.totalMemory * magnitude < n.totalMemory
  {
    var used := SpikedMemory(n, magnitude);
    ShareOfWhole(used, n.totalMemory);
    BlocksBelow(n.kvTotal, used / n.totalMemory);
  }

  lemma BlocksBelow(blocks: nat, share: real)
    requires blocks > 0 && 0.0 <= share <= 1.0
    ensures Whole(blocks as real * share) < blocks <==> share < 1.0
  {
    var all := blocks as real;
    assert all * share == all - all * (1.0 - share);
    if share < 1.0 {
      Positive(all, 1.0 - share);
      assert all * share < all;
    } else {
      assert all * share == all;
    }
  }

  lemma Positive(a: real, b: real)
    requires a > 0.0 && b > 0.0
    ensures a * b > 0.0
  {
  }
}
