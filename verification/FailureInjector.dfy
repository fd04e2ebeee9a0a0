/** The class of simulator/failure_injection/failure_injector.py over event and node objects. */
module FailureInjectors {
  import opened Models
  import opened FailureInjection
  import opened FailureRuns

  class FailureEvent {
    const kind: Kind
    const triggerTime: Option<real>
    const triggerProb: real
    const duration: Option<real>
    const magnitude: real
    const autoRecover: bool
    var target: Option<string>
    var tag: string
    var active: bool
    var triggeredAt: Option<real>
    var saved: Saved

    constructor (kind: Kind, target: Option<string>, triggerTime: Option<real>, triggerProb: real,
                 duration: Option<real>, magnitude: real, autoRecover: bool, tag: string)
      ensures View() == Event(kind, target, triggerTime, triggerProb, duration, magnitude, autoRecover, tag,
                              false, None, Nothing)
    {
      this.kind, this.triggerTime, this.triggerProb := kind, triggerTime, triggerProb;
      this.duration, this.magnitude, this.autoRecover := duration, magnitude, autoRecover;
      this.target, this.tag, active, triggeredAt, saved := target, tag, false, None, Nothing;
    }

    function View(): Event
      reads this
    {
      Event(kind, target, triggerTime, triggerProb, duration, magnitude, autoRecover, tag, active, triggeredAt, saved)
    }
  }

  function EventViews(events: seq<FailureEvent>): (r: seq<Event>)
    reads events
    ensures |r| == |events| && forall k :: 0 <= k < |events| ==> r[k] == events[k].View()
  {
    seq(|events|, k requires 0 <= k < |events| reads events => events[k].View())
  }

  function KindName(kind: Kind): string {
    match kind
    case NodeLoss => "node_loss"
    case MemorySpike => "memory_spike"
    case NvlinkDegrade => "nvlink_degrade"
    case SlowNode => "slow_node"
    case NetworkSlowdown => "network_slowdown"
  }

  function Digits(n: nat): string {
    if n < 10 then ["0123456789"[n]] else Digits(n / 10) + ["0123456789"[n % 10]]
  }

  /** What a row of decimal digits stands for. */
  ghost function ValueOf(s: string): int {
    if s == [] then 0 else 10 * ValueOf(s[..|s| - 1]) + (s[|s| - 1] as int - '0' as int)
  }

  lemma {:induction false} DigitsReadBack(n: nat)
    ensures ValueOf(Digits(n)) == n
  {
    assert forall d :: 0 <= d < 10 ==> "0123456789"[d] as int - '0' as int == d;
    if n < 10 {
      assert Digits(n)[..0] == [];
    } else {
      DigitsReadBack(n / 10);
      assert Digits(n)[..|Digits(n)| - 1] == Digits(n / 10);
    }
  }

  /** Events that are given their labels by place get different ones. */
  lemma DefaultLabelsDiffer(kind: Kind, m: nat, n: nat)
    requires m != n
    ensures KindName(kind) + "_" + Digits(m) != KindName(kind) + "_" + Digits(n)
  {
    DigitsReadBack(m);
    DigitsReadBack(n);
    var stem := KindName(kind) + "_";
    assert (stem + Digits(m))[|stem|..] == Digits(m) && (stem + Digits(n))[|stem|..] == Digits(n);
  }

  ghost predicate DistinctEvents(events: seq<FailureEvent>) {
    forall j, k :: 0 <= j < k < |events| ==> events[j] != events[k]
  }

  class FailureInjector {
    const ids: seq<string>
    const nodes: map<string, GPUNode>
    const draw: nat -> real
    const pick: nat -> nat
    var events: seq<FailureEvent>
    var dead: set<string>
    var draws: nat
    var picks: nat
    var history: seq<Entry>

    constructor (ids: seq<string>, nodes: map<string, GPUNode>, draw: nat -> real, pick: nat -> nat)
      requires forall k :: 0 <= k < |ids| ==> ids[k] in nodes
      requires forall a, b :: a in nodes && b in nodes && a != b ==> nodes[a] != nodes[b]
      requires forall id :: id in nodes ==> nodes[id].totalMemory > 0.0
      ensures this.ids == ids && this.nodes == nodes && this.draw == draw && this.pick == pick
      ensures Valid() && Fresh(View()) && events == []
    {
      this.ids, this.nodes, this.draw, this.pick := ids, nodes, draw, pick;
      events, dead, draws, picks, history := [], {}, 0, 0, [];
    }

    ghost predicate Valid()
      reads this
    {
      && (forall k :: 0 <= k < |ids| ==> ids[k] in nodes)
      && (forall a, b :: a in nodes && b in nodes && a != b ==> nodes[a] != nodes[b])
      && DistinctEvents(events)
      && (forall id :: id in nodes ==> nodes[id].totalMemory > 0.0)
    }

    ghost function NodeValues(): (m: map<string, Node>)
      reads nodes.Values
      ensures m.Keys == nodes.Keys && forall id :: id in nodes ==> m[id] == nodes[id].View()
    {
      map id | id in nodes :: nodes[id].View()
    }

    ghost function View(): (s: Injector)
      reads this, nodes.Values, events
      ensures Valid() ==> Sound(s)
    {
      Injector(ids, NodeValues(), EventViews(events), dead, draw, draws, pick, picks, history)
    }

    /** add(): an event without a label is named after its kind and its place. */
    method Add(event: FailureEvent)
      requires Valid() && event !in events
      modifies this`events, event`tag
      ensures Valid() && events == old(events) + [event]
      ensures event.tag ==
              if old(event.tag) == "" then KindName(event.kind) + "_" + Digits(|old(events)|) else old(event.tag)
    {
      if event.tag == "" {
        event.tag := KindName(event.kind) + "_" + Digits(|events|);
      }
      events := events + [event];
    }

    method PickTarget(e: FailureEvent) returns (target: Option<string>)
      requires Valid()
      modifies this`picks
      ensures target == TargetOf(old(View()), old(e.View())) && (target.Some? ==> target.value in nodes)
      ensures picks == old(picks) + (if Draws(old(View()), old(e.View())) then 1 else 0)
    {
      if Truthy(e.target) && e.target.value in nodes {
        return e.target;
      }
      var alive: seq<string> := [];
      for k := 0 to |ids|
        invariant alive == Alive(ids[..k], dead)
      {
        assert ids[..k + 1][..k] == ids[..k];
        if ids[k] !in dead {
          alive := alive + [ids[k]];
        }
      }
      assert ids[..|ids|] == ids;
      if alive == [] {
        return None;
      }
      target := Some(alive[pick(picks) % |alive|]);
      picks := picks + 1;
    }

    /** The branches of _apply: what the event remembers and what happens to the node. */
    static method Strike(kind: Kind, magnitude: real, before: Saved, node: GPUNode) returns (saved: Saved)
      requires node.totalMemory > 0.0
      modifies node
      ensures node.View() == Hit(kind, magnitude, old(node.View()))
      ensures saved == Save(kind, old(node.View()), before)
    {
      hide BlocksShare;
      match kind {
        case NodeLoss =>
          saved := Load(node.usedMemory, node.kvUsed, node.active);
          node.usedMemory := node.totalMemory;
          node.kvUsed := node.kvTotal;
        case MemorySpike =>
          var raised := node.usedMemory + node.totalMemory * magnitude;
          saved := Memory(node.usedMemory, node.kvUsed);
          node.usedMemory := if raised < node.totalMemory then raised else node.totalMemory;
          node.kvUsed := BlocksShare(node.kvTotal, node.usedMemory, node.totalMemory);
        case NvlinkDegrade =>
          saved := Link(node.nvlink, node.bandwidth);
          node.bandwidth := node.bandwidth * (1.0 - magnitude);
        case SlowNode =>
          saved := Speed(node.tflops, node.bandwidth);
          node.tflops := node.tflops * (1.0 - magnitude);
          node.bandwidth := node.bandwidth * (1.0 - magnitude * 0.5);
        case NetworkSlowdown =>
          saved := before;
      }
    }

    method StrikeAt(kind: Kind, magnitude: real, before: Saved, id: string) returns (saved: Saved)
      requires Valid() && id in nodes
      modifies nodes[id]
      ensures NodeValues() == old(NodeValues())[id := Hit(kind, magnitude, old(NodeValues())[id])]
      ensures saved == Save(kind, old(NodeValues())[id], before)
    {
      hide Hit, Save;
      saved := Strike(kind, magnitude, before, nodes[id]);
      assert forall other :: other in nodes && other != id ==> NodeValues()[other] == old(NodeValues()[other]);
    }

    static method Mark(events: seq<FailureEvent>, i: nat, id: string, now: real, saved: Saved)
      requires i < |events| && DistinctEvents(events)
      modifies events[i]
      ensures EventViews(events) == old(EventViews(events))[i := old(EventViews(events))[i].(
                active := true, triggeredAt := Some(now), saved := saved, target := Some(id))]
    {
      var e := events[i];
      e.active, e.triggeredAt, e.saved, e.target := true, Some(now), saved, Some(id);
    }

    lemma NoTargetNoDraw(s: Injector, e: Event)
      ensures TargetOf(s, e).None? ==> !Draws(s, e)
    {
    }

    lemma ValidFacts()
      requires Valid()
      ensures DistinctEvents(events) && Sound(View())
    {
    }

    method StrikeNode(kind: Kind, magnitude: real, before: Saved, id: string) returns (saved: Saved)
      requires Valid() && id in nodes
      modifies `dead, nodes[id]
      ensures View() == old(View()).(
                nodes := old(NodeValues())[id := Hit(kind, magnitude, old(NodeValues())[id])],
                dead := if kind.NodeLoss? then old(dead) + {id} else old(dead))
      ensures saved == Save(kind, old(NodeValues())[id], before)
    {
      hide Hit, Save, EventViews, NodeValues, Valid, Sound;
      ValidFacts();
      ghost var views := EventViews(events);
      saved := StrikeAt(kind, magnitude, before, id);
      assert EventViews(events) == views;
      if kind.NodeLoss? {
        dead := dead + {id};
      }
    }

    method MarkEvent(i: nat, id: string, now: real, saved: Saved)
      requires Valid() && i < |events|
      modifies events[i]
      ensures View() == old(View()).(events := old(EventViews(events))[i := old(EventViews(events))[i].(
                active := true, triggeredAt := Some(now), saved := saved, target := Some(id))])
    {
      hide EventViews, NodeValues, Valid, Sound, DistinctEvents;
      ValidFacts();
      ghost var values := NodeValues();
      Mark(events, i, id, now, saved);
      assert NodeValues() == values;
    }

    method Record(entry: Entry)
      modifies `history
      ensures View() == old(View()).(history := old(View()).history + [entry])
    {
      hide EventViews, NodeValues, Valid, Sound;
      ghost var values, views := NodeValues(), EventViews(events);
      history := history + [entry];
      assert NodeValues() == values && EventViews(events) == views;
    }

    method ApplyTo(i: nat, id: string, now: real)
      requires Valid() && i < |events| && id in nodes
      modifies `dead, `history, events[i], nodes[id]
      ensures View() == AppliedTo(old(View()), i, id, now)
    {
      ghost var start := View();
      var e := events[i];
      assert e.View() == start.events[i];
      assert start.nodes == NodeValues();
      hide Hit, Save, EventViews, NodeValues, Sound;
      var saved := StrikeNode(e.kind, e.magnitude, e.saved, id);
      ghost var struck := View();
      MarkEvent(i, id, now, saved);
      ghost var marked := View();
      Record(Triggered(e.tag, e.kind, id, now));
      assert View() == marked.(history := start.history + [Triggered(e.tag, e.kind, id, now)]);
    }

    method Apply(i: nat, now: real)
      requires Valid() && i < |events|
      modifies this, nodes.Values, events
      ensures Valid() && events == old(events) && View() == Applied(old(View()), i, now)
    {
      hide TargetOf, Draws, EventViews, NodeValues, AppliedTo;
      ghost var values, views := NodeValues(), EventViews(events);
      assert events[i].View() == views[i];
      NoTargetNoDraw(View(), views[i]);
      var target := PickTarget(events[i]);
      assert NodeValues() == values && EventViews(events) == views;
      ghost var picked := View();
      assert picked == old(View()).(picks := picks);
      if target.Some? {
        ApplyTo(i, target.value, now);
        assert View() == AppliedTo(picked, i, target.value, now);
      }
    }

    static method PutBack(saved: Saved, node: GPUNode)
      modifies node
      ensures node.View() == Restore(saved, old(node.View()))
    {
      match saved {
        case Nothing =>
        case Load(used, kvUsed, active) => node.usedMemory, node.kvUsed, node.active := used, kvUsed, active;
        case Memory(used, kvUsed) => node.usedMemory, node.kvUsed := used, kvUsed;
        case Link(nvlink, bandwidth) => node.nvlink, node.bandwidth := nvlink, bandwidth;
        case Speed(tflops, bandwidth) => node.tflops, node.bandwidth := tflops, bandwidth;
      }
    }

    method PutBackAt(saved: Saved, id: string)
      requires Valid() && id in nodes
      modifies nodes[id]
      ensures NodeValues() == old(NodeValues())[id := Restore(saved, old(NodeValues())[id])]
    {
      hide Restore;
      PutBack(saved, nodes[id]);
      assert forall other :: other in nodes && other != id ==> NodeValues()[other] == old(NodeValues()[other]);
    }

    /** The part of _recover that concerns the node. */
    method RestoreNode(saved: Saved, kind: Kind, id: string)
      requires Valid()
      modifies `dead, nodes.Values
      ensures View() == Undone(old(View()), saved, kind, id)
    {
      hide Restore, EventViews, NodeValues, Valid, Sound;
      ValidFacts();
      ghost var views := EventViews(events);
      if id in nodes {
        PutBackAt(saved, id);
        assert EventViews(events) == views;
      }
      if kind.NodeLoss? {
        dead := dead - {id};
      }
    }

    static method Clear(events: seq<FailureEvent>, i: nat)
      requires i < |events| && DistinctEvents(events)
      modifies events[i]
      ensures EventViews(events) == old(EventViews(events))[i := old(EventViews(events))[i].(active := false)]
    {
      events[i].active := false;
    }

    method Deactivate(i: nat)
      requires Valid() && i < |events|
      modifies events[i]
      ensures View() == old(View()).(
                events := old(EventViews(events))[i := old(EventViews(events))[i].(active := false)])
    {
      hide EventViews, NodeValues, Valid, Sound, DistinctEvents;
      ValidFacts();
      ghost var values := NodeValues();
      Clear(events, i);
      assert NodeValues() == values;
    }

    method Recover(i: nat)
      requires Valid() && i < |events|
      modifies `dead, `history, nodes.Values, events[i]
      ensures Valid() && View() == Recovered(old(View()), i)
    {
      var e := events[i];
      ghost var start := View();
      assert e.View() == start.events[i] && start.nodes == NodeValues();
      hide Undone, EventViews, NodeValues, Sound, DistinctEvents;
      if e.active && e.target.Some? {
        RestoreNode(e.saved, e.kind, e.target.value);
        Deactivate(i);
        Record(Restored(e.tag, e.kind, e.target.value));
      } else {
        Deactivate(i);
      }
    }

    /** Whether an inactive event fires now; a probabilistic one takes a draw. */
    method Trigger(e: FailureEvent, now: real) returns (fires: bool)
      requires Valid()
      modifies `draws
      ensures fires == Fires(old(View()), e.View(), now)
      ensures View() == old(View()).(draws := old(View()).draws + (if Tosses(e.View()) then 1 else 0))
    {
      hide EventViews, NodeValues, Valid, Sound;
      ghost var values, views := NodeValues(), EventViews(events);
      fires := false;
      if e.triggerTime.Some? {
        fires := now >= e.triggerTime.value;
      } else if e.triggerProb > 0.0 {
        fires := draw(draws) < e.triggerProb;
        draws := draws + 1;
      }
      assert NodeValues() == values && EventViews(events) == views;
    }

    lemma EventAt(i: nat)
      requires i < |events|
      ensures View().events[i] == events[i].View() && |View().events| == |events|
    {
    }

    /** One turn of step's loop. */
    method VisitEvent(i: nat, now: real) returns (fires: bool)
      requires Valid() && i < |events|
      modifies this, nodes.Values, events
      ensures Valid() && events == old(events) && View() == Visit(old(View()), i, now)
      ensures fires == Strikes(old(View()), i, now)
    {
      hide View, Applied, Recovered, EventViews, NodeValues, Sound, Valid, Fires, Tosses, Expired;
      EventAt(i);
      ValidFacts();
      var e := events[i];
      fires := false;
      if Expired(e.View(), now) {
        Recover(i);
        StaysValid();
      } else if !e.active {
        fires := Trigger(e, now);
        StaysValid();
        if fires {
          Apply(i, now);
        }
      }
    }

    twostate lemma StaysValid()
      requires old(Valid()) && events == old(events)
      ensures Valid()
    {
    }

    method Step(now: real) returns (fired: seq<FailureEvent>)
      requires Valid()
      modifies this, nodes.Values, events
      ensures Valid() && events == old(events) && View() == Stepped(old(View()), now)
      ensures var f := Fired(old(View()), |events|, now);
              |fired| == |f| && forall j :: 0 <= j < |f| ==> fired[j] == events[f[j]]
    {
      hide Visit, Valid, EventViews, NodeValues, Sound, Strikes;
      ghost var start := View();
      ValidFacts();
      fired := [];
      for i := 0 to |events|
        invariant Valid() && events == old(events) && View() == Visits(start, i, now)
        invariant var f := Fired(start, i, now); |fired| == |f| && forall j :: 0 <= j < |f| ==> fired[j] == events[f[j]]
      {
        var fires := VisitEvent(i, now);
        if fires {
          fired := fired + [events[i]];
        }
      }
    }

    method RecoverAll()
      requires Valid()
      modifies this, nodes.Values, events
      ensures Valid() && events == old(events) && View() == AllRecovered(old(View()))
    {
      hide Recovered, Valid, EventViews, NodeValues, Sound;
      ghost var start := View();
      ValidFacts();
      for i := 0 to |events|
        invariant Valid() && events == old(events) && View() == Recoveries(start, i)
      {
        assert events[i].View() == View().events[i];
        if events[i].active {
          Recover(i);
        }
      }
    }
  }
}
