/** The fault injector of simulator/failure_injection/failure_injector.py.  Random draws are
    two arbitrary streams: the probabilities drawn and the nodes chosen. */
module FailureInjection {
  import opened Models

  datatype Kind = NodeLoss | MemorySpike | NvlinkDegrade | SlowNode | NetworkSlowdown

  /** What an event remembers of its node (_orig_state). */
  datatype Saved =
    | Nothing
    | Load(usedMemory: real, kvUsed: nat, active: nat)
    | Memory(usedMemory: real, kvUsed: nat)
    | Link(nvlink: bool, bandwidth: real)
    | Speed(tflops: real, bandwidth: real)

  datatype Event = Event(
    kind: Kind,
    target: Option<string>,
    triggerTime: Option<real>,
    triggerProb: real,
    duration: Option<real>,
    magnitude: real,
    autoRecover: bool,
    tag: string,
    active: bool,
    triggeredAt: Option<real>,
    saved: Saved)

  /** An entry of the history. */
  datatype Entry =
    | Triggered(tag: string, kind: Kind, node: string, at: real)
    | Restored(tag: string, kind: Kind, node: string)

  datatype Injector = Injector(
    ids: seq<string>,
    nodes: map<string, Node>,
    events: seq<Event>,
    dead: set<string>,
    draw: nat -> real,
    draws: nat,
    pick: nat -> nat,
    picks: nat,
    history: seq<Entry>)

  // ----------------------------------------------------------- what a fault does

  function Save(kind: Kind, n: Node, before: Saved): Saved {
    match kind
    case NodeLoss => Load(n.usedMemory, n.kvUsed, n.active)
    case MemorySpike => Memory(n.usedMemory, n.kvUsed)
    case NvlinkDegrade => Link(n.nvlink, n.bandwidth)
    case SlowNode => Speed(n.tflops, n.bandwidth)
    case NetworkSlowdown => before
  }

  /** int() of a block count. */
  function Whole(x: real): nat {
    if x >= 0.0 then x.Floor else 0
  }

  function SpikedMemory(n: Node, magnitude: real): real {
    var raised := n.usedMemory + n.totalMemory * magnitude;
    if raised < n.totalMemory then raised else n.totalMemory
  }

  function Portion(whole: real, used: real, total: real): real
    requires total > 0.0
  {
    whole * (used / total)
  }

  /** The used blocks that go with the used memory. */
  function BlocksShare(blocks: nat, used: real, total: real): nat
    requires total > 0.0
  {
    Whole(Portion(blocks as real, used, total))
  }

  function Hit(kind: Kind, magnitude: real, n: Node): Node
    requires n.totalMemory > 0.0
  {
    match kind
    case NodeLoss => n.(usedMemory := n.totalMemory, kvUsed := n.kvTotal)
    case MemorySpike =>
      var used := SpikedMemory(n, magnitude);
      n.(usedMemory := used, kvUsed := BlocksShare(n.kvTotal, used, n.totalMemory))
    case NvlinkDegrade => n.(bandwidth := n.bandwidth * (1.0 - magnitude))
    case SlowNode => n.(tflops := n.tflops * (1.0 - magnitude), bandwidth := n.bandwidth * (1.0 - magnitude * 0.5))
    case NetworkSlowdown => n
  }

  function Restore(saved: Saved, n: Node): Node {
    match saved
    case Nothing => n
    case Load(used, kvUsed, active) => n.(usedMemory := used, kvUsed := kvUsed, active := active)
    case Memory(used, kvUsed) => n.(usedMemory := used, kvUsed := kvUsed)
    case Link(nvlink, bandwidth) => n.(nvlink := nvlink, bandwidth := bandwidth)
    case Speed(tflops, bandwidth) => n.(tflops := tflops, bandwidth := bandwidth)
  }

  // ------------------------------------------------------------------ operations

  function Alive(ids: seq<string>, dead: set<string>): (a: seq<string>)
    ensures forall k :: 0 <= k < |a| ==> a[k] in ids && a[k] !in dead
  {
    if ids == [] then []
    else
      var rest := Alive(ids[..|ids| - 1], dead);
      if ids[|ids| - 1] in dead then rest else rest + [ids[|ids| - 1]]
  }

  /** _pick_target: the known target, else any node that is alive. */
  function TargetOf(s: Injector, e: Event): Option<string> {
    if Truthy(e.target) && e.target.value in s.nodes then e.target
    else
      var alive := Alive(s.ids, s.dead);
      if alive == [] then None else Some(alive[s.pick(s.picks) % |alive|])
  }

  predicate Draws(s: Injector, e: Event) {
    !(Truthy(e.target) && e.target.value in s.nodes) && Alive(s.ids, s.dead) != []
  }

  ghost predicate Sound(s: Injector) {
    && (forall k :: 0 <= k < |s.ids| ==> s.ids[k] in s.nodes)
    && (forall id :: id in s.nodes ==> s.nodes[id].totalMemory > 0.0)
  }

  /** What _apply does once it has a target. */
  function AppliedTo(s: Injector, i: nat, id: string, now: real): (t: Injector)
    requires Sound(s) && i < |s.events| && id in s.nodes
    ensures Sound(t) && |t.events| == |s.events|
  {
    var (e, n) := (s.events[i], s.nodes[id]);
    s.(nodes := s.nodes[id := Hit(e.kind, e.magnitude, n)],
       dead := if e.kind.NodeLoss? then s.dead + {id} else s.dead,
       events := s.events[i := e.(
                   active := true, triggeredAt := Some(now), saved := Save(e.kind, n, e.saved), target := Some(id))],
       history := s.history + [Triggered(e.tag, e.kind, id, now)])
  }

  /** _apply */
  function Applied(s: Injector, i: nat, now: real): (t: Injector)
    requires Sound(s) && i < |s.events|
    ensures Sound(t) && |t.events| == |s.events|
  {
    match TargetOf(s, s.events[i])
    case None => s
    case Some(id) => AppliedTo(s.(picks := s.picks + (if Draws(s, s.events[i]) then 1 else 0)), i, id, now)
  }

  /** What _recover does to the node of an event. */
  function Undone(s: Injector, saved: Saved, kind: Kind, id: string): (t: Injector)
    requires Sound(s)
    ensures Sound(t) && t.events == s.events
  {
    s.(nodes := if id in s.nodes then s.nodes[id := Restore(saved, s.nodes[id])] else s.nodes,
       dead := if kind.NodeLoss? then s.dead - {id} else s.dead)
  }

  /** _recover */
  function Recovered(s: Injector, i: nat): (t: Injector)
    requires Sound(s) && i < |s.events|
    ensures Sound(t) && |t.events| == |s.events|
  {
    var e := s.events[i];
    var undone := if e.active && e.target.Some? then Undone(s, e.saved, e.kind, e.target.value) else s;
    undone.(events := s.events[i := e.(active := false)],
            history := s.history +
                       (if e.active && e.target.Some? then [Restored(e.tag, e.kind, e.target.value)] else []))
  }

  predicate Expired(e: Event, now: real) {
    e.active && e.autoRecover && e.duration.Some? &&
    now - (if e.triggeredAt.Some? then e.triggeredAt.value else 0.0) >= e.duration.value
  }

  /** A fault without a trigger time strikes by chance. */
  predicate Tosses(e: Event) {
    e.triggerTime.None? && e.triggerProb > 0.0
  }

  predicate Fires(s: Injector, e: Event, now: real) {
    if e.triggerTime.Some? then now >= e.triggerTime.value else Tosses(e) && s.draw(s.draws) < e.triggerProb
  }

  /** One turn of step's loop. */
  function Visit(s: Injector, i: nat, now: real): (t: Injector)
    requires Sound(s) && i < |s.events|
    ensures Sound(t) && |t.events| == |s.events|
  {
    var e := s.events[i];
    if Expired(e, now) then Recovered(s, i)
    else if e.active then s
    else
      var drawn := s.(draws := s.draws + (if Tosses(e) then 1 else 0));
      if Fires(s, e, now) then Applied(drawn, i, now) else drawn
  }

  function Visits(s: Injector, k: nat, now: real): (t: Injector)
    requires Sound(s) && k <= |s.events|
    ensures Sound(t) && |t.events| == |s.events|
  {
    if k == 0 then s else Visit(Visits(s, k - 1, now), k - 1, now)
  }

  /** Whether the turn of event i reports it as fired, with or without a node to strike. */
  predicate Strikes(s: Injector, i: nat, now: real)
    requires i < |s.events|
  {
    !Expired(s.events[i], now) && !s.events[i].active && Fires(s, s.events[i], now)
  }

  /** The events that step returns, by their place in the list. */
  function Fired(s: Injector, k: nat, now: real): (f: seq<nat>)
    requires Sound(s) && k <= |s.events|
    ensures forall j :: 0 <= j < |f| ==> f[j] < k
  {
    if k == 0 then []
    else Fired(s, k - 1, now) + (if Strikes(Visits(s, k - 1, now), k - 1, now) then [k - 1] else [])
  }

  function Stepped(s: Injector, now: real): (t: Injector)
    requires Sound(s)
    ensures Sound(t) && |t.events| == |s.events|
  {
    Visits(s, |s.events|, now)
  }

  function Recoveries(s: Injector, k: nat): (t: Injector)
    requires Sound(s) && k <= |s.events|
    ensures Sound(t) && |t.events| == |s.events|
  {
    if k == 0 then s
    else
      var before := Recoveries(s, k - 1);
      if before.events[k - 1].active then Recovered(before, k - 1) else before
  }

  function AllRecovered(s: Injector): (t: Injector)
    requires Sound(s)
    ensures Sound(t) && |t.events| == |s.events|
  {
    Recoveries(s, |s.events|)
  }

  function Run(s: Injector, times: seq<real>): (t: Injector)
    requires Sound(s)
    ensures Sound(t) && |t.events| == |s.events|
  {
    if times == [] then s else Stepped(Run(s, times[..|times| - 1]), times[|times| - 1])
  }
}
