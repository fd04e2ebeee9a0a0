/** The vocabulary of core/models.py: requests, GPU nodes and KV blocks.
    Gigabytes are exact rationals (`real`); one KV block is 2/1024 GB. */
module Models {

  datatype Option<+T> = None | Some(value: T)

  datatype SLAClass = Realtime | Interactive | Batch

  function Max(a: int, b: int): int {
    if a >= b then a else b
  }

  function Min(a: int, b: int): int {
    if a <= b then a else b
  }

  /** A product that proofs keep folded. */
  ghost function Times(n: nat, k: nat): nat {
    n * k
  }

  lemma OneMore(n: nat, k: nat)
    ensures Times(n + 1, k) == Times(n, k) + k && Times(0, k) == 0
  {
  }

  lemma Distribute(n: nat, a: nat, b: nat)
    ensures Times(n, a + b) == Times(n, a) + Times(n, b)
  {
  }

  lemma TimesMonotone(m: nat, n: nat, k: nat)
    ensures m <= n ==> Times(m, k) <= Times(n, k)
  {
  }

  lemma TimesGrows(n: nat, j: nat, k: nat)
    ensures j <= k ==> Times(n, j) <= Times(n, k)
  {
  }

  lemma ShareOfWhole(part: real, whole: real)
    requires 0.0 <= part <= whole && whole > 0.0
    ensures 0.0 <= part / whole <= 1.0
    ensures part / whole < 1.0 <==> part < whole
  {
    var rest := 1.0 - part / whole;
    assert rest * whole == whole - part;
  }

  /** Python's truth value of an optional string: None and "" are both false. */
  predicate Truthy(h: Option<string>) {
    h.Some? && h.value != ""
  }

  // ---------------------------------------------------------------- requests

  /** The memory that a number of KV blocks occupies: 2 MiB each. */
  function BlocksGb(blocks: nat): real {
    blocks as real * 2.0 / 1024.0
  }

  datatype Request = Request(
    id: string,
    promptTokens: nat,
    maxOutputTokens: nat,
    sla: SLAClass,
    arrival: real,
    prefixHash: Option<string>)
  {
    function Tokens(): nat {
      promptTokens + maxOutputTokens
    }

    /** The least positive number of 16-token blocks that holds prompt and output. */
    function KvBlocksNeeded(): (n: nat)
      ensures 1 <= n && promptTokens + maxOutputTokens <= 16 * n
      ensures n == 1 || 16 * (n - 1) < promptTokens + maxOutputTokens
    {
      Max(1, (Tokens() + 15) / 16)
    }

    function EstimatedMemoryGb(): real {
      BlocksGb(KvBlocksNeeded())
    }

    predicate IsLongContext() {
      promptTokens > 8192
    }
  }

  // ------------------------------------------------------------------- nodes

  /** The value of a GPUNode at one moment. */
  datatype Node = Node(
    id: string,
    totalMemory: real,
    bandwidth: real,
    tflops: real,
    nvlink: bool,
    usedMemory: real,
    active: nat,
    kvUsed: nat,
    kvTotal: nat)
  {
    function FreeMemory(): real {
      if totalMemory - usedMemory >= 0.0 then totalMemory - usedMemory else 0.0
    }

    function MemoryPressure(): real
      requires totalMemory > 0.0
    {
      usedMemory / totalMemory
    }

    function KvFree(): nat {
      Max(0, kvTotal - kvUsed)
    }

    function ComputeUtilization(): real {
      var u := active as real * 0.05;
      if u <= 1.0 then u else 1.0
    }

    predicate CanFit(blocks: nat, memory: real) {
      KvFree() >= blocks && FreeMemory() >= memory
    }

    predicate Fits(r: Request) {
      CanFit(r.KvBlocksNeeded(), r.EstimatedMemoryGb())
    }

    function Allocate(blocks: nat, memory: real): Node {
      this.(kvUsed := kvUsed + blocks, usedMemory := usedMemory + memory, active := active + 1)
    }

    function Release(blocks: nat, memory: real): Node {
      this.(kvUsed := Max(0, kvUsed - blocks),
            usedMemory := if usedMemory - memory >= 0.0 then usedMemory - memory else 0.0,
            active := Max(0, active - 1))
    }

    /** No request is running on the node. */
    predicate Idle() {
      usedMemory == 0.0 && kvUsed == 0 && active == 0
    }

    /** The KV pool lives in the 60 % of memory that is not reserved for weights. */
    predicate KvWithinShare() {
      totalMemory > 0.0 && BlocksGb(kvTotal) <= 0.60 * totalMemory
    }
  }

  /** Fitting, in terms of the counters: the blocks are left in the pool and their 2 MiB each in
      memory. */
  lemma FitsIff(n: Node, r: Request)
    ensures n.Fits(r) <==>
            && n.kvUsed + r.KvBlocksNeeded() <= n.kvTotal
            && 512.0 * n.usedMemory + r.KvBlocksNeeded() as real <= 512.0 * n.totalMemory
  {
    assert 512.0 * r.EstimatedMemoryGb() == r.KvBlocksNeeded() as real;
  }

  /** Pressure is the used share of memory, utilisation a twentieth for each running request up
      to all of it. */
  lemma PressureIsShare(n: Node)
    requires n.totalMemory > 0.0
    ensures n.MemoryPressure() * n.totalMemory == n.usedMemory
    ensures 20.0 * n.ComputeUtilization() == Min(20, n.active) as real
  {
  }

  /** Every node has memory, so its pressure is defined. */
  predicate Sized(nodes: seq<Node>) {
    forall k :: 0 <= k < |nodes| ==> nodes[k].totalMemory > 0.0
  }

  ghost predicate DistinctIds(nodes: seq<Node>) {
    forall i, j :: 0 <= i < j < |nodes| ==> nodes[i].id != nodes[j].id
  }

  function TotalPressure(nodes: seq<Node>): real
    requires Sized(nodes)
  {
    if nodes == [] then 0.0 else TotalPressure(nodes[..|nodes| - 1]) + nodes[|nodes| - 1].MemoryPressure()
  }

  /** The pool size that GPUNode derives when none is given. */
  function DerivedKvTotal(totalMemory: real): nat
    requires totalMemory >= 0.0
  {
    (totalMemory * 0.60 * 1024.0 / 2.0).Floor
  }

  /** The derived pool is the largest one inside the 60 % share. */
  lemma DerivedKvTotalIsLargest(totalMemory: real, blocks: nat)
    requires totalMemory >= 0.0
    ensures blocks <= DerivedKvTotal(totalMemory) <==> BlocksGb(blocks) <= 0.60 * totalMemory
  {
    var x := totalMemory * 0.60 * 1024.0 / 2.0;
    assert BlocksGb(blocks) * 512.0 == blocks as real;
    assert x == 0.60 * totalMemory * 512.0;
    assert x.Floor as real <= x < x.Floor as real + 1.0;
    if blocks <= x.Floor {
      assert blocks as real <= x.Floor as real;
    } else {
      assert blocks as real >= x.Floor as real + 1.0;
    }
  }

  class GPUNode {
    const id: string
    const totalMemory: real
    const kvTotal: nat
    var bandwidth: real
    var tflops: real
    var nvlink: bool
    var usedMemory: real
    var active: nat
    var kvUsed: nat

    function View(): Node
      reads this
    {
      Node(id, totalMemory, bandwidth, tflops, nvlink, usedMemory, active, kvUsed, kvTotal)
    }

    /** `kvBlocksTotal` 0 stands for "not given": the pool size is then derived. */
    constructor (id: string, totalMemory: real, bandwidth: real, tflops: real, nvlink: bool, kvBlocksTotal: nat)
      requires totalMemory > 0.0
      ensures View().Idle() && this.id == id && View().totalMemory == totalMemory
      ensures View().bandwidth == bandwidth && View().tflops == tflops && View().nvlink == nvlink
      ensures kvBlocksTotal != 0 ==> View().kvTotal == kvBlocksTotal
      ensures kvBlocksTotal == 0 ==> View().KvWithinShare()
      ensures kvBlocksTotal == 0 ==> BlocksGb(View().kvTotal + 1) > 0.60 * totalMemory
    {
      DerivedKvTotalIsLargest(totalMemory, DerivedKvTotal(totalMemory));
      DerivedKvTotalIsLargest(totalMemory, DerivedKvTotal(totalMemory) + 1);
      this.id := id;
      this.totalMemory := totalMemory;
      this.bandwidth, this.tflops, this.nvlink := bandwidth, tflops, nvlink;
      this.usedMemory, this.active, this.kvUsed := 0.0, 0, 0;
      this.kvTotal := if kvBlocksTotal == 0 then DerivedKvTotal(totalMemory) else kvBlocksTotal;
    }

    method Allocate(blocks: nat, memory: real)
      modifies this
      ensures View() == old(View()).Allocate(blocks, memory)
      ensures kvUsed == old(kvUsed) + blocks && usedMemory == old(usedMemory) + memory && active == old(active) + 1
    {
      kvUsed := kvUsed + blocks;
      usedMemory := usedMemory + memory;
      active := active + 1;
    }

    method Release(blocks: nat, memory: real)
      modifies this
      ensures View() == old(View()).Release(blocks, memory)
      ensures kvUsed == (if old(kvUsed) >= blocks then old(kvUsed) - blocks else 0)
      ensures active == (if old(active) >= 1 then old(active) - 1 else 0)
      ensures old(usedMemory) >= memory ==> usedMemory == old(usedMemory) - memory
      ensures old(usedMemory) < memory ==> usedMemory == 0.0
    {
      kvUsed := Max(0, kvUsed - blocks);
      usedMemory := if usedMemory - memory >= 0.0 then usedMemory - memory else 0.0;
      active := Max(0, active - 1);
    }
  }

  function NodeViews(nodes: seq<GPUNode>): (r: seq<Node>)
    reads nodes
    ensures |r| == |nodes| && forall k :: 0 <= k < |nodes| ==> r[k] == nodes[k].View()
  {
    seq(|nodes|, k requires 0 <= k < |nodes| reads nodes => nodes[k].View())
  }

  ghost predicate DistinctNodes(nodes: seq<GPUNode>) {
    forall i, j :: 0 <= i < j < |nodes| ==> nodes[i] != nodes[j]
  }

  // -------------------------------------------------------------- KV blocks

  /** The value of a KVBlock at one moment. */
  datatype Block = Block(id: nat, node: string, tokens: nat, hash: Option<string>, last: real, pinned: bool)

  class KVBlock {
    const id: nat
    const node: string
    var tokensUsed: nat
    var prefixHash: Option<string>
    var lastAccessed: real
    var pinned: bool

    function View(): Block
      reads this
    {
      Block(id, node, tokensUsed, prefixHash, lastAccessed, pinned)
    }

    constructor (id: nat, node: string, now: real)
      ensures View() == Block(id, node, 0, None, now, false)
    {
      this.id, this.node := id, node;
      tokensUsed, prefixHash, lastAccessed, pinned := 0, None, now, false;
    }
  }

  /** time.monotonic(): an arbitrary stream of readings and how many were taken. */
  class Clock {
    const read: nat -> real
    var tick: nat

    constructor (read: nat -> real)
      ensures this.read == read && tick == 0
    {
      this.read, tick := read, 0;
    }

    method Now() returns (t: real)
      modifies this`tick
      ensures t == read(old(tick)) && tick == old(tick) + 1
    {
      t := read(tick);
      tick := tick + 1;
    }
  }
}
