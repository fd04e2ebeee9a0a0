/** Scans over a pool of KV blocks and the prefix index over it, as the cache manager
    and the cache simulator both use them.  A block's id is its place in the pool. */
module BlockPools {
  import opened Models

  /** The conditions by which the code scans the blocks of a node. */
  datatype Kind = Any | Live | Unpinned | Candidate | Vacant | Fresh | Pinned

  predicate Is(b: Block, node: string, k: Kind) {
    b.node == node &&
    match k
    case Any => true
    case Live => b.tokens > 0
    case Unpinned => !b.pinned
    case Candidate => !b.pinned && b.tokens > 0
    case Vacant => b.tokens == 0 && !b.pinned
    case Fresh => b.tokens == 0 && !b.pinned && b.hash == None
    case Pinned => b.pinned
  }

  predicate Numbered(bs: seq<Block>) {
    forall i :: 0 <= i < |bs| ==> bs[i].id == i
  }

  /** A list comprehension over the pool. */
  function Select(bs: seq<Block>, node: string, k: Kind): seq<Block> {
    if bs == [] then []
    else
      var rest := Select(bs[..|bs| - 1], node, k);
      if Is(bs[|bs| - 1], node, k) then rest + [bs[|bs| - 1]] else rest
  }

  ghost function Ids(bs: seq<Block>, node: string, k: Kind): set<nat> {
    set i: nat | i < |bs| && Is(bs[i], node, k)
  }

  /** A scan yields the blocks of its kind, each once, in pool order. */
  lemma SelectIds(bs: seq<Block>, node: string, k: Kind)
    requires Numbered(bs)
    ensures var s := Select(bs, node, k);
            && |s| == |Ids(bs, node, k)|
            && (forall j :: 0 <= j < |s| ==> s[j].id in Ids(bs, node, k) && bs[s[j].id] == s[j])
            && (forall i, j :: 0 <= i < j < |s| ==> s[i].id < s[j].id)
            && (forall i :: i in Ids(bs, node, k) ==> bs[i] in s)
  {
    SelectOrder(bs, node, k);
    SelectCount(bs, node, k);
    forall i | i in Ids(bs, node, k)
      ensures bs[i] in Select(bs, node, k)
    {
      SelectAll(bs, node, k, i);
    }
  }

  ghost predicate OrderedScan(bs: seq<Block>, s: seq<Block>, node: string, k: Kind) {
    && (forall j :: 0 <= j < |s| ==> s[j].id < |bs| && bs[s[j].id] == s[j] && Is(s[j], node, k))
    && (forall i, j :: 0 <= i < j < |s| ==> s[i].id < s[j].id)
  }

  lemma {:induction false} SelectOrder(bs: seq<Block>, node: string, k: Kind)
    requires Numbered(bs)
    ensures OrderedScan(bs, Select(bs, node, k), node, k)
  {
    if bs != [] {
      var n := |bs| - 1;
      var rest := Select(bs[..n], node, k);
      SelectOrder(bs[..n], node, k);
      assert OrderedScan(bs, rest, node, k) by {
        forall j | 0 <= j < |rest|
          ensures rest[j].id < |bs| && bs[rest[j].id] == rest[j] && Is(rest[j], node, k)
        {
          assert bs[..n][rest[j].id] == rest[j];
        }
      }
    }
  }

  lemma {:induction false} SelectCount(bs: seq<Block>, node: string, k: Kind)
    ensures |Select(bs, node, k)| == |Ids(bs, node, k)|
  {
    hide Is;
    if bs == [] {
      assert Ids(bs, node, k) == {};
    } else {
      var n := |bs| - 1;
      SelectCount(bs[..n], node, k);
      IdsLast(bs, node, k);
    }
  }

  lemma IdsLast(bs: seq<Block>, node: string, k: Kind)
    requires bs != []
    ensures var n := |bs| - 1;
            && Ids(bs, node, k) == Ids(bs[..n], node, k) + (if Is(bs[n], node, k) then {n} else {})
            && n !in Ids(bs[..n], node, k)
  {
    hide Is;
  }

  lemma {:induction false} SelectAll(bs: seq<Block>, node: string, k: Kind, i: nat)
    requires i < |bs| && Is(bs[i], node, k)
    ensures bs[i] in Select(bs, node, k)
  {
    var n := |bs| - 1;
    if i < n {
      SelectAll(bs[..n], node, k, i);
      assert bs[..n][i] == bs[i];
    }
  }

  /** Writing one block moves at most that block in or out of a scan. */
  lemma IdsUpdate(bs: seq<Block>, i: nat, b: Block, node: string, k: Kind)
    requires i < |bs|
    ensures Ids(bs[i := b], node, k) ==
            if Is(b, node, k) then Ids(bs, node, k) + {i} else Ids(bs, node, k) - {i}
  {
  }

  lemma IdsSame(bs: seq<Block>, cs: seq<Block>, node: string, k: Kind)
    requires |bs| == |cs|
    requires forall i :: 0 <= i < |bs| ==> (Is(bs[i], node, k) <==> Is(cs[i], node, k))
    ensures Ids(bs, node, k) == Ids(cs, node, k)
  {
  }

  /** Every unpinned block is either evictable or vacant. */
  lemma UnpinnedSplit(bs: seq<Block>, node: string)
    ensures |Ids(bs, node, Unpinned)| == |Ids(bs, node, Candidate)| + |Ids(bs, node, Vacant)|
  {
    assert Ids(bs, node, Unpinned) == Ids(bs, node, Candidate) + Ids(bs, node, Vacant);
    assert Ids(bs, node, Candidate) !! Ids(bs, node, Vacant);
  }

  function Refs(bs: seq<Block>): (r: seq<nat>)
    ensures |r| == |bs| && forall i :: 0 <= i < |bs| ==> r[i] == bs[i].id
  {
    seq(|bs|, i requires 0 <= i < |bs| => bs[i].id)
  }

  predicate Within(bs: seq<Block>, ids: seq<nat>) {
    forall j :: 0 <= j < |ids| ==> ids[j] < |bs|
  }

  predicate NoDup(s: seq<nat>) {
    forall i, j :: 0 <= i < j < |s| ==> s[i] != s[j]
  }

  ghost function Elems(s: seq<nat>): set<nat> {
    set x | x in s
  }

  lemma {:induction false} NoDupCount(s: seq<nat>)
    requires NoDup(s)
    ensures |Elems(s)| == |s|
  {
    if s != [] {
      NoDupCount(s[1..]);
      assert Elems(s) == Elems(s[1..]) + {s[0]};
    }
  }

  /** list.remove: drops the first occurrence. */
  function Remove(s: seq<nat>, x: nat): seq<nat> {
    if s == [] then []
    else if s[0] == x then s[1..]
    else [s[0]] + Remove(s[1..], x)
  }

  lemma NoDupCons(x: nat, s: seq<nat>)
    requires NoDup(s) && x !in s
    ensures NoDup([x] + s)
  {
  }

  lemma {:induction false} RemoveSpec(s: seq<nat>, x: nat)
    requires NoDup(s)
    ensures NoDup(Remove(s, x))
    ensures forall y :: y in Remove(s, x) <==> y in s && y != x
  {
    if s != [] {
      assert s == [s[0]] + s[1..];
      assert s[0] !in s[1..];
      if s[0] != x {
        RemoveSpec(s[1..], x);
        NoDupCons(s[0], Remove(s[1..], x));
      }
    }
  }

  /** It takes out one entry and leaves the others in their order. */
  lemma {:induction false} RemoveTakesFirst(s: seq<nat>, x: nat) returns (k: nat)
    ensures x !in s ==> Remove(s, x) == s
    ensures x in s ==> k < |s| && s[k] == x && x !in s[..k] && Remove(s, x) == s[..k] + s[k + 1..]
  {
    k := 0;
    if s != [] && s[0] != x {
      var j := RemoveTakesFirst(s[1..], x);
      k := j + 1;
      assert s == [s[0]] + s[1..];
      if x in s {
        assert s[..k] == [s[0]] + s[1..][..j];
      }
    }
  }

  type Index = map<string, seq<nat>>

  /** What both eviction loops do to the prefix index when block `b` goes. */
  function Unlink(index: Index, b: Block): Index {
    if Truthy(b.hash) && b.hash.value in index then
      var h := b.hash.value;
      var rest := if b.id in index[h] then Remove(index[h], b.id) else index[h];
      if rest == [] then index - {h} else index[h := rest]
    else index
  }

  /** Unlink drops exactly that block, and the entry once it is empty. */
  lemma UnlinkSpec(index: Index, b: Block)
    requires forall h :: h in index ==> index[h] != [] && NoDup(index[h])
    ensures var r := Unlink(index, b);
            && (forall h :: h in r ==> h in index && r[h] != [] && NoDup(r[h]))
            && (forall h, i :: h in r && i in r[h] <==>
                  h in index && i in index[h] && !(Truthy(b.hash) && h == b.hash.value && i == b.id))
            && (forall h :: h in index && !(Truthy(b.hash) && h == b.hash.value) ==> h in r && r[h] == index[h])
            && (forall h :: h in index && b.id !in index[h] ==> h in r && r[h] == index[h])
  {
    if Truthy(b.hash) && b.hash.value in index {
      RemoveSpec(index[b.hash.value], b.id);
    }
  }
}
