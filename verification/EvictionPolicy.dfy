/** control_plane/kv_cache_manager/eviction_policy.py.

    The three policies are the cases of one datatype.  The fourth case stands for
    every other policy that could be plugged in: it remembers all the hook calls it
    received and chooses among the evictable candidates by any function of that
    history and the candidates. */
module EvictionPolicies {
  import opened Models

  datatype Hook = Accessed(id: nat) | Allocated(id: nat) | Freed(id: nat)

  datatype Policy =
    | LRU(times: map<nat, real>)
    | LFU(freq: map<nat, nat>)
    | Belady(future: map<nat, seq<real>>)
    | Plugged(log: seq<Hook>, choose: (seq<Hook>, seq<Block>) -> nat)
  {
    /** on_access; `now` is the reading that LRU takes. */
    function OnAccess(id: nat, now: real): Policy {
      match this
      case LRU(times) => LRU(times[id := now])
      case LFU(freq) => LFU(freq[id := (if id in freq then freq[id] else 0) + 1])
      case Belady(future) =>
        if id in future && future[id] != [] then Belady(future[id := future[id][1..]]) else this
      case Plugged(log, choose) => Plugged(log + [Accessed(id)], choose)
    }

    function OnAllocate(id: nat, now: real): Policy {
      match this
      case LRU(times) => LRU(times[id := now])
      case LFU(freq) => LFU(freq[id := 0])
      case Belady(future) => this
      case Plugged(log, choose) => Plugged(log + [Allocated(id)], choose)
    }

    function OnFree(id: nat): Policy {
      match this
      case LRU(times) => LRU(times - {id})
      case LFU(freq) => LFU(freq - {id})
      case Belady(future) => Belady(future - {id})
      case Plugged(log, choose) => Plugged(log + [Freed(id)], choose)
    }

    /** How soon a ranking policy gives up a block: the smallest rank goes first. */
    function RankOf(id: nat): Rank {
      match this
      case LRU(times) => Fin(if id in times then times[id] else 0.0)
      case LFU(freq) => Fin((if id in freq then freq[id] else 0) as real)
      case Belady(future) => if id in future && future[id] != [] then Fin(-future[id][0]) else Never
      case Plugged(_, _) => Never
    }

    predicate Ranked() {
      !Plugged?
    }

    function PickVictim(candidates: seq<Block>): Option<Block> {
      var evictable := Unpinned(candidates);
      if evictable == [] then None
      else if Plugged? then Some(evictable[choose(log, evictable) % |evictable|])
      else Some(FirstLeast(evictable))
    }

    /** Python's min: the first element whose rank no other element undercuts. */
    function FirstLeast(bs: seq<Block>): Block
      requires bs != []
    {
      if |bs| == 1 then bs[0]
      else
        var best := FirstLeast(bs[..|bs| - 1]);
        if RankOf(bs[|bs| - 1].id).Below(RankOf(best.id)) then bs[|bs| - 1] else best
    }
  }

  /** `Never` is the rank of a block that Belady sees never used again. */
  datatype Rank = Never | Fin(value: real)
  {
    predicate Below(other: Rank) {
      (Never? && other.Fin?) || (Fin? && other.Fin? && value < other.value)
    }
  }

  function Unpinned(bs: seq<Block>): seq<Block> {
    if bs == [] then []
    else
      var rest := Unpinned(bs[..|bs| - 1]);
      if bs[|bs| - 1].pinned then rest else rest + [bs[|bs| - 1]]
  }

  lemma {:induction false} UnpinnedMembers(bs: seq<Block>)
    ensures forall b :: b in Unpinned(bs) <==> b in bs && !b.pinned
  {
    if bs != [] {
      UnpinnedMembers(bs[..|bs| - 1]);
      assert bs == bs[..|bs| - 1] + [bs[|bs| - 1]];
    }
  }

  /** min returns a least element, and the first one of them. */
  lemma {:induction false} FirstLeastIsFirstLeast(p: Policy, bs: seq<Block>) returns (k: nat)
    requires bs != []
    ensures k < |bs| && p.FirstLeast(bs) == bs[k]
    ensures forall j :: 0 <= j < |bs| ==> !p.RankOf(bs[j].id).Below(p.RankOf(bs[k].id))
    ensures forall j :: 0 <= j < k ==> p.RankOf(bs[k].id).Below(p.RankOf(bs[j].id))
  {
    hide Policy.RankOf;
    var n := |bs| - 1;
    if n == 0 {
      k := 0;
    } else {
      k := FirstLeastIsFirstLeast(p, bs[..n]);
      if p.RankOf(bs[n].id).Below(p.RankOf(bs[k].id)) {
        k := n;
      }
    }
  }

  /** The contract of every policy: the victim is an unpinned candidate, none is
      named only if there is none, and a ranking policy names one of least rank. */
  lemma PickVictimContract(p: Policy, candidates: seq<Block>)
    ensures var v := p.PickVictim(candidates);
            && (v == None <==> forall b :: b in candidates ==> b.pinned)
            && (v.Some? ==> v.value in candidates && !v.value.pinned)
            && (v.Some? && p.Ranked() ==>
                  forall b :: b in candidates && !b.pinned ==> !p.RankOf(b.id).Below(p.RankOf(v.value.id)))
  {
    UnpinnedMembers(candidates);
    var evictable := Unpinned(candidates);
    if evictable != [] {
      assert evictable[0] in candidates && !evictable[0].pinned;
      if p.Ranked() {
        var k := FirstLeastIsFirstLeast(p, evictable);
        assert evictable[k] in evictable;
      } else {
        assert evictable[p.choose(p.log, evictable) % |evictable|] in evictable;
      }
    }
  }

  // ------------------------------------------------- what the policies look at

  /** The recorded access time, count and next use of a block. */
  function TimeOf(times: map<nat, real>, id: nat): real {
    if id in times then times[id] else 0.0
  }

  function CountOf(freq: map<nat, nat>, id: nat): nat {
    if id in freq then freq[id] else 0
  }

  function FutureOf(future: map<nat, seq<real>>, id: nat): seq<real> {
    if id in future then future[id] else []
  }

  /** An unpinned block by its place in a list: no unpinned block ranks below it, and every earlier
      one ranks above. */
  ghost predicate LeastAt(p: Policy, bs: seq<Block>, i: nat) {
    && i < |bs| && !bs[i].pinned
    && (forall j :: 0 <= j < |bs| && !bs[j].pinned ==> !p.RankOf(bs[j].id).Below(p.RankOf(bs[i].id)))
    && (forall j :: 0 <= j < i && !bs[j].pinned ==> p.RankOf(bs[i].id).Below(p.RankOf(bs[j].id)))
  }

  lemma LeastStays(p: Policy, bs: seq<Block>, b: Block, i: nat)
    requires LeastAt(p, bs, i) && (b.pinned || !p.RankOf(b.id).Below(p.RankOf(bs[i].id)))
    ensures LeastAt(p, bs + [b], i)
  {
    hide Policy.RankOf, Rank.Below;
  }

  lemma LeastMoves(p: Policy, bs: seq<Block>, b: Block, i: nat)
    requires LeastAt(p, bs, i) && !b.pinned && p.RankOf(b.id).Below(p.RankOf(bs[i].id))
    ensures LeastAt(p, bs + [b], |bs|)
  {
    hide Policy.RankOf, Rank.Below;
    forall j | 0 <= j < |bs| && !bs[j].pinned
      ensures p.RankOf(b.id).Below(p.RankOf(bs[j].id)) && !p.RankOf(bs[j].id).Below(p.RankOf(b.id))
    {
      BelowChain(p.RankOf(b.id), p.RankOf(bs[i].id), p.RankOf(bs[j].id));
    }
    NotBelowSelf(p.RankOf(b.id));
  }

  lemma BelowChain(a: Rank, b: Rank, c: Rank)
    requires a.Below(b) && !c.Below(b)
    ensures a.Below(c) && !c.Below(a)
  {
  }

  lemma NotBelowSelf(a: Rank)
    ensures !a.Below(a)
  {
  }

  lemma LeastAlone(p: Policy, bs: seq<Block>, b: Block)
    requires !b.pinned && forall c :: c in bs ==> c.pinned
    ensures LeastAt(p, bs + [b], |bs|)
  {
    hide Policy.RankOf, Rank.Below;
    NotBelowSelf(p.RankOf(b.id));
    forall j | 0 <= j < |bs|
      ensures (bs + [b])[j].pinned
    {
      assert bs[j] in bs;
    }
  }

  lemma {:induction false} FirstLeastByPlace(p: Policy, bs: seq<Block>) returns (i: nat)
    requires Unpinned(bs) != []
    ensures LeastAt(p, bs, i) && p.FirstLeast(Unpinned(bs)) == bs[i]
  {
    hide Policy.RankOf, Rank.Below, LeastAt;
    var n := |bs| - 1;
    var rest := Unpinned(bs[..n]);
    UnpinnedMembers(bs[..n]);
    assert bs == bs[..n] + [bs[n]];
    if rest == [] {
      i := n;
      LeastAlone(p, bs[..n], bs[n]);
    } else {
      i := FirstLeastByPlace(p, bs[..n]);
      LeastIsPlace(p, bs[..n], i);
      assert (rest + [bs[n]])[..|rest|] == rest;
      if !bs[n].pinned && p.RankOf(bs[n].id).Below(p.RankOf(bs[i].id)) {
        LeastMoves(p, bs[..n], bs[n], i);
        i := n;
      } else {
        LeastStays(p, bs[..n], bs[n], i);
      }
    }
  }

  lemma LeastIsPlace(p: Policy, bs: seq<Block>, i: nat)
    requires LeastAt(p, bs, i)
    ensures i < |bs| && !bs[i].pinned
  {
  }

  lemma VictimByPlace(p: Policy, candidates: seq<Block>) returns (i: nat)
    requires p.Ranked() && exists b :: b in candidates && !b.pinned
    ensures LeastAt(p, candidates, i) && p.PickVictim(candidates) == Some(candidates[i])
  {
    hide Policy.RankOf, Rank.Below, Unpinned, Policy.FirstLeast, LeastAt;
    UnpinnedMembers(candidates);
    i := FirstLeastByPlace(p, candidates);
    LeastIsPlace(p, candidates, i);
  }

  /** LRU takes the first unpinned candidate with the earliest time. */
  lemma LRUTakesEarliest(times: map<nat, real>, candidates: seq<Block>) returns (i: nat)
    requires exists b :: b in candidates && !b.pinned
    ensures i < |candidates| && !candidates[i].pinned && LRU(times).PickVictim(candidates) == Some(candidates[i])
    ensures forall j :: 0 <= j < |candidates| && !candidates[j].pinned ==>
              TimeOf(times, candidates[i].id) <= TimeOf(times, candidates[j].id)
    ensures forall j :: 0 <= j < i && !candidates[j].pinned ==>
              TimeOf(times, candidates[i].id) < TimeOf(times, candidates[j].id)
  {
    i := VictimByPlace(LRU(times), candidates);
  }

  lemma LFURanks(freq: map<nat, nat>, i: nat, j: nat)
    ensures LFU(freq).RankOf(i).Below(LFU(freq).RankOf(j)) <==> CountOf(freq, i) < CountOf(freq, j)
  {
  }

  /** LFU takes the first unpinned candidate with the smallest count. */
  lemma LFUTakesLeastUsed(freq: map<nat, nat>, candidates: seq<Block>) returns (i: nat)
    requires exists b :: b in candidates && !b.pinned
    ensures i < |candidates| && !candidates[i].pinned && LFU(freq).PickVictim(candidates) == Some(candidates[i])
    ensures forall j :: 0 <= j < |candidates| && !candidates[j].pinned ==>
              CountOf(freq, candidates[i].id) <= CountOf(freq, candidates[j].id)
    ensures forall j :: 0 <= j < i && !candidates[j].pinned ==>
              CountOf(freq, candidates[i].id) < CountOf(freq, candidates[j].id)
  {
    i := VictimByPlace(LFU(freq), candidates);
  }

  /** The use of `a` comes later than that of `b`; never is latest. */
  ghost predicate UsedLater(a: seq<real>, b: seq<real>) {
    b != [] && (a == [] || a[0] > b[0])
  }

  lemma BeladyRanks(future: map<nat, seq<real>>, i: nat, j: nat)
    ensures Belady(future).RankOf(i).Below(Belady(future).RankOf(j)) <==>
            UsedLater(FutureOf(future, i), FutureOf(future, j))
  {
  }

  /** Belady takes the first unpinned candidate that none is used later than: one that is never
      used again, if there is any. */
  lemma BeladyTakesFurthest(future: map<nat, seq<real>>, candidates: seq<Block>) returns (i: nat)
    requires exists b :: b in candidates && !b.pinned
    ensures i < |candidates| && !candidates[i].pinned && Belady(future).PickVictim(candidates) == Some(candidates[i])
    ensures forall j :: 0 <= j < |candidates| && !candidates[j].pinned ==>
              && !UsedLater(FutureOf(future, candidates[j].id), FutureOf(future, candidates[i].id))
              && (FutureOf(future, candidates[j].id) == [] ==> FutureOf(future, candidates[i].id) == [])
    ensures forall j :: 0 <= j < i && !candidates[j].pinned ==>
              UsedLater(FutureOf(future, candidates[i].id), FutureOf(future, candidates[j].id))
  {
    hide Policy.RankOf, Rank.Below, FutureOf, Policy.PickVictim;
    i := VictimByPlace(Belady(future), candidates);
    forall j | 0 <= j < |candidates| && !candidates[j].pinned
      ensures !UsedLater(FutureOf(future, candidates[j].id), FutureOf(future, candidates[i].id))
      ensures j < i ==> UsedLater(FutureOf(future, candidates[i].id), FutureOf(future, candidates[j].id))
    {
      BeladyRanks(future, candidates[j].id, candidates[i].id);
      BeladyRanks(future, candidates[i].id, candidates[j].id);
    }
  }

  function Views(bs: seq<KVBlock>): (r: seq<Block>)
    reads bs
    ensures |r| == |bs| && forall i :: 0 <= i < |bs| ==> r[i] == bs[i].View()
  {
    seq(|bs|, i requires 0 <= i < |bs| reads bs => bs[i].View())
  }

  /** A policy object: its dictionaries, and the clock that LRU reads. */
  class EvictionPolicy {
    var state: Policy
    const clock: Clock

    constructor (state: Policy, clock: Clock)
      ensures this.state == state && this.clock == clock
    {
      this.state, this.clock := state, clock;
    }

    /** LRU alone writes the reading into the block as well. */
    method OnAccess(b: KVBlock)
      modifies this`state, clock`tick, b`lastAccessed
      ensures old(state).LRU? ==>
                && clock.tick == old(clock.tick) + 1
                && b.lastAccessed == clock.read(old(clock.tick))
                && state == old(state).OnAccess(b.id, b.lastAccessed)
      ensures !old(state).LRU? ==>
                && clock.tick == old(clock.tick)
                && b.lastAccessed == old(b.lastAccessed)
                && state == old(state).OnAccess(b.id, 0.0)
    {
      if state.LRU? {
        var now := clock.Now();
        state := state.OnAccess(b.id, now);
        b.lastAccessed := state.times[b.id];
      } else {
        state := state.OnAccess(b.id, 0.0);
      }
    }

    method OnAllocate(b: KVBlock)
      modifies this`state, clock`tick
      ensures clock.tick == old(clock.tick) + (if old(state).LRU? then 1 else 0)
      ensures state == old(state).OnAllocate(b.id, clock.read(old(clock.tick)))
    {
      if state.LRU? {
        var now := clock.Now();
        state := state.OnAllocate(b.id, now);
      } else {
        state := state.OnAllocate(b.id, clock.read(clock.tick));
      }
    }

    method OnFree(b: KVBlock)
      modifies this`state
      ensures state == old(state).OnFree(b.id)
    {
      state := state.OnFree(b.id);
    }

    /** The loops of pick_victim find the first least-ranked evictable candidate. */
    method PickVictim(candidates: seq<KVBlock>) returns (victim: Option<KVBlock>)
      ensures match victim
              case None => state.PickVictim(Views(candidates)) == None
              case Some(b) => b in candidates && state.PickVictim(Views(candidates)) == Some(b.View())
    {
      hide Policy.RankOf, Rank.Below;
      var evictable: seq<KVBlock> := [];
      for i := 0 to |candidates|
        invariant Views(evictable) == Unpinned(Views(candidates)[..i])
        invariant forall b :: b in evictable ==> b in candidates
      {
        assert Views(candidates)[..i + 1] == Views(candidates)[..i] + [candidates[i].View()];
        if !candidates[i].pinned {
          assert Views(evictable + [candidates[i]]) == Views(evictable) + [candidates[i].View()];
          evictable := evictable + [candidates[i]];
        }
      }
      assert Views(candidates)[..|candidates|] == Views(candidates);
      if evictable == [] {
        return None;
      }
      if state.Plugged? {
        var k := state.choose(state.log, Views(evictable)) % |evictable|;
        return Some(evictable[k]);
      }
      var best := evictable[0];
      for i := 1 to |evictable|
        invariant best in candidates
        invariant best.View() == state.FirstLeast(Views(evictable)[..i])
      {
        var seen := Views(evictable)[..i + 1];
        assert seen[..i] == Views(evictable)[..i];
        assert evictable[i] in evictable;
        if state.RankOf(evictable[i].id).Below(state.RankOf(best.id)) {
          best := evictable[i];
        }
      }
      assert Views(evictable)[..|evictable|] == Views(evictable);
      return Some(best);
    }
  }
}
