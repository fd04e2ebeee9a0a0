/** What the cache simulator evicts on a trace, in terms of the requests of that trace: which
    policy is passed in decides the hits it reports. */
module SimulatorVictims {
  import opened Models
  import opened AccessHistories
  import opened EvictionPolicies
  import opened BlockPools
  import opened ClockReadings
  import opened CacheSimulator

  /** The blocks a round fills. */
  function Taken(s: Sim, r: Request): seq<nat>
    requires Ready(s)
  {
    var (_, free) := Room(s, r);
    free[..Min(|free|, Needed(s, r))]
  }

  ghost predicate LiveAt(s: Sim, i: nat) {
    i < |s.blocks| && s.blocks[i].tokens > 0
  }

  /** A request uses the blocks that carry its prefix. */
  ghost predicate HitOn(s: Sim, r: Request, i: nat) {
    Truthy(r.prefixHash) && i in Carriers(s.blocks, r.prefixHash.value)
  }

  ghost function HitDeed(s: Sim, r: Request, i: nat): seq<Deed> {
    if HitOn(s, r, i) then [Used] else []
  }

  /** What one request does with block i: a hit uses the carriers, eviction empties, filling
      announces. */
  ghost function Deeds(s: Sim, r: Request, i: nat): seq<Deed>
    requires Ready(s)
  {
    HitDeed(s, r, i) +
    (if LiveAt(s, i) && (i in Taken(s, r) || !LiveAt(Round(s, r), i)) then [Emptied] else []) +
    (if i in Taken(s, r) then [Announced] else [])
  }

  /** What a whole trace does with it. */
  ghost function History(s: Sim, trace: seq<Request>, i: nat): seq<Deed>
    requires Ready(s)
  {
    if trace == [] then []
    else
      var n := |trace| - 1;
      History(s, trace[..n], i) + Deeds(CacheSimulator.Run(s, trace[..n]), trace[n], i)
  }

  // ------------------------------------------------------------ what a round records

  lemma {:induction false} TouchAllFollows(s: Sim, ids: seq<nat>, i: nat)
    requires Within(s.blocks, ids)
    ensures Follows(s.policy, TouchAll(s, ids).policy, i, Repeated(Used, Occurrences(ids, i)))
  {
    hide Follows;
    if ids == [] {
      FollowsSelf(s.policy, i);
    } else {
      var n := |ids| - 1;
      var before := TouchAll(s, ids[..n]);
      TouchAllFollows(s, ids[..n], i);
      TouchFollows(before, ids[n], i);
      RepeatedSnoc(Used, ids, i);
      FollowsTrans(s.policy, before.policy, TouchAll(s, ids).policy, i, Repeated(Used, Occurrences(ids[..n], i)),
                   if ids[n] == i then [Used] else []);
    }
  }

  lemma TouchFollows(s: Sim, j: nat, i: nat)
    requires j < |s.blocks|
    ensures Follows(s.policy, Touch(s, j).policy, i, if j == i then [Used] else [])
  {
    AccessFollows(s.policy, j, s.read(s.tick), i, Used);
    AccessFollows(s.policy, j, 0.0, i, Used);
  }

  lemma {:induction false} FillAllFollows(s: Sim, ids: seq<nat>, hash: Option<string>, i: nat)
    requires Within(s.blocks, ids)
    ensures Follows(s.policy, FillAll(s, ids, hash).policy, i, Repeated(Announced, Occurrences(ids, i)))
  {
    hide Follows;
    if ids == [] {
      FollowsSelf(s.policy, i);
    } else {
      var n := |ids| - 1;
      var before := FillAll(s, ids[..n], hash);
      FillAllFollows(s, ids[..n], hash, i);
      AnnounceFollows(before.policy, ids[n], before.read(before.tick), i);
      RepeatedSnoc(Announced, ids, i);
      FollowsTrans(s.policy, before.policy, FillAll(s, ids, hash).policy, i,
                   Repeated(Announced, Occurrences(ids[..n], i)), if ids[n] == i then [Announced] else []);
    }
  }

  lemma {:induction false} MakeRoomFollows(s: Sim, free: seq<nat>, needed: nat, i: nat)
    requires Numbered(s.blocks)
    ensures var t := MakeRoom(s, free, needed).0;
            && Follows(s.policy, t.policy, i, EmptiedBy(s.blocks, t.blocks, i))
            && (i < |s.blocks| && s.blocks[i].tokens == 0 ==> t.blocks[i].tokens == 0)
    decreases Ids(s.blocks, NODE, Candidate)
  {
    hide Follows;
    if |free| < needed && Victim(s).Some? {
      EvictMoves(s);
      VictimIsCandidate(s);
      var v := Victim(s).value;
      var e := Evict(s, v);
      MakeRoomFollows(e, free + [v.id], needed, i);
      var t := MakeRoom(s, free, needed).0;
      FreeFollows(s.policy, v.id, i);
      var first := if v.id == i then [Emptied] else [];
      FollowsTrans(s.policy, e.policy, t.policy, i, first, EmptiedBy(e.blocks, t.blocks, i));
      assert first + EmptiedBy(e.blocks, t.blocks, i) == EmptiedBy(s.blocks, t.blocks, i);
    } else {
      FollowsSelf(s.policy, i);
    }
  }

  lemma LookupFollows(s: Sim, r: Request, i: nat)
    requires Exact(s) && Within(s.blocks, Listed(s.index, r.prefixHash))
    ensures Follows(s.policy, Lookup(s, r).policy, i, HitDeed(s, r, i))
  {
    hide Follows, TouchAll;
    var ids := Listed(s.index, r.prefixHash);
    if Truthy(r.prefixHash) && r.prefixHash.value in s.index {
      TouchAllFollows(s, ids, i);
      OnceFollows(s.policy, TouchAll(s, ids).policy, Used, ids, i);
      assert i in ids <==> i in Elems(ids);
    } else {
      FollowsSelf(s.policy, i);
    }
  }

  /** The filling, and what it shows of the state after the eviction loop. */
  lemma RoundParts(s: Sim, r: Request)
    requires Exact(s) && s.blocks != []
    ensures var t, ids := Room(s, r).0, Taken(s, r);
            && Within(t.blocks, ids) && NoDup(ids)
            && (forall i :: i in ids ==> t.blocks[i].tokens == 0)
            && Round(s, r) == FillAll(t, ids, r.prefixHash).(index := Round(s, r).index)
            && CacheSimulator.Filled(t.blocks, Round(s, r).blocks, ids, t.blockSize, r.prefixHash) && t.blockSize > 0
  {
    hide IndexExact, FreeList, FillAll;
    RoomIsSafe(s, r);
    var (t, free) := Room(s, r);
    TakenAreVacant(t, free, Min(|free|, Needed(s, r)));
    FillAllSpec(t, Taken(s, r), r.prefixHash);
  }

  /** The dictionary after a round, against the one its eviction loop leaves: the filled blocks join
      the end of their prefix's list, in the order of the free list, and nothing else changes. */
  lemma RoundLists(s: Sim, r: Request)
    requires Exact(s) && s.blocks != []
    ensures var before, after := Room(s, r).0.index, Round(s, r).index;
            && (forall h :: h in before && r.prefixHash != Some(h) ==> h in after && after[h] == before[h])
            && (forall h :: h in after && r.prefixHash != Some(h) ==> h in before)
            && (Truthy(r.prefixHash) ==>
                  var h := r.prefixHash.value;
                  h in after && after[h] == (if h in before then before[h] else []) + Taken(s, r))
            && (!Truthy(r.prefixHash) ==> after == before)
  {
    hide MakeRoom, Lookup, Free, Needed;
    RoomIsSafe(s, r);
    RoundParts(s, r);
    FillAllSpec(Room(s, r).0, Taken(s, r), r.prefixHash);
  }

  lemma RoundFollows(s: Sim, r: Request, i: nat)
    requires Exact(s) && s.blocks != []
    ensures Follows(s.policy, Round(s, r).policy, i, Deeds(s, r, i))
  {
    hide Exact, Follows, Taken, Round, FillAll, Lookup, MakeRoom, FreeList, Roomy, HitOn, Needed, Free;
    LookupFacts(s, r);
    var l, t, ids := Lookup(s, r), Room(s, r).0, Taken(s, r);
    LookupFollows(s, r, i);
    MakeRoomFollows(l, Free(l), Needed(s, r), i);
    RoundParts(s, r);
    FillAllFollows(t, ids, r.prefixHash, i);
    OnceFollows(t.policy, Round(s, r).policy, Announced, ids, i);
    LookupKeepsLive(s, r, i);
    var used, emptied, filled := HitDeed(s, r, i), EmptiedBy(l.blocks, t.blocks, i),
                                 if i in ids then [Announced] else [];
    FollowsTrans(s.policy, l.policy, t.policy, i, used, emptied);
    FollowsTrans(s.policy, t.policy, Round(s, r).policy, i, used + emptied, filled);
  }

  lemma LookupKeepsLive(s: Sim, r: Request, i: nat)
    requires Ready(s) && Within(s.blocks, Listed(s.index, r.prefixHash))
    ensures LiveAt(Lookup(s, r), i) <==> LiveAt(s, i)
  {
    TouchAllSpec(s, Listed(s.index, r.prefixHash));
  }

  /** After every trace LFU has counted, and Belady consumed, exactly what the requests did. */
  lemma {:induction false} RunFollows(s: Sim, trace: seq<Request>, i: nat)
    requires Exact(s) && s.blocks != []
    ensures Follows(s.policy, CacheSimulator.Run(s, trace).policy, i, History(s, trace, i))
  {
    hide Exact, Follows, Deeds, Round;
    if trace == [] {
      FollowsSelf(s.policy, i);
    } else {
      var n := |trace| - 1;
      var before := CacheSimulator.Run(s, trace[..n]);
      RunFollows(s, trace[..n], i);
      RunIsExact(s, trace[..n]);
      RoundFollows(before, trace[n], i);
      FollowsTrans(s.policy, before.policy, CacheSimulator.Run(s, trace).policy, i, History(s, trace[..n], i),
                   Deeds(before, trace[n], i));
    }
  }

  // ------------------------------------------------------------ what goes

  /** The blocks that a request evicts, and the ones it finds and leaves. */
  ghost function Gone(s: Sim, r: Request): set<nat>
    requires Ready(s)
  {
    set i: nat | i < |s.blocks| && LiveAt(s, i) && (i in Taken(s, r) || !LiveAt(Round(s, r), i))
  }

  ghost function Kept(s: Sim, r: Request): set<nat>
    requires Ready(s)
  {
    set i: nat | i < |s.blocks| && LiveAt(s, i) && i !in Taken(s, r) && LiveAt(Round(s, r), i)
  }

  /** None of `kept` would have gone before one of `gone`. */
  ghost predicate LeastOut(p: Policy, gone: set<nat>, kept: set<nat>) {
    p.Ranked() ==> forall v, w :: v in gone && w in kept ==> !p.RankOf(w).Below(p.RankOf(v))
  }

  lemma LeastOutMore(p: Policy, v: nat, gone: set<nat>, kept: set<nat>)
    requires LeastOut(p.OnFree(v), gone, kept) && v !in gone && v !in kept && LeastOut(p, {v}, kept)
    ensures LeastOut(p, {v} + gone, kept)
  {
    hide Rank.Below;
    forall x | x != v
      ensures p.OnFree(v).RankOf(x) == p.RankOf(x)
    {
    }
  }

  lemma VictimIsLeast(s: Sim)
    requires Numbered(s.blocks) && Victim(s).Some?
    ensures LeastOut(s.policy, {Victim(s).value.id}, Ids(s.blocks, NODE, Candidate))
  {
    hide Rank.Below, Policy.RankOf, Policy.PickVictim;
    var candidates := Select(s.blocks, NODE, Candidate);
    PickVictimContract(s.policy, candidates);
    SelectIds(s.blocks, NODE, Candidate);
    if s.policy.Ranked() {
      forall w | w in Ids(s.blocks, NODE, Candidate)
        ensures !s.policy.RankOf(w).Below(s.policy.RankOf(Victim(s).value.id))
      {
        assert s.blocks[w] in candidates && s.blocks[w].id == w;
      }
    }
  }

  lemma LeastOutFewer(p: Policy, gone: set<nat>, kept: set<nat>, fewer: set<nat>)
    requires LeastOut(p, gone, kept) && fewer <= kept
    ensures LeastOut(p, gone, fewer)
  {
  }

  /** The eviction loop gives up blocks of least rank, which join the end of the free list. */
  lemma {:induction false} MakeRoomLeast(s: Sim, free: seq<nat>, needed: nat)
    requires Numbered(s.blocks)
    ensures var before, after := Ids(s.blocks, NODE, Candidate),
                                 Ids(MakeRoom(s, free, needed).0.blocks, NODE, Candidate);
            && after <= before && LeastOut(s.policy, before - after, after)
            && free <= MakeRoom(s, free, needed).1
    decreases Ids(s.blocks, NODE, Candidate)
  {
    hide LeastOut, Ids;
    var before := Ids(s.blocks, NODE, Candidate);
    var after := Ids(MakeRoom(s, free, needed).0.blocks, NODE, Candidate);
    if |free| < needed && Victim(s).Some? {
      EvictMoves(s);
      VictimIsLeast(s);
      var v := Victim(s).value;
      var e := Evict(s, v);
      MakeRoomLeast(e, free + [v.id], needed);
      LeastOutFewer(s.policy, {v.id}, before, after);
      LeastOutMore(s.policy, v.id, before - {v.id} - after, after);
      assert before - after == {v.id} + (before - {v.id} - after);
    } else {
      assert before - after == {};
      NothingOut(s.policy, after);
    }
  }

  lemma NothingOut(p: Policy, kept: set<nat>)
    ensures LeastOut(p, {}, kept)
  {
  }

  /** Gone and Kept are what the eviction loop takes out of the live blocks and leaves of them. */
  lemma GoneIsEvicted(s: Sim, r: Request)
    requires Exact(s) && s.blocks != []
    ensures Within(s.blocks, Listed(s.index, r.prefixHash))
    ensures var before, after := Ids(Lookup(s, r).blocks, NODE, Candidate), Ids(Room(s, r).0.blocks, NODE, Candidate);
            && Gone(s, r) == before - after && Kept(s, r) == after * before
            && before == Ids(s.blocks, NODE, Live)
  {
    hide IndexExact, Carriers, FreeList, Roomy, Round, Taken, MakeRoom, Lookup, Free, Needed;
    LookupFacts(s, r);
    RoomIsSafe(s, r);
    RoundParts(s, r);
    ExactBasics(s);
    ExactBasics(Lookup(s, r));
    ExactBasics(Room(s, r).0);
    var l, t := Lookup(s, r), Room(s, r).0;
    forall i: nat | i < |s.blocks|
      ensures i in Gone(s, r) <==> i in Ids(l.blocks, NODE, Candidate) - Ids(t.blocks, NODE, Candidate)
      ensures i in Kept(s, r) <==> i in Ids(t.blocks, NODE, Candidate) * Ids(l.blocks, NODE, Candidate)
      ensures i in Ids(l.blocks, NODE, Candidate) <==> i in Ids(s.blocks, NODE, Live)
    {
      LookupKeepsLive(s, r, i);
      assert BlockOk(s.blocks[i], i, s.blockSize) && BlockOk(l.blocks[i], i, l.blockSize);
      assert BlockOk(t.blocks[i], i, t.blockSize);
    }
  }

  ghost function HitCount(s: Sim, r: Request, i: nat): nat {
    if HitOn(s, r, i) then 1 else 0
  }

  lemma HitTally(start: nat, s: Sim, r: Request, i: nat)
    ensures Tally(start, HitDeed(s, r, i)) == start + HitCount(s, r, i)
  {
    assert [Used][..0] == [];
  }

  lemma EvictedLeast(s: Sim, r: Request)
    requires Exact(s) && s.blocks != []
    ensures Within(s.blocks, Listed(s.index, r.prefixHash))
    ensures LeastOut(Lookup(s, r).policy, Gone(s, r), Kept(s, r))
  {
    hide Exact, Lookup, MakeRoom, Gone, Kept, LeastOut, Needed, Free, Ids;
    LookupFacts(s, r);
    var l := Lookup(s, r);
    GoneIsEvicted(s, r);
    MakeRoomLeast(l, Free(l), Needed(s, r));
    var before, after := Ids(l.blocks, NODE, Candidate), Ids(Room(s, r).0.blocks, NODE, Candidate);
    LeastOutFewer(l.policy, before - after, after, after * before);
  }

  /** What one request evicts: under LFU no block found and kept has a smaller count than one
      that goes, under LRU none an earlier time, under Belady none a later next use; all with the
      hit of this very request counted.  And as many go as the evictions counted. */
  lemma VictimsAreLeast(s: Sim, r: Request, v: nat, w: nat)
    requires Exact(s) && s.blocks != [] && v in Gone(s, r) && w in Kept(s, r)
    ensures s.policy.LFU? ==>
              CountOf(s.policy.freq, v) + HitCount(s, r, v) <= CountOf(s.policy.freq, w) + HitCount(s, r, w)
    ensures Within(s.blocks, Listed(s.index, r.prefixHash))
    ensures s.policy.LRU? ==>
              Lookup(s, r).policy.LRU? &&
                TimeOf(Lookup(s, r).policy.times, v) <= TimeOf(Lookup(s, r).policy.times, w)
    ensures s.policy.Belady? ==>
              !UsedLater(Consume(FutureOf(s.policy.future, w), HitDeed(s, r, w)),
                         Consume(FutureOf(s.policy.future, v), HitDeed(s, r, v)))
  {
    hide Exact, Gone, Kept, HitOn, Lookup;
    EvictedLeast(s, r);
    LookupFollows(s, r, v);
    LookupFollows(s, r, w);
    assert [Used][..0] == [];
    var l := Lookup(s, r);
    if s.policy.Belady? {
      BeladyRanks(l.policy.future, w, v);
    } else if s.policy.LRU? {
      LookupDates(s, r, v);
    } else if s.policy.LFU? {
      HitTally(CountOf(s.policy.freq, v), s, r, v);
      HitTally(CountOf(s.policy.freq, w), s, r, w);
      LFURanks(l.policy.freq, w, v);
    }
  }

  lemma GoneCount(s: Sim, r: Request)
    requires Exact(s) && s.blocks != []
    ensures Round(s, r).evictions == s.evictions + |Gone(s, r)|
  {
    hide IndexExact, Carriers, Round, Taken, MakeRoom, Lookup, Free, Needed, Residual, Gone, Kept;
    GoneIsEvicted(s, r);
    RoundSpec(s, r);
    ResidualIsNeeded(s, r);
    RoomIsSafe(s, r);
    LookupFacts(s, r);
    var l, t := Lookup(s, r), Room(s, r).0;
    ExactBasics(l);
    ExactBasics(t);
    NoDupCount(Room(s, r).1);
    var before, after := Ids(l.blocks, NODE, Candidate), Ids(t.blocks, NODE, Candidate);
    MakeRoomLeast(l, Free(l), Needed(s, r));
    assert |before - after| == |before| - |after|;
  }

  // ------------------------------------------------------------ whole traces

  /** The hits on a block since it was last filled, the one of the next request included. */
  ghost function Uses(s: Sim, trace: seq<Request>, r: Request, i: nat): nat
    requires Ready(s) && s.policy.LFU?
  {
    Tally(CountOf(s.policy.freq, i), History(s, trace, i)) + HitCount(CacheSimulator.Run(s, trace), r, i)
  }

  /** Over every trace the count of LFU is the number of hits on the block since it was last filled. */
  lemma LFUCountsHits(s: Sim, trace: seq<Request>, i: nat)
    requires Exact(s) && s.blocks != [] && s.policy.LFU?
    ensures var t := CacheSimulator.Run(s, trace);
            t.policy.LFU? && CountOf(t.policy.freq, i) == Tally(CountOf(s.policy.freq, i), History(s, trace, i))
  {
    hide Exact, History, Tally, CountOf;
    RunFollows(s, trace, i);
  }

  /** After every trace, no block that LFU keeps through a request was hit less often than one that
      the request evicts. */
  lemma LFUEvictsLeastHit(s: Sim, trace: seq<Request>, r: Request, v: nat, w: nat)
    requires Exact(s) && s.blocks != [] && s.policy.LFU?
    requires v in Gone(CacheSimulator.Run(s, trace), r) && w in Kept(CacheSimulator.Run(s, trace), r)
    ensures Uses(s, trace, r, v) <= Uses(s, trace, r, w)
  {
    hide Exact, History, Tally, CountOf, Gone, Kept, HitCount;
    LFUCountsHits(s, trace, v);
    LFUCountsHits(s, trace, w);
    RunIsExact(s, trace);
    VictimsAreLeast(CacheSimulator.Run(s, trace), r, v, w);
  }

  // ---------------------------------------------------------------- recency

  /** Under LRU the time of block i was read between the two moments, or is the old one. */
  ghost predicate DatedBy(s: Sim, t: Sim, i: nat, accessed: bool) {
    && s.policy.LRU? && t.policy.LRU? && t.read == s.read && s.tick <= t.tick
    && if accessed then ReadIn(s.read, s.tick, t.tick, TimeOf(t.policy.times, i))
       else TimeOf(t.policy.times, i) == TimeOf(s.policy.times, i)
  }

  lemma DatedTrans(s: Sim, t: Sim, u: Sim, i: nat, a: bool, b: bool)
    requires DatedBy(s, t, i, a) && DatedBy(t, u, i, b)
    ensures DatedBy(s, u, i, a || b)
  {
    if b {
      ReadWithin(s.read, t.tick, u.tick, s.tick, u.tick, TimeOf(u.policy.times, i));
    } else if a {
      ReadWithin(s.read, s.tick, t.tick, s.tick, u.tick, TimeOf(u.policy.times, i));
    }
  }

  lemma DatedNow(s: Sim, t: Sim, j: nat, i: nat)
    requires s.policy.LRU? && t.policy == LRU(s.policy.times[j := s.read(s.tick)])
    requires t.read == s.read && t.tick == s.tick + 1
    ensures DatedBy(s, t, i, j == i)
  {
    ReadAt(s.read, s.tick, s.tick, t.tick);
  }

  lemma {:induction false} TouchAllDates(s: Sim, ids: seq<nat>, i: nat)
    requires Within(s.blocks, ids) && s.policy.LRU?
    ensures DatedBy(s, TouchAll(s, ids), i, i in ids)
  {
    if ids != [] {
      var n := |ids| - 1;
      TouchAllDates(s, ids[..n], i);
      DatedNow(TouchAll(s, ids[..n]), TouchAll(s, ids), ids[n], i);
      DatedTrans(s, TouchAll(s, ids[..n]), TouchAll(s, ids), i, i in ids[..n], ids[n] == i);
      assert ids == ids[..n] + [ids[n]];
    }
  }

  lemma {:induction false} FillAllDates(s: Sim, ids: seq<nat>, hash: Option<string>, i: nat)
    requires Within(s.blocks, ids) && s.policy.LRU?
    ensures DatedBy(s, FillAll(s, ids, hash), i, i in ids)
  {
    if ids != [] {
      var n := |ids| - 1;
      FillAllDates(s, ids[..n], hash, i);
      DatedNow(FillAll(s, ids[..n], hash), FillAll(s, ids, hash), ids[n], i);
      DatedTrans(s, FillAll(s, ids[..n], hash), FillAll(s, ids, hash), i, i in ids[..n], ids[n] == i);
      assert ids == ids[..n] + [ids[n]];
    }
  }

  lemma {:induction false} MakeRoomDates(s: Sim, free: seq<nat>, needed: nat, i: nat)
    requires Numbered(s.blocks) && s.policy.LRU?
    ensures var t := MakeRoom(s, free, needed).0;
            && t.policy.LRU? && t.read == s.read && t.tick == s.tick
            && (i < |s.blocks| && s.blocks[i].tokens == 0 ==> t.blocks[i].tokens == 0)
            && (i < |s.blocks| && t.blocks[i].tokens > 0 ==> DatedBy(s, t, i, false))
    decreases Ids(s.blocks, NODE, Candidate)
  {
    if |free| < needed && Victim(s).Some? {
      EvictMoves(s);
      VictimIsCandidate(s);
      MakeRoomDates(Evict(s, Victim(s).value), free + [Victim(s).value.id], needed, i);
    }
  }

  lemma LookupDates(s: Sim, r: Request, i: nat)
    requires Exact(s) && Within(s.blocks, Listed(s.index, r.prefixHash)) && s.policy.LRU?
    ensures DatedBy(s, Lookup(s, r), i, HitOn(s, r, i))
  {
    var ids := Listed(s.index, r.prefixHash);
    if Truthy(r.prefixHash) && r.prefixHash.value in s.index {
      TouchAllDates(s, ids, i);
      assert i in ids <==> i in Elems(ids);
    }
  }

  /** One request stamps the blocks it hits and the ones it fills, and no other. */
  lemma RoundDates(s: Sim, r: Request, i: nat)
    requires Exact(s) && s.blocks != [] && s.policy.LRU? && i < |s.blocks|
    ensures var t := Round(s, r);
            && t.policy.LRU? && t.read == s.read && s.tick <= t.tick
            && (LiveAt(t, i) ==>
                  && (LiveAt(s, i) || i in Taken(s, r))
                  && DatedBy(s, t, i, HitOn(s, r, i) || i in Taken(s, r)))
  {
    hide Exact, Taken, FillAll, Lookup, MakeRoom, FreeList, Roomy, HitOn, Needed, Free, ReadIn;
    LookupFacts(s, r);
    var l, t, ids := Lookup(s, r), Room(s, r).0, Taken(s, r);
    LookupDates(s, r, i);
    LookupKeepsLive(s, r, i);
    MakeRoomDates(l, Free(l), Needed(s, r), i);
    RoundParts(s, r);
    FillAllDates(t, ids, r.prefixHash, i);
    var f := FillAll(t, ids, r.prefixHash);
    if i in ids {
      ReadWithin(s.read, t.tick, f.tick, s.tick, f.tick, TimeOf(f.policy.times, i));
    } else if LiveAt(f, i) {
      DatedTrans(s, l, t, i, HitOn(s, r, i), false);
      DatedTrans(s, t, f, i, HitOn(s, r, i), false);
    }
  }

  ghost predicate Accesses(s: Sim, r: Request, i: nat)
    requires Ready(s)
  {
    HitOn(s, r, i) || i in Taken(s, r)
  }

  /** The number of the last request of a trace that hits or fills the block, or -1. */
  ghost function LastAccess(s: Sim, trace: seq<Request>, i: nat): (k: int)
    requires Ready(s)
    ensures -1 <= k < |trace|
  {
    if trace == [] then -1
    else
      var n := |trace| - 1;
      if Accesses(CacheSimulator.Run(s, trace[..n]), trace[n], i) then n else LastAccess(s, trace[..n], i)
  }

  /** Where the time of a live block comes from. */
  ghost predicate DateOf(s: Sim, trace: seq<Request>, i: nat)
    requires Ready(s) && s.policy.LRU?
  {
    var k, t := LastAccess(s, trace, i), CacheSimulator.Run(s, trace);
    && t.policy.LRU?
    && (LiveAt(t, i) ==>
          if k == -1 then LiveAt(s, i) && TimeOf(t.policy.times, i) == TimeOf(s.policy.times, i)
          else ReadIn(s.read, CacheSimulator.Run(s, trace[..k]).tick, CacheSimulator.Run(s, trace[..k + 1]).tick,
                      TimeOf(t.policy.times, i)))
  }

  lemma {:induction false} RunTicks(s: Sim, trace: seq<Request>, k: nat)
    requires Exact(s) && s.blocks != [] && s.policy.LRU? && k <= |trace|
    ensures var t := CacheSimulator.Run(s, trace);
            && t.policy.LRU? && t.read == s.read && s.tick <= CacheSimulator.Run(s, trace[..k]).tick <= t.tick
  {
    hide Exact, Round, DatedBy, LiveAt;
    if k == |trace| {
      assert trace[..k] == trace;
      if trace != [] {
        RunTicks(s, trace[..k - 1], k - 1);
        RunIsExact(s, trace[..k - 1]);
        RoundDates(CacheSimulator.Run(s, trace[..k - 1]), trace[k - 1], 0);
      }
    } else {
      var n := |trace| - 1;
      assert trace[..n][..k] == trace[..k];
      RunTicks(s, trace[..n], k);
      RunIsExact(s, trace[..n]);
      RoundDates(CacheSimulator.Run(s, trace[..n]), trace[n], 0);
    }
  }

  /** After every trace a live block carries a time read in the last request that hit or filled it. */
  lemma {:induction false} RunDates(s: Sim, trace: seq<Request>, i: nat)
    requires Exact(s) && s.blocks != [] && s.policy.LRU? && i < |s.blocks|
    ensures DateOf(s, trace, i)
  {
    hide Exact, Round, ReadIn, Accesses, Taken, HitOn, LiveAt;
    if trace != [] {
      var n := |trace| - 1;
      var before := CacheSimulator.Run(s, trace[..n]);
      RunDates(s, trace[..n], i);
      RunTicks(s, trace[..n], n);
      RunIsExact(s, trace[..n]);
      RoundDated(before, trace[n], i);
      assert trace[..n + 1] == trace;
      if !Accesses(before, trace[n], i) {
        var k := LastAccess(s, trace[..n], i);
        if k != -1 {
          assert trace[..n][..k] == trace[..k] && trace[..n][..k + 1] == trace[..k + 1];
        }
      }
    }
  }

  lemma RoundDated(s: Sim, r: Request, i: nat)
    requires Exact(s) && s.blocks != [] && s.policy.LRU? && i < |s.blocks|
    ensures var t := Round(s, r);
            && t.policy.LRU? && t.read == s.read && s.tick <= t.tick
            && (LiveAt(t, i) ==> (LiveAt(s, i) || Accesses(s, r, i)) && DatedBy(s, t, i, Accesses(s, r, i)))
  {
    hide Exact, Round, ReadIn, Taken, HitOn, LiveAt;
    RoundDates(s, r, i);
  }

  /** The times a trace starts with lie in the past. */
  ghost predicate PastTimes(s: Sim)
    requires s.policy.LRU?
  {
    forall i: nat :: LiveAt(s, i) ==> ReadIn(s.read, 0, s.tick, TimeOf(s.policy.times, i))
  }

  /** As LastAccess, with the hit of the next request included. */
  ghost function Recency(s: Sim, trace: seq<Request>, r: Request, i: nat): int
    requires Ready(s)
  {
    if HitOn(CacheSimulator.Run(s, trace), r, i) then |trace| else LastAccess(s, trace, i)
  }

  lemma PastDate(s: Sim, trace: seq<Request>, i: nat)
    requires Exact(s) && s.blocks != [] && s.policy.LRU? && PastTimes(s) && i < |s.blocks|
    requires LiveAt(CacheSimulator.Run(s, trace), i)
    ensures var t := CacheSimulator.Run(s, trace);
            t.policy.LRU? && ReadIn(s.read, 0, t.tick, TimeOf(t.policy.times, i))
  {
    hide Exact, ReadIn, LiveAt;
    RunDates(s, trace, i);
    var k, t := LastAccess(s, trace, i), CacheSimulator.Run(s, trace);
    RunTicks(s, trace, k + 1);
    if k == -1 {
      ReadWithin(s.read, 0, s.tick, 0, t.tick, TimeOf(t.policy.times, i));
    } else {
      ReadWithin(s.read, CacheSimulator.Run(s, trace[..k]).tick, CacheSimulator.Run(s, trace[..k + 1]).tick,
                 0, t.tick, TimeOf(t.policy.times, i));
    }
  }

  lemma LaterAccessLaterDate(s: Sim, trace: seq<Request>, v: nat, w: nat)
    requires Exact(s) && s.blocks != [] && s.policy.LRU? && PastTimes(s) && Increasing(s.read)
    requires v < |s.blocks| && w < |s.blocks|
    requires LiveAt(CacheSimulator.Run(s, trace), v) && LiveAt(CacheSimulator.Run(s, trace), w)
    requires LastAccess(s, trace, w) < LastAccess(s, trace, v)
    ensures var t := CacheSimulator.Run(s, trace);
            t.policy.LRU? && TimeOf(t.policy.times, w) < TimeOf(t.policy.times, v)
  {
    hide Exact, ReadIn, Increasing, LastAccess, CacheSimulator.Run, LiveAt;
    var t := CacheSimulator.Run(s, trace);
    var k, m := LastAccess(s, trace, v), LastAccess(s, trace, w);
    RunDates(s, trace, v);
    RunDates(s, trace, w);
    RunTicks(s, trace, k);
    var lo, hi := CacheSimulator.Run(s, trace[..k]).tick, CacheSimulator.Run(s, trace[..k + 1]).tick;
    if m == -1 {
      EarlierReads(s.read, 0, s.tick, TimeOf(t.policy.times, w), lo, hi, TimeOf(t.policy.times, v));
    } else {
      assert trace[..k][..m + 1] == trace[..m + 1];
      RunTicks(s, trace[..k], m + 1);
      EarlierReads(s.read, CacheSimulator.Run(s, trace[..m]).tick, CacheSimulator.Run(s, trace[..m + 1]).tick,
                   TimeOf(t.policy.times, w), lo, hi, TimeOf(t.policy.times, v));
    }
  }

  /** On a clock that moves on with every reading: after every trace, the last hit on a block that
      LRU evicts, or its filling, comes no later than that of a block it keeps. */
  lemma LRUEvictsLeastRecent(s: Sim, trace: seq<Request>, r: Request, v: nat, w: nat)
    requires Exact(s) && s.blocks != [] && s.policy.LRU? && PastTimes(s) && Increasing(s.read)
    requires v in Gone(CacheSimulator.Run(s, trace), r) && w in Kept(CacheSimulator.Run(s, trace), r)
    ensures Recency(s, trace, r, v) <= Recency(s, trace, r, w)
  {
    hide Exact, ReadIn, Increasing, LastAccess, CacheSimulator.Run, Lookup, HitOn, Taken, Round, PastTimes, LiveAt;
    var t := CacheSimulator.Run(s, trace);
    RunTicks(s, trace, 0);
    RunIsExact(s, trace);
    VictimsAreLeast(t, r, v, w);
    LookupDates(t, r, v);
    LookupDates(t, r, w);
    if Recency(s, trace, r, w) < Recency(s, trace, r, v) {
      if HitOn(t, r, v) {
        PastDate(s, trace, w);
        var l := Lookup(t, r);
        EarlierReads(s.read, 0, t.tick, TimeOf(l.policy.times, w), t.tick, l.tick, TimeOf(l.policy.times, v));
      } else {
        LaterAccessLaterDate(s, trace, v, w);
      }
    }
  }
}
