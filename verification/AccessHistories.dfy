/** What LFU and Belady record of a block, against the deeds that were done with it. */
module AccessHistories {
  import opened Models
  import opened EvictionPolicies
  import opened BlockPools

  /** What can happen to a block.  The policy is told of it (on_allocate) when the manager creates
      it, and by the simulator when it is filled; the manager's filling counts as an access. */
  datatype Deed = Announced | Filled | Used | Emptied

  function Repeated(d: Deed, n: nat): (h: seq<Deed>)
    ensures |h| == n
  {
    if n == 0 then [] else Repeated(d, n - 1) + [d]
  }

  function Occurrences(ids: seq<nat>, i: nat): nat {
    if ids == [] then 0 else Occurrences(ids[..|ids| - 1], i) + (if ids[|ids| - 1] == i then 1 else 0)
  }

  // -------------------------------------------------------- what is recorded

  /** The accesses since the block was last emptied or announced; `start` counts the earlier ones. */
  function Tally(start: nat, h: seq<Deed>): nat {
    if h == [] then start
    else
      match h[|h| - 1]
      case Announced => 0
      case Emptied => 0
      case Filled => Tally(start, h[..|h| - 1]) + 1
      case Used => Tally(start, h[..|h| - 1]) + 1
  }

  /** The known uses that are still to come: each access consumes one, an eviction all. */
  function Consume(start: seq<real>, h: seq<Deed>): seq<real> {
    if h == [] then start
    else
      var rest := Consume(start, h[..|h| - 1]);
      match h[|h| - 1]
      case Announced => rest
      case Emptied => []
      case Filled => if rest == [] then [] else rest[1..]
      case Used => if rest == [] then [] else rest[1..]
  }

  /** The policy records exactly the deeds. */
  ghost predicate Follows(p: Policy, q: Policy, i: nat, h: seq<Deed>) {
    && (p.LFU? ==> q.LFU? && CountOf(q.freq, i) == Tally(CountOf(p.freq, i), h))
    && (p.Belady? ==> q.Belady? && FutureOf(q.future, i) == Consume(FutureOf(p.future, i), h))
  }

  lemma {:induction false} TallyAppend(start: nat, g: seq<Deed>, h: seq<Deed>)
    ensures Tally(start, g + h) == Tally(Tally(start, g), h)
  {
    if h == [] {
      assert g + h == g;
    } else {
      TallyAppend(start, g, h[..|h| - 1]);
      assert (g + h)[..|g + h| - 1] == g + h[..|h| - 1];
    }
  }

  lemma {:induction false} ConsumeAppend(start: seq<real>, g: seq<Deed>, h: seq<Deed>)
    ensures Consume(start, g + h) == Consume(Consume(start, g), h)
  {
    if h == [] {
      assert g + h == g;
    } else {
      ConsumeAppend(start, g, h[..|h| - 1]);
      assert (g + h)[..|g + h| - 1] == g + h[..|h| - 1];
    }
  }

  lemma FollowsTrans(p: Policy, q: Policy, r: Policy, i: nat, g: seq<Deed>, h: seq<Deed>)
    requires Follows(p, q, i, g) && Follows(q, r, i, h)
    ensures Follows(p, r, i, g + h)
  {
    if p.LFU? {
      TallyAppend(CountOf(p.freq, i), g, h);
    }
    if p.Belady? {
      ConsumeAppend(FutureOf(p.future, i), g, h);
    }
  }

  lemma FollowsSelf(p: Policy, i: nat)
    ensures Follows(p, p, i, [])
  {
  }

  lemma AccessFollows(p: Policy, id: nat, now: real, i: nat, d: Deed)
    requires d.Used? || d.Filled?
    ensures Follows(p, p.OnAccess(id, now), i, if id == i then [d] else [])
  {
    assert [d][..0] == [];
  }

  lemma FreeFollows(p: Policy, id: nat, i: nat)
    ensures Follows(p, p.OnFree(id), i, if id == i then [Emptied] else [])
  {
    assert [Emptied][..0] == [];
  }

  lemma AnnounceFollows(p: Policy, id: nat, now: real, i: nat)
    ensures Follows(p, p.OnAllocate(id, now), i, if id == i then [Announced] else [])
  {
    assert [Announced][..0] == [];
  }

  lemma RepeatedSnoc(d: Deed, ids: seq<nat>, i: nat)
    requires ids != []
    ensures Repeated(d, Occurrences(ids, i)) == Repeated(d, Occurrences(ids[..|ids| - 1], i)) +
            (if ids[|ids| - 1] == i then [d] else [])
  {
  }

  lemma {:induction false} OccursOnce(ids: seq<nat>, i: nat)
    requires NoDup(ids)
    ensures Occurrences(ids, i) == if i in ids then 1 else 0
  {
    if ids != [] {
      OccursOnce(ids[..|ids| - 1], i);
      assert ids == ids[..|ids| - 1] + [ids[|ids| - 1]];
    }
  }

  lemma OnceFollows(p: Policy, q: Policy, d: Deed, ids: seq<nat>, i: nat)
    requires NoDup(ids) && Follows(p, q, i, Repeated(d, Occurrences(ids, i)))
    ensures Follows(p, q, i, if i in ids then [d] else [])
  {
    OccursOnce(ids, i);
    assert Repeated(d, 0) == [] && Repeated(d, 1) == [] + [d];
  }

  lemma {:induction false} OccursNever(ids: seq<nat>, i: nat)
    requires i !in ids
    ensures Occurrences(ids, i) == 0
  {
    if ids != [] {
      OccursNever(ids[..|ids| - 1], i);
    }
  }

  /** An eviction loop empties a block once or leaves it alone. */
  ghost function EmptiedBy(bs: seq<Block>, cs: seq<Block>, i: nat): seq<Deed> {
    if i < |bs| && bs[i].tokens > 0 && i < |cs| && cs[i].tokens == 0 then [Emptied] else []
  }

  // ---------------------------------------------------------- since last filled

  /** As Tally, but counting from the last time the block was filled. */
  function SinceFilled(start: nat, h: seq<Deed>): nat {
    if h == [] then start
    else
      match h[|h| - 1]
      case Announced => 0
      case Emptied => 0
      case Filled => 1
      case Used => SinceFilled(start, h[..|h| - 1]) + 1
  }

  lemma {:induction false} SinceFilledAppend(start: nat, g: seq<Deed>, h: seq<Deed>)
    ensures SinceFilled(start, g + h) == SinceFilled(SinceFilled(start, g), h)
  {
    if h == [] {
      assert g + h == g;
    } else {
      SinceFilledAppend(start, g, h[..|h| - 1]);
      assert (g + h)[..|g + h| - 1] == g + h[..|h| - 1];
    }
  }

  lemma {:induction false} UsedCounts(start: nat, n: nat)
    ensures Tally(start, Repeated(Used, n)) == start + n && SinceFilled(start, Repeated(Used, n)) == start + n
  {
    if n != 0 {
      UsedCounts(start, n - 1);
      assert Repeated(Used, n)[..n - 1] == Repeated(Used, n - 1);
    }
  }

  /** The accesses before the last filling that no eviction wiped out: frees of the empty block. */
  function Early(start: nat, h: seq<Deed>): nat {
    if h == [] then 0
    else
      match h[|h| - 1]
      case Announced => 0
      case Emptied => 0
      case Filled => Tally(start, h[..|h| - 1])
      case Used => Early(start, h[..|h| - 1])
  }

  lemma {:induction false} EarlyIsTheRest(start: nat, h: seq<Deed>)
    ensures Tally(start, h) == SinceFilled(start, h) + Early(start, h)
  {
    if h != [] {
      EarlyIsTheRest(start, h[..|h| - 1]);
    }
  }
}
