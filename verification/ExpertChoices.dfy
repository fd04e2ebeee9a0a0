/** Which experts the MoE router chooses, and what it says of them, in terms of its counters
    and of the nodes of the groups. */
module ExpertChoices {
  import opened Models
  import opened AdmissionDecisions
  import opened MoERouting

  // ------------------------------------------------------------------ a group

  ghost function FreeBlocks(group: seq<Node>): nat {
    if group == [] then 0
    else FreeBlocks(group[1..])
         + (if group[0].kvUsed >= group[0].kvTotal then 0 else group[0].kvTotal - group[0].kvUsed)
  }

  ghost function PoolBlocks(group: seq<Node>): nat {
    if group == [] then 0 else group[0].kvTotal + PoolBlocks(group[1..])
  }

  ghost function Bandwidth(group: seq<Node>): real {
    if group == [] then 0.0 else group[0].bandwidth + Bandwidth(group[1..])
  }

  /** The free share of the group's blocks. */
  ghost function FreeShare(group: seq<Node>): real {
    if PoolBlocks(group) == 0 then 0.0 else FreeBlocks(group) as real / PoolBlocks(group) as real
  }

  /** The mean pressure of the group; a group without nodes counts as full. */
  ghost function MeanUsed(group: seq<Node>): real
    requires Sized(group)
  {
    if group == [] then 1.0 else MeanMemory(group)
  }

  ghost function LinkBonus(group: seq<Node>, r: Request): real {
    if (forall k :: 0 <= k < |group| ==> group[k].nvlink) && r.promptTokens > 8192 then 1.0 else 0.0
  }

  lemma {:induction false} SumsLast(group: seq<Node>, n: Node)
    ensures FreeBlocks(group + [n]) == FreeBlocks(group) + n.KvFree()
    ensures PoolBlocks(group + [n]) == PoolBlocks(group) + n.kvTotal
    ensures Bandwidth(group + [n]) == Bandwidth(group) + n.bandwidth
  {
    if group == [] {
      assert (group + [n])[1..] == [];
    } else {
      SumsLast(group[1..], n);
      assert (group + [n])[1..] == group[1..] + [n];
    }
  }

  lemma {:induction false} SumsAgree(group: seq<Node>)
    ensures KvFreeSum(group) == FreeBlocks(group) <= PoolBlocks(group) == KvTotalSum(group)
    ensures PeakBandwidth(group) == Bandwidth(group)
  {
    if group != [] {
      var n := |group| - 1;
      SumsAgree(group[..n]);
      SumsLast(group[..n], group[n]);
      assert group == group[..n] + [group[n]];
    }
  }

  lemma StandingIs(group: seq<Node>, r: Request)
    requires Sized(group)
    ensures Standing(group, r) ==
            0.35 * FreeShare(group) + 0.15 * (1.0 - MeanUsed(group)) + 0.1 * LinkBonus(group, r)
  {
    SumsAgree(group);
    PressureIsMean(group);
    hide KvFreeSum, KvTotalSum, TotalPressure, MemoryInUse;
  }

  // ------------------------------------------------------------- the selection

  /** What `fewer` tokens less than another are worth to an expert. */
  ghost function TokenEdge(experts: nat, fewer: int, total: nat): real {
    0.40 * experts as real * fewer as real / (total + 1) as real
  }

  /** By how much expert i is preferred to expert j: 0.4 experts / (total + 1) for each token
      that i has fewer, 0.35 for the free share, 0.15 for the pressure, 0.1 for NVLink. */
  ghost function Edge(counts: seq<nat>, groups: Groups, r: Request, i: nat, j: nat): real
    requires i < |counts| && j < |counts| && i in groups && j in groups && SaneGroups(groups)
  {
    TokenEdge(|counts|, counts[j] as int - counts[i] as int, Total(counts))
    + 0.35 * (FreeShare(groups[i]) - FreeShare(groups[j]))
    + 0.15 * (MeanUsed(groups[j]) - MeanUsed(groups[i]))
    + 0.1 * (LinkBonus(groups[i], r) - LinkBonus(groups[j], r))
  }

  lemma LoadDifference(a: nat, b: nat, total: nat, experts: nat)
    ensures 0.40 * LoadScore(a, total, experts) - 0.40 * LoadScore(b, total, experts)
            == TokenEdge(experts, b as int - a as int, total)
  {
    var t, e := (total + 1) as real, experts as real;
    var x, y := a as real / t, b as real / t;
    assert x * t == a as real && y * t == b as real;
    var z := 0.40 * (e * (y - x));
    assert z * t == 0.40 * e * (b as real - a as real);
    Quotient(z, 0.40 * e * (b as int - a as int) as real, t);
  }

  lemma Quotient(z: real, p: real, t: real)
    requires t > 0.0 && z * t == p
    ensures z == p / t
  {
  }

  lemma ScoreEdge(counts: seq<nat>, groups: Groups, r: Request, i: nat, j: nat)
    requires i < |counts| && j < |counts| && i in groups && j in groups && SaneGroups(groups)
    ensures Score(counts, groups, r, i) - Score(counts, groups, r, j) == Edge(counts, groups, r, i, j)
  {
    hide LoadScore, Standing, FreeShare, MeanUsed, LinkBonus, Total, TokenEdge;
    LoadDifference(counts[i], counts[j], Total(counts), |counts|);
    StandingIs(groups[i], r);
    StandingIs(groups[j], r);
  }

  /** Route never selects an expert over one that is preferred to it, or that is as good and
      has the lower id. */
  lemma SelectedByEdge(s: Router, groups: Groups, r: Request, i: nat, j: nat)
    requires SaneGroups(groups) && i < |s.counts| && j < |s.counts| && i in groups && j in groups
    ensures var d := RouteStep(s, groups, r).1;
            d.Some? && j in d.value.selected &&
            (Edge(s.counts, groups, r, i, j) > 0.0 || (Edge(s.counts, groups, r, i, j) == 0.0 && i < j)) ==>
              i in d.value.selected
  {
    RouteSpec(s, groups, r);
    ScoreEdge(s.counts, groups, r, i, j);
    hide RouteStep, Edge, Score, Times, Total, Added;
  }

  /** So with no more tokens, no smaller free share, no more pressure and no worse link, and
      strictly better in one of these or the lower id, i is selected whenever j is. */
  lemma BetterExpertGoesFirst(s: Router, groups: Groups, r: Request, i: nat, j: nat)
    requires SaneGroups(groups) && i < |s.counts| && j < |s.counts| && i in groups && j in groups
    requires s.counts[i] <= s.counts[j] && FreeShare(groups[i]) >= FreeShare(groups[j])
    requires MeanUsed(groups[i]) <= MeanUsed(groups[j]) && LinkBonus(groups[i], r) >= LinkBonus(groups[j], r)
    requires s.counts[i] < s.counts[j] || FreeShare(groups[i]) > FreeShare(groups[j]) ||
             MeanUsed(groups[i]) < MeanUsed(groups[j]) || LinkBonus(groups[i], r) > LinkBonus(groups[j], r) || i < j
    ensures var d := RouteStep(s, groups, r).1;
            d.Some? && j in d.value.selected ==> i in d.value.selected
  {
    hide FreeShare, MeanUsed, LinkBonus, RouteStep, Total, TokenEdge;
    TokensCount(|s.counts|, s.counts[j] - s.counts[i], Total(s.counts));
    SelectedByEdge(s, groups, r, i, j);
  }

  lemma TokensCount(experts: nat, fewer: nat, total: nat)
    requires experts > 0
    ensures TokenEdge(experts, fewer, total) >= 0.0 && (fewer > 0 ==> TokenEdge(experts, fewer, total) > 0.0)
  {
    var p := 0.40 * experts as real * fewer as real;
    assert fewer > 0 ==> p > 0.0;
    var x := p / (total + 1) as real;
    assert x * (total + 1) as real == p;
  }

  // -------------------------------------------------- what the decision says

  /** The least bandwidth of the hosted groups. */
  ghost predicate IsSlowest(groups: Groups, hosted: seq<nat>, b: real)
    requires AllHosted(groups, hosted)
  {
    && (exists k :: 0 <= k < |hosted| && Bandwidth(groups[hosted[k]]) == b)
    && (forall k :: 0 <= k < |hosted| ==> Bandwidth(groups[hosted[k]]) >= b)
  }

  lemma {:induction false} SlowestIs(groups: Groups, hosted: seq<nat>)
    requires hosted != [] && AllHosted(groups, hosted)
    ensures IsSlowest(groups, hosted, MinBandwidth(groups, hosted))
  {
    var n := |hosted| - 1;
    SumsAgree(groups[hosted[n]]);
    hide Bandwidth, PeakBandwidth;
    if n > 0 {
      SlowestIs(groups, hosted[..n]);
      assert forall k :: 0 <= k < n ==> hosted[..n][k] == hosted[k];
      var k :| 0 <= k < n && Bandwidth(groups[hosted[..n][k]]) == MinBandwidth(groups, hosted[..n]);
      assert Bandwidth(groups[hosted[k]]) == MinBandwidth(groups, hosted[..n]);
    }
  }

  lemma {:induction false} HostedIs(groups: Groups, selected: seq<nat>)
    ensures forall e :: e in Hosted(groups, selected) <==> e in selected && e in groups
  {
    if selected != [] {
      var n := |selected| - 1;
      HostedIs(groups, selected[..n]);
      assert selected == selected[..n] + [selected[n]];
    }
  }

  /** All nodes of all these groups are linked by NVLink. */
  ghost predicate AllLinked(groups: Groups, hosted: seq<nat>)
    requires AllHosted(groups, hosted)
  {
    forall i, k :: 0 <= i < |hosted| && 0 <= k < |groups[hosted[i]]| ==> groups[hosted[i]][k].nvlink
  }

  /** The milliseconds to scatter and gather the tokens of every selected expert over all
      layers, 8192 bytes each, at a bandwidth given in GB/s. */
  ghost predicate IsOverhead(ms: real, tokens: nat, layers: nat, bandwidth: real) {
    var bytes := 2.0 * (tokens * 8192 * layers) as real;
    && ms >= 0.1
    && (ms > 0.1 ==> ms * (bandwidth * 1000000.0) == bytes)
    && (ms == 0.1 && bandwidth > 0.0 ==> bytes <= 0.1 * (bandwidth * 1000000.0))
  }

  lemma OverheadIs(s: Router, groups: Groups, hosted: seq<nat>, r: Request)
    requires AllHosted(groups, hosted) && hosted != [] && EffectiveBandwidth(groups, hosted) != 0.0
    ensures exists b :: IsSlowest(groups, hosted, b) &&
              IsOverhead(OverheadMs(s, groups, hosted, r), r.promptTokens * s.topK, s.layers,
                         if AllLinked(groups, hosted) then b else 0.25 * b)
  {
    SlowestIs(groups, hosted);
    var b, e := MinBandwidth(groups, hosted), EffectiveBandwidth(groups, hosted);
    assert AllLinked(groups, hosted) <==> forall k :: 0 <= k < |hosted| ==> NvlinkCapable(groups[hosted[k]]);
    assert e == if AllLinked(groups, hosted) then b else 0.25 * b;
    SameBytes(r.promptTokens, s.topK, s.layers);
    OverheadOf((r.promptTokens * s.topK * 8192 * s.layers) as real, e);
    hide MinBandwidth, EffectiveBandwidth, IsSlowest, AllLinked;
    assert IsOverhead(OverheadMs(s, groups, hosted, r), r.promptTokens * s.topK, s.layers, e);
  }

  lemma SameBytes(tokens: nat, k: nat, layers: nat)
    ensures tokens * k * 8192 * layers == (tokens * k) * 8192 * layers
  {
  }

  lemma OverheadOf(bytes: real, e: real)
    requires e != 0.0
    ensures var x := bytes / (e * 1000000000.0) * 1000.0 * 2.0;
            && x * (e * 1000000.0) == 2.0 * bytes
            && (e > 0.0 ==> (x <= 0.1 <==> 2.0 * bytes <= 0.1 * (e * 1000000.0)))
  {
    var q := bytes / (e * 1000000000.0);
    assert q * (e * 1000000000.0) == bytes;
    var x := q * 1000.0 * 2.0;
    assert x * (e * 1000000.0) == 2.0 * bytes;
    if e > 0.0 {
      Ordered(x, 0.1, e * 1000000.0);
      Ordered(0.1, x, e * 1000000.0);
    }
  }

  lemma Ordered(a: real, b: real, m: real)
    requires m > 0.0
    ensures a < b ==> a * m < b * m
  {
    if a < b {
      assert (b - a) * m > 0.0;
    }
  }

  /** The share of each hosted expert: the blocks by top_k, rounded down, but at least one. */
  ghost predicate IsShare(share: nat, blocks: nat, topK: nat) {
    share >= 1 && (share == 1 || share * topK <= blocks) && blocks < (share + 1) * topK
  }

  lemma ShareIs(blocks: nat, topK: nat)
    requires topK > 0 && blocks >= 1
    ensures IsShare(Max(1, blocks / topK), blocks, topK)
  {
    var q := blocks / topK;
    assert q * topK <= blocks < (q + 1) * topK;
  }

  /** A plan for exactly these experts. */
  ghost predicate PlansFor(plan: map<nat, nat>, hosted: seq<nat>, blocks: nat, topK: nat) {
    && (forall e :: e in plan <==> e in hosted)
    && (forall e :: e in plan ==> IsShare(plan[e], blocks, topK))
  }

  /** The overhead over the slowest group, or none without groups. */
  ghost predicate OverheadFor(ms: real, groups: Groups, hosted: seq<nat>, tokens: nat, layers: nat)
    requires AllHosted(groups, hosted)
  {
    if hosted == [] then ms == 0.0
    else
      exists b :: IsSlowest(groups, hosted, b) &&
        IsOverhead(ms, tokens, layers, if AllLinked(groups, hosted) then b else 0.25 * b)
  }

  /** (largest + 1) / (total + 1), moved and stretched so that an even share gives 0 and all
      gives 1. */
  ghost predicate IsImbalance(x: real, counts: seq<nat>, largest: nat) {
    var (n, t) := (|counts| as real, (Total(counts) + 1) as real);
    && largest in counts && (forall i :: 0 <= i < |counts| ==> counts[i] <= largest)
    && x * ((n - 1.0) * t) == n * (largest + 1) as real - t
  }

  /** What a decision says besides the selection: a plan for exactly the selected experts that
      have a group, the overhead over the slowest of them, and the imbalance before the call. */
  lemma DecisionSays(s: Router, groups: Groups, r: Request)
    requires SaneGroups(groups) && RouteStep(s, groups, r).1.Some?
    ensures var d := RouteStep(s, groups, r).1.value;
            var hosted := Hosted(groups, d.selected);
            && (forall e :: e in hosted <==> e in d.selected && e in groups)
            && PlansFor(d.plan, hosted, r.KvBlocksNeeded(), s.topK)
            && OverheadFor(d.overheadMs, groups, hosted, r.promptTokens * s.topK, s.layers)
            && exists m :: IsImbalance(d.imbalance, s.counts, m)
  {
    hide Selected, Hosted, OverheadMs, Imbalance, AddTokens, IsSlowest, IsOverhead, EffectiveBandwidth, IsShare,
         IsImbalance, MinBandwidth, AllLinked;
    var selected := Selected(s, groups, r);
    HostedIs(groups, selected);
    ShareIs(r.KvBlocksNeeded(), s.topK);
    ImbalanceIs(s.counts);
    var hosted := Hosted(groups, selected);
    if hosted != [] {
      OverheadIs(s, groups, hosted, r);
    } else {
      NoOverhead(s, groups, r);
    }
  }

  lemma NoOverhead(s: Router, groups: Groups, r: Request)
    ensures OverheadMs(s, groups, [], r) == 0.0
  {
  }

  lemma ImbalanceIs(counts: seq<nat>)
    requires |counts| >= 2
    ensures IsImbalance(Imbalance(counts), counts, MaxCount(counts))
  {
    hide Total, MaxCount;
    MaxCountSpec(counts);
    ImbalanceEquation(MaxCount(counts), Total(counts), |counts|);
  }

  lemma ImbalanceEquation(m: nat, total: nat, experts: nat)
    requires experts >= 2
    ensures var (n, t) := (experts as real, (total + 1) as real);
            ((m + 1) as real / t - 1.0 / n) / (1.0 - 1.0 / n) * ((n - 1.0) * t) == n * (m + 1) as real - t
  {
    var n, t := experts as real, (total + 1) as real;
    var p, q := (m + 1) as real / t, 1.0 / n;
    assert p * t == (m + 1) as real && q * n == 1.0;
    var x := (p - q) / (1.0 - q);
    assert 1.0 - q > 0.0 by { ShareOfWhole(1.0, n); }
    assert x * (1.0 - q) == p - q;
    assert n * (1.0 - q) == n - 1.0;
    calc {
      x * ((n - 1.0) * t);
      x * (n * (1.0 - q) * t);
      (x * (1.0 - q)) * (n * t);
      (p - q) * (n * t);
      n * (p * t) - (q * n) * t;
    }
  }

  /** route raises exactly if top_k is 0, there are fewer than two experts, or the slowest
      selected group has no bandwidth. */
  lemma RaisesIff(s: Router, groups: Groups, r: Request)
    requires SaneGroups(groups)
    ensures RouteStep(s, groups, r).1.None? <==>
            || s.topK == 0 || |s.counts| < 2
            || IsSlowest(groups, Hosted(groups, Selected(s, groups, r)), 0.0)
  {
    var hosted := Hosted(groups, Selected(s, groups, r));
    if hosted != [] {
      SlowestIs(groups, hosted);
      var b := MinBandwidth(groups, hosted);
      assert EffectiveBandwidth(groups, hosted) == 0.0 <==> b == 0.0;
      SlowestIsOne(groups, hosted, b, 0.0);
    }
    hide Selected, Hosted, OverheadMs, Imbalance, AddTokens, EffectiveBandwidth;
  }

  lemma SlowestIsOne(groups: Groups, hosted: seq<nat>, a: real, b: real)
    requires AllHosted(groups, hosted) && IsSlowest(groups, hosted, a)
    ensures IsSlowest(groups, hosted, b) <==> a == b
  {
    hide Bandwidth;
  }
}
