/** The MoE router of control_plane/moe_routing/moe_router.py: expert groups are scored by
    load and by the state of their nodes, the best top_k experts get the prompt tokens. */
module MoERouting {
  import opened Models
  import opened BlockPools

  // ------------------------------------------------------------------ groups

  function KvFreeSum(nodes: seq<Node>): nat {
    if nodes == [] then 0 else KvFreeSum(nodes[..|nodes| - 1]) + nodes[|nodes| - 1].KvFree()
  }

  function KvTotalSum(nodes: seq<Node>): nat {
    if nodes == [] then 0 else KvTotalSum(nodes[..|nodes| - 1]) + nodes[|nodes| - 1].kvTotal
  }

  function MeanPressure(nodes: seq<Node>): real
    requires Sized(nodes)
  {
    if nodes == [] then 1.0 else TotalPressure(nodes) / |nodes| as real
  }

  predicate NvlinkCapable(nodes: seq<Node>) {
    forall k :: 0 <= k < |nodes| ==> nodes[k].nvlink
  }

  function PeakBandwidth(nodes: seq<Node>): real {
    if nodes == [] then 0.0 else PeakBandwidth(nodes[..|nodes| - 1]) + nodes[|nodes| - 1].bandwidth
  }

  /** A group whose nodes use no more than they have. */
  ghost predicate WithinMemory(nodes: seq<Node>) {
    forall k :: 0 <= k < |nodes| ==> 0.0 <= nodes[k].usedMemory <= nodes[k].totalMemory
  }

  lemma {:induction false} SumsBounded(nodes: seq<Node>)
    requires Sized(nodes)
    ensures KvFreeSum(nodes) <= KvTotalSum(nodes)
    ensures WithinMemory(nodes) ==> 0.0 <= TotalPressure(nodes) <= |nodes| as real
  {
    if nodes != [] {
      var n := |nodes| - 1;
      SumsBounded(nodes[..n]);
      if WithinMemory(nodes) {
        ShareOfWhole(nodes[n].usedMemory, nodes[n].totalMemory);
      }
    }
  }

  // ------------------------------------------------------------------ scores

  /** What the nodes of a group contribute to its score: KV headroom, memory, NVLink. */
  function Standing(nodes: seq<Node>, r: Request): real
    requires Sized(nodes)
  {
    0.35 * (KvFreeSum(nodes) as real / Max(1, KvTotalSum(nodes)) as real) +
    0.15 * (1.0 - MeanPressure(nodes)) +
    (if NvlinkCapable(nodes) && r.IsLongContext() then 0.1 else 0.0)
  }

  lemma StandingRange(nodes: seq<Node>, r: Request)
    requires Sized(nodes) && WithinMemory(nodes)
    ensures 0.0 <= Standing(nodes, r) <= 0.60
  {
    SumsBounded(nodes);
    ShareOfWhole(KvFreeSum(nodes) as real, Max(1, KvTotalSum(nodes)) as real);
    if nodes != [] {
      ShareOfWhole(TotalPressure(nodes), |nodes| as real);
    }
  }

  type Groups = map<nat, seq<Node>>

  ghost predicate SaneGroups(groups: Groups) {
    forall e :: e in groups ==> Sized(groups[e])
  }

  function Total(counts: seq<nat>): nat {
    if counts == [] then 0 else Total(counts[..|counts| - 1]) + counts[|counts| - 1]
  }

  const MISSING := -1000000000.0

  function LoadScore(count: nat, total: nat, experts: nat): real {
    1.0 - count as real / (total + 1) as real * experts as real
  }

  function Score(counts: seq<nat>, groups: Groups, r: Request, e: nat): real
    requires e < |counts| && SaneGroups(groups)
  {
    if e !in groups then MISSING
    else 0.40 * LoadScore(counts[e], Total(counts), |counts|) + Standing(groups[e], r)
  }

  function Scores(counts: seq<nat>, groups: Groups, r: Request): seq<real>
    requires SaneGroups(groups)
  {
    seq(|counts|, e requires 0 <= e < |counts| => Score(counts, groups, r, e))
  }

  // ----------------------------------------------------------------- ranking

  /** sorted(range(n), key = -score): insertion from the left keeps ties in order. */
  function Ranked(scores: seq<real>, n: nat): (s: seq<nat>)
    requires n <= |scores|
    ensures |s| == n && forall k :: 0 <= k < |s| ==> s[k] < n
  {
    if n == 0 then [] else Insert(scores, Ranked(scores, n - 1), n - 1)
  }

  function Insert(scores: seq<real>, s: seq<nat>, x: nat): (t: seq<nat>)
    requires x < |scores| && forall k :: 0 <= k < |s| ==> s[k] < x
    ensures |t| == |s| + 1 && forall k :: 0 <= k < |t| ==> t[k] <= x
  {
    if s == [] || scores[s[|s| - 1]] >= scores[x] then s + [x]
    else Insert(scores, s[..|s| - 1], x) + [s[|s| - 1]]
  }

  ghost predicate Before(scores: seq<real>, a: nat, b: nat)
    requires a < |scores| && b < |scores|
  {
    scores[a] > scores[b] || (scores[a] == scores[b] && a < b)
  }

  ghost predicate InOrder(scores: seq<real>, s: seq<nat>) {
    && (forall k :: 0 <= k < |s| ==> s[k] < |scores|)
    && (forall i, j :: 0 <= i < j < |s| ==> Before(scores, s[i], s[j]))
  }

  lemma InOrderSnoc(scores: seq<real>, s: seq<nat>, x: nat)
    requires InOrder(scores, s) && x < |scores|
    requires s != [] ==> Before(scores, s[|s| - 1], x)
    ensures InOrder(scores, s + [x])
  {
    var t := s + [x];
    forall i, j | 0 <= i < j < |t|
      ensures Before(scores, t[i], t[j])
    {
      if j == |s| && i < |s| - 1 {
        assert Before(scores, s[i], s[|s| - 1]);
      }
    }
  }

  lemma {:induction false} InsertSpec(scores: seq<real>, s: seq<nat>, x: nat)
    requires x < |scores| && (forall k :: 0 <= k < |s| ==> s[k] < x) && InOrder(scores, s)
    ensures var t := Insert(scores, s, x);
            && InOrder(scores, t)
            && (t[|t| - 1] == x || (s != [] && t[|t| - 1] == s[|s| - 1] && scores[x] > scores[s[|s| - 1]]))
            && x in t && forall e :: e in s ==> e in t
  {
    hide InOrder;
    var n := |s| - 1;
    if s == [] || scores[s[n]] >= scores[x] {
      InOrderSnoc(scores, s, x);
    } else {
      InOrderCut(scores, s);
      InsertSpec(scores, s[..n], x);
      assert s == s[..n] + [s[n]];
      InOrderSnoc(scores, Insert(scores, s[..n], x), s[n]);
    }
  }

  lemma InOrderCut(scores: seq<real>, s: seq<nat>)
    requires InOrder(scores, s) && s != []
    ensures InOrder(scores, s[..|s| - 1]) && s[|s| - 1] < |scores|
    ensures |s| > 1 ==> s[|s| - 2] < |scores| && Before(scores, s[|s| - 2], s[|s| - 1])
  {
  }

  /** The ranking lists every expert, best score first, lower id first among equals. */
  lemma {:induction false} RankedSpec(scores: seq<real>, n: nat)
    requires n <= |scores|
    ensures var s := Ranked(scores, n);
            InOrder(scores, s) && Covers(s, n)
  {
    hide InOrder, Insert;
    if n == 0 {
      NothingIsInOrder(scores);
    } else {
      RankedSpec(scores, n - 1);
      InsertSpec(scores, Ranked(scores, n - 1), n - 1);
    }
  }

  ghost predicate Covers(s: seq<nat>, n: nat) {
    forall e: nat :: e < n ==> e in s
  }

  lemma NothingIsInOrder(scores: seq<real>)
    ensures InOrder(scores, [])
  {
  }

  /** The first k of an ordered list come before everything else on it. */
  lemma TopComesFirst(scores: seq<real>, s: seq<nat>, k: nat)
    requires InOrder(scores, s) && k <= |s|
    ensures NoDup(s[..k])
    ensures forall i, j :: i in s[..k] && j in s && j !in s[..k] ==>
              i < |scores| && j < |scores| && Before(scores, i, j)
  {
    forall c | 0 <= c < k
      ensures s[c] in s[..k]
    {
      assert s[..k][c] == s[c];
    }
    forall i, j | i in s[..k] && j in s && j !in s[..k]
      ensures i < |scores| && j < |scores| && Before(scores, i, j)
    {
      var a :| 0 <= a < k && s[a] == i;
      var b :| 0 <= b < |s| && s[b] == j;
    }
    forall a, b | 0 <= a < b < k
      ensures s[a] != s[b]
    {
      assert Before(scores, s[a], s[b]);
    }
  }

  // ---------------------------------------------------------------- decision

  datatype Router = Router(topK: nat, layers: nat, counts: seq<nat>)

  datatype Decision = Decision(selected: seq<nat>, overheadMs: real, plan: map<nat, nat>, imbalance: real)

  function Selected(s: Router, groups: Groups, r: Request): seq<nat>
    requires SaneGroups(groups)
  {
    Ranked(Scores(s.counts, groups, r), |s.counts|)[..Min(s.topK, |s.counts|)]
  }

  /** The selected experts that have a group. */
  function Hosted(groups: Groups, selected: seq<nat>): (h: seq<nat>)
    ensures forall k :: 0 <= k < |h| ==> h[k] in groups
  {
    if selected == [] then []
    else
      var rest := Hosted(groups, selected[..|selected| - 1]);
      if selected[|selected| - 1] in groups then rest + [selected[|selected| - 1]] else rest
  }

  predicate AllHosted(groups: Groups, hosted: seq<nat>) {
    forall k :: 0 <= k < |hosted| ==> hosted[k] in groups
  }

  function MinBandwidth(groups: Groups, hosted: seq<nat>): real
    requires hosted != [] && AllHosted(groups, hosted)
  {
    var last := PeakBandwidth(groups[hosted[|hosted| - 1]]);
    if |hosted| == 1 then last
    else
      var best := MinBandwidth(groups, hosted[..|hosted| - 1]);
      if last < best then last else best
  }

  function EffectiveBandwidth(groups: Groups, hosted: seq<nat>): real
    requires hosted != [] && AllHosted(groups, hosted)
  {
    var b := MinBandwidth(groups, hosted);
    if forall k :: 0 <= k < |hosted| ==> NvlinkCapable(groups[hosted[k]]) then b else b * 0.25
  }

  function OverheadMs(s: Router, groups: Groups, hosted: seq<nat>, r: Request): real
    requires AllHosted(groups, hosted) && (hosted != [] ==> EffectiveBandwidth(groups, hosted) != 0.0)
  {
    if hosted == [] then 0.0
    else
      var bytes := (r.promptTokens * s.topK * 8192 * s.layers) as real;
      var ms := bytes / (EffectiveBandwidth(groups, hosted) * 1000000000.0) * 1000.0 * 2.0;
      if ms > 0.1 then ms else 0.1
  }

  function Plan(hosted: seq<nat>, share: nat): (m: map<nat, nat>) {
    map e | e in hosted :: share
  }

  function MaxCount(counts: seq<nat>): nat
    requires counts != []
  {
    if |counts| == 1 then counts[0] else Max(MaxCount(counts[..|counts| - 1]), counts[|counts| - 1])
  }

  function Imbalance(counts: seq<nat>): real
    requires |counts| >= 2
  {
    var e := |counts| as real;
    ((MaxCount(counts) + 1) as real / (Total(counts) + 1) as real - 1.0 / e) / (1.0 - 1.0 / e)
  }

  function AddTokens(counts: seq<nat>, selected: seq<nat>, tokens: nat): (c: seq<nat>)
    requires forall k :: 0 <= k < |selected| ==> selected[k] < |counts|
    ensures |c| == |counts|
  {
    if selected == [] then counts
    else
      var before := AddTokens(counts, selected[..|selected| - 1], tokens);
      var e := selected[|selected| - 1];
      before[e := before[e] + tokens]
  }

  /** The calls that divide by zero (or take the maximum of nothing): a selected group
      without bandwidth, top_k 0, or fewer than two experts. */
  predicate Raises(s: Router, groups: Groups, r: Request)
    requires SaneGroups(groups)
  {
    var hosted := Hosted(groups, Selected(s, groups, r));
    (hosted != [] && EffectiveBandwidth(groups, hosted) == 0.0) || s.topK == 0 || |s.counts| < 2
  }

  /** route: all the divisions come before the counters are touched. */
  function RouteStep(s: Router, groups: Groups, r: Request): (Router, Option<Decision>)
    requires SaneGroups(groups)
  {
    if Raises(s, groups, r) then (s, None)
    else
      var selected := Selected(s, groups, r);
      var hosted := Hosted(groups, selected);
      var share := Max(1, r.KvBlocksNeeded() / s.topK);
      SelectedInRange(s, groups, r);
      (s.(counts := AddTokens(s.counts, selected, r.promptTokens)),
       Some(Decision(selected, OverheadMs(s, groups, hosted, r), Plan(hosted, share), Imbalance(s.counts))))
  }

  lemma SelectedInRange(s: Router, groups: Groups, r: Request)
    requires SaneGroups(groups)
    ensures forall k :: 0 <= k < |Selected(s, groups, r)| ==> Selected(s, groups, r)[k] < |s.counts|
  {
    RankedSpec(Scores(s.counts, groups, r), |s.counts|);
  }

  // --------------------------------------------------------------- selection

  /** Everybody chosen scores above everybody left out, or equal with the lower id. */
  ghost predicate Preferred(s: Router, groups: Groups, r: Request, chosen: seq<nat>)
    requires SaneGroups(groups)
  {
    forall i: nat, j: nat :: i < |s.counts| && j < |s.counts| && i in chosen && j !in chosen ==>
      var si, sj := Score(s.counts, groups, r, i), Score(s.counts, groups, r, j);
      si > sj || (si == sj && i < j)
  }

  /** The top_k experts: that many distinct ones, none of them outscored by one left out. */
  lemma SelectedAreBest(s: Router, groups: Groups, r: Request)
    requires SaneGroups(groups)
    ensures var chosen := Selected(s, groups, r);
            && |chosen| == Min(s.topK, |s.counts|) && NoDup(chosen)
            && (forall k :: 0 <= k < |chosen| ==> chosen[k] < |s.counts|)
    ensures Preferred(s, groups, r, Selected(s, groups, r))
  {
    var scores := Scores(s.counts, groups, r);
    var ranked, k := Ranked(scores, |s.counts|), Min(s.topK, |s.counts|);
    hide Scores, Score, Ranked, InOrder, NoDup;
    RankedSpec(scores, |s.counts|);
    TopComesFirst(scores, ranked, k);
    forall i: nat, j: nat | i < |s.counts| && j < |s.counts| && i in ranked[..k] && j !in ranked[..k]
      ensures var si, sj := Score(s.counts, groups, r, i), Score(s.counts, groups, r, j); si > sj || (si == sj && i < j)
    {
      assert Before(scores, i, j);
      ScoreAt(s.counts, groups, r, i);
      ScoreAt(s.counts, groups, r, j);
    }
  }

  lemma ScoreAt(counts: seq<nat>, groups: Groups, r: Request, e: nat)
    requires e < |counts| && SaneGroups(groups)
    ensures |Scores(counts, groups, r)| == |counts|
    ensures Scores(counts, groups, r)[e] == Score(counts, groups, r, e)
  {
  }

  /** `c` is `counts` with `tokens` added at the listed experts. */
  ghost predicate Added(counts: seq<nat>, c: seq<nat>, selected: seq<nat>, tokens: nat) {
    |c| == |counts| && forall e :: 0 <= e < |counts| ==> c[e] == counts[e] + (if e in selected then tokens else 0)
  }

  /** The counters move by the prompt length at the selected experts and nowhere else. */
  lemma {:induction false} AddTokensSpec(counts: seq<nat>, selected: seq<nat>, tokens: nat)
    requires NoDup(selected) && forall k :: 0 <= k < |selected| ==> selected[k] < |counts|
    ensures var c := AddTokens(counts, selected, tokens);
            Added(counts, c, selected, tokens) && Total(c) == Total(counts) + Times(|selected|, tokens)
  {
    if selected != [] {
      var n := |selected| - 1;
      AddTokensSpec(counts, selected[..n], tokens);
      AddedLast(counts, AddTokens(counts, selected[..n], tokens), selected, tokens);
      TotalUpdate(AddTokens(counts, selected[..n], tokens), selected[n], tokens);
      OneMore(n, tokens);
      hide Times, Total, Added, NoDup;
    }
  }

  lemma AddedLast(counts: seq<nat>, before: seq<nat>, selected: seq<nat>, tokens: nat)
    requires selected != [] && selected[|selected| - 1] < |counts| && NoDup(selected)
    requires Added(counts, before, selected[..|selected| - 1], tokens)
    ensures var e := selected[|selected| - 1];
            Added(counts, before[e := before[e] + tokens], selected, tokens)
  {
    assert selected == selected[..|selected| - 1] + [selected[|selected| - 1]];
  }

  lemma {:induction false} TotalUpdate(counts: seq<nat>, e: nat, tokens: nat)
    requires e < |counts|
    ensures Total(counts[e := counts[e] + tokens]) == Total(counts) + tokens
  {
    var n := |counts| - 1;
    var c := counts[e := counts[e] + tokens];
    if e == n {
      assert c[..n] == counts[..n];
    } else {
      TotalUpdate(counts[..n], e, tokens);
      assert c[..n] == counts[..n][e := counts[..n][e] + tokens];
    }
  }

  /** One call: it raises and changes nothing, or min(top_k, experts) distinct experts, none
      outscored by one left out, each gain the prompt tokens. */
  lemma RouteSpec(s: Router, groups: Groups, r: Request)
    requires SaneGroups(groups)
    ensures var (t, d) := RouteStep(s, groups, r);
            && (d.None? ==> t == s)
            && (d.Some? ==>
                  && t.topK == s.topK && t.layers == s.layers
                  && |d.value.selected| == Min(s.topK, |s.counts|)
                  && Added(s.counts, t.counts, d.value.selected, r.promptTokens)
                  && Total(t.counts) == Total(s.counts) + Times(Min(s.topK, |s.counts|), r.promptTokens)
                  && Preferred(s, groups, r, d.value.selected))
  {
    SelectedAreBest(s, groups, r);
    hide Times, NoDup, Selected, Raises, Hosted, OverheadMs, Plan, Imbalance, Total, AddTokens, Added, Preferred, Min;
    if !Raises(s, groups, r) {
      AddTokensSpec(s.counts, Selected(s, groups, r), r.promptTokens);
    }
  }

  /** An expert without a group is chosen only when every expert with one is. */
  lemma MissingGroupsComeLast(s: Router, groups: Groups, r: Request, chosen: seq<nat>, i: nat, j: nat)
    requires SaneGroups(groups) && Preferred(s, groups, r, chosen) && |s.counts| < 2_500_000_000
    requires i < |s.counts| && j < |s.counts| && i !in groups && i in chosen
    requires j in groups && WithinMemory(groups[j])
    ensures j in chosen
  {
    StandingRange(groups[j], r);
    CountWithinTotal(s.counts, j);
    LoadScoreFloor(s.counts[j], Total(s.counts), |s.counts|);
    hide LoadScore, Standing;
    assert Score(s.counts, groups, r, j) > Score(s.counts, groups, r, i);
  }

  lemma {:induction false} CountWithinTotal(counts: seq<nat>, e: nat)
    requires e < |counts|
    ensures counts[e] <= Total(counts)
  {
    if e < |counts| - 1 {
      CountWithinTotal(counts[..|counts| - 1], e);
    }
  }

  lemma LoadScoreFloor(count: nat, total: nat, experts: nat)
    requires count <= total
    ensures LoadScore(count, total, experts) >= 1.0 - experts as real
  {
    ShareOfWhole(count as real, (total + 1) as real);
    Scaled(count as real / (total + 1) as real, 1.0, experts as real);
  }

  // -------------------------------------------------------------- whole runs

  /** A call of route and the state of the groups at that moment. */
  datatype Call = Call(request: Request, groups: Groups)

  ghost predicate SaneCalls(calls: seq<Call>) {
    forall k :: 0 <= k < |calls| ==> SaneGroups(calls[k].groups)
  }

  function Run(s: Router, calls: seq<Call>): (t: Router)
    requires SaneCalls(calls)
  {
    if calls == [] then s
    else RouteStep(Run(s, calls[..|calls| - 1]), calls[|calls| - 1].groups, calls[|calls| - 1].request).0
  }

  /** The prompt tokens of the calls that did not raise. */
  function Routed(s: Router, calls: seq<Call>): nat
    requires SaneCalls(calls)
  {
    if calls == [] then 0
    else
      var n := |calls| - 1;
      Routed(s, calls[..n]) +
      (if Raises(Run(s, calls[..n]), calls[n].groups, calls[n].request) then 0 else calls[n].request.promptTokens)
  }

  /** No token is lost or counted twice: the counters grow by min(top_k, experts) times the
      tokens routed. */
  lemma {:induction false} TokensConserved(s: Router, calls: seq<Call>)
    requires SaneCalls(calls)
    ensures var t := Run(s, calls);
            && t.topK == s.topK && |t.counts| == |s.counts|
            && Total(t.counts) == Total(s.counts) + Times(Min(s.topK, |s.counts|), Routed(s, calls))
  {
    hide Times, Total, Run, Routed, RouteStep, Raises;
    if calls == [] {
      NoCallsAddNothing(s);
    } else {
      TokensConserved(s, calls[..|calls| - 1]);
      LastCallAdds(s, calls);
      Distribute(Min(s.topK, |s.counts|), Routed(s, calls[..|calls| - 1]),
        Routed(s, calls) - Routed(s, calls[..|calls| - 1]));
    }
  }

  lemma NoCallsAddNothing(s: Router)
    ensures Run(s, []) == s && Routed(s, []) == 0 && Times(Min(s.topK, |s.counts|), 0) == 0
  {
  }

  lemma LastCallAdds(s: Router, calls: seq<Call>)
    requires SaneCalls(calls) && calls != []
    ensures var n := |calls| - 1;
            var before, after := Run(s, calls[..n]), Run(s, calls);
            && after.topK == before.topK && |after.counts| == |before.counts| &&
                 Routed(s, calls) >= Routed(s, calls[..n])
            && Total(after.counts) == Total(before.counts) +
                 Times(Min(before.topK, |before.counts|), Routed(s, calls) - Routed(s, calls[..n]))
  {
    var before, c := Run(s, calls[..|calls| - 1]), calls[|calls| - 1];
    RouteSpec(before, c.groups, c.request);
    RoutedLast(s, calls);
    Distribute(Min(before.topK, |before.counts|), 0, 0);
    hide *;
  }

  lemma RoutedLast(s: Router, calls: seq<Call>)
    requires SaneCalls(calls) && calls != []
    ensures var n := |calls| - 1;
            var before, c := Run(s, calls[..n]), calls[n];
            && Run(s, calls) == RouteStep(before, c.groups, c.request).0
            && Routed(s, calls) == Routed(s, calls[..n]) +
                 (if RouteStep(before, c.groups, c.request).1.None? then 0 else c.request.promptTokens)
  {
  }

  /** In this call both groups are there and i stands at most `edge` above j. */
  ghost predicate EdgeAtMost(c: Call, i: nat, j: nat, edge: real)
    requires SaneGroups(c.groups)
  {
    i in c.groups && j in c.groups && Standing(c.groups[i], c.request) - Standing(c.groups[j], c.request) <= edge
  }

  /** i leads j by at most the longest prompt, apart from what a better standing buys. */
  ghost predicate LeadBounded(counts: seq<nat>, i: nat, j: nat, longest: nat, edge: real)
    requires i < |counts| && j < |counts|
  {
    Pull(|counts|, counts[i] - counts[j] - longest) <= Slack(edge, Total(counts))
  }

  /** What a lead in tokens costs in score, times total + 1. */
  ghost function Pull(experts: nat, lead: int): real {
    0.40 * experts as real * lead as real
  }

  ghost function Slack(edge: real, total: nat): real {
    edge * (total + 1) as real
  }

  lemma PullGrows(experts: nat, a: int, b: int)
    requires a <= b
    ensures Pull(experts, a) <= Pull(experts, b)
  {
    Scaled(a as real, b as real, 0.40 * experts as real);
  }

  lemma SlackGrows(edge: real, a: nat, b: nat)
    requires a <= b && edge >= 0.0
    ensures 0.0 <= Slack(edge, a) <= Slack(edge, b)
  {
    Scaled((a + 1) as real, (b + 1) as real, edge);
  }

  lemma ChosenLead(ci: nat, cj: nat, total: nat, experts: nat, si: real, sj: real, edge: real)
    requires 0.40 * LoadScore(ci, total, experts) + si >= 0.40 * LoadScore(cj, total, experts) + sj
    requires si - sj <= edge
    ensures Pull(experts, ci - cj) <= Slack(edge, total)
  {
    var t := (total + 1) as real;
    var e := experts as real;
    var x := ci as real / t;
    var y := cj as real / t;
    assert x * t == ci as real && y * t == cj as real;
    assert 0.40 * (x * e) - 0.40 * (y * e) <= edge;
    Scaled(0.40 * (x * e) - 0.40 * (y * e), edge, t);
    assert (0.40 * (x * e) - 0.40 * (y * e)) * t == 0.40 * e * (x * t) - 0.40 * e * (y * t);
  }

  lemma Scaled(a: real, b: real, t: real)
    requires a <= b && t >= 0.0
    ensures a * t <= b * t
  {
  }

  /** One call keeps the bound on the lead. */
  lemma RouteKeepsLead(s: Router, c: Call, i: nat, j: nat, longest: nat, edge: real)
    requires SaneGroups(c.groups) && i < |s.counts| && j < |s.counts|
    requires EdgeAtMost(c, i, j, edge) && edge >= 0.0 && c.request.promptTokens <= longest
    requires LeadBounded(s.counts, i, j, longest, edge)
    ensures var t := RouteStep(s, c.groups, c.request).0;
            |t.counts| == |s.counts| && LeadBounded(t.counts, i, j, longest, edge)
  {
    hide Times, RouteStep, Pull, Slack, Total, Standing, Preferred, LoadScore, Score, Min;
    RouteSpec(s, c.groups, c.request);
    var (t, d) := RouteStep(s, c.groups, c.request);
    if d.Some? {
      var chosen := d.value.selected;
      var lead := s.counts[i] as int - s.counts[j] as int;
      var after := t.counts[i] as int - t.counts[j] as int;
      SlackGrows(edge, Total(s.counts), Total(t.counts));
      if i in chosen && j !in chosen {
        PreferredPair(s, c.groups, c.request, chosen, i, j);
        ChosenLead(s.counts[i], s.counts[j], Total(s.counts), |s.counts|,
                   Standing(c.groups[i], c.request), Standing(c.groups[j], c.request), edge);
        PullGrows(|s.counts|, after - longest, lead);
      } else {
        PullGrows(|s.counts|, after - longest, lead - longest);
      }
    }
  }

  lemma PreferredPair(s: Router, groups: Groups, r: Request, chosen: seq<nat>, i: nat, j: nat)
    requires SaneGroups(groups) && i < |s.counts| && j < |s.counts| && i in groups && j in groups
    requires Preferred(s, groups, r, chosen) && i in chosen && j !in chosen
    ensures 0.40 * LoadScore(s.counts[i], Total(s.counts), |s.counts|) + Standing(groups[i], r) >=
            0.40 * LoadScore(s.counts[j], Total(s.counts), |s.counts|) + Standing(groups[j], r)
  {
    hide LoadScore, Standing, Total;
  }

  /** Over any run from zeroed counters, with prompts of at most `longest` tokens: an expert
      whose standing never exceeds another's by more than `edge` leads it by at most
      longest + edge * (total + 1) / (0.4 * experts). */
  lemma {:induction false} LeadOverRun(s: Router, calls: seq<Call>, i: nat, j: nat, longest: nat, edge: real)
    requires i < |s.counts| && j < |s.counts| && s.counts[i] == s.counts[j] && edge >= 0.0
    requires SaneCalls(calls)
    requires forall k :: 0 <= k < |calls| ==>
               calls[k].request.promptTokens <= longest && EdgeAtMost(calls[k], i, j, edge)
    ensures |Run(s, calls).counts| == |s.counts| && LeadBounded(Run(s, calls).counts, i, j, longest, edge)
  {
    if calls == [] {
      SlackGrows(edge, Total(s.counts), Total(s.counts));
      PullGrows(|s.counts|, 0 - longest, 0);
    } else {
      var n := |calls| - 1;
      LeadOverRun(s, calls[..n], i, j, longest, edge);
      RouteKeepsLead(Run(s, calls[..n]), calls[n], i, j, longest, edge);
    }
  }

  /** Experts whose groups stand equal at every call never drift apart by more than one prompt. */
  lemma EqualGroupsStayBalanced(s: Router, calls: seq<Call>, i: nat, j: nat, longest: nat)
    requires i < |s.counts| && j < |s.counts| && s.counts[i] == s.counts[j]
    requires SaneCalls(calls)
    requires forall k :: 0 <= k < |calls| ==>
               calls[k].request.promptTokens <= longest && EdgeAtMost(calls[k], i, j, 0.0) &&
                 EdgeAtMost(calls[k], j, i, 0.0)
    ensures |Run(s, calls).counts| == |s.counts|
    ensures var c := Run(s, calls).counts; c[j] - longest <= c[i] <= c[j] + longest
  {
    hide Run, Standing, Pull, Slack, EdgeAtMost;
    LeadOverRun(s, calls, i, j, longest, 0.0);
    LeadOverRun(s, calls, j, i, longest, 0.0);
    var counts := Run(s, calls).counts;
    NoLead(|counts|, counts[i] - counts[j] - longest, Total(counts));
    NoLead(|counts|, counts[j] - counts[i] - longest, Total(counts));
  }

  lemma NoLead(experts: nat, lead: int, total: nat)
    requires experts > 0 && Pull(experts, lead) <= Slack(0.0, total)
    ensures lead <= 0
  {
    if lead > 0 {
      Scaled(1.0, lead as real, 0.40 * experts as real);
    }
  }

  /** Groups that use no more memory than they have always stand within 0.6 of each other, so
      load steers every run: 0.4 * experts * (lead - longest) <= 0.6 * (total + 1). */
  lemma LoadAlwaysSteers(s: Router, calls: seq<Call>, i: nat, j: nat, longest: nat)
    requires i < |s.counts| && j < |s.counts| && s.counts[i] == s.counts[j]
    requires SaneCalls(calls)
    requires forall k :: 0 <= k < |calls| ==>
               calls[k].request.promptTokens <= longest && i in calls[k].groups && j in calls[k].groups
    requires forall k :: 0 <= k < |calls| ==> WithinMemory(calls[k].groups[i]) && WithinMemory(calls[k].groups[j])
    ensures |Run(s, calls).counts| == |s.counts| && LeadBounded(Run(s, calls).counts, i, j, longest, 0.60)
  {
    forall k | 0 <= k < |calls|
      ensures EdgeAtMost(calls[k], i, j, 0.60)
    {
      StandingRange(calls[k].groups[i], calls[k].request);
      StandingRange(calls[k].groups[j], calls[k].request);
    }
    LeadOverRun(s, calls, i, j, longest, 0.60);
  }

  // --------------------------------------------------------------- imbalance

  lemma {:induction false} MaxCountSpec(counts: seq<nat>)
    requires counts != []
    ensures MaxCount(counts) in counts && MaxCount(counts) <= Total(counts) <= Times(|counts|, MaxCount(counts))
    ensures forall e :: 0 <= e < |counts| ==> counts[e] <= MaxCount(counts)
  {
    var n := |counts| - 1;
    hide Times;
    if n > 0 {
      MaxCountSpec(counts[..n]);
      TimesGrows(n, MaxCount(counts[..n]), MaxCount(counts));
      OneMore(n, MaxCount(counts));
      assert counts[n] <= MaxCount(counts);
    } else {
      assert Total(counts[..0]) == 0;
      OneMore(0, MaxCount(counts));
    }
  }

  /** At most one expert has any tokens. */
  ghost predicate OneHot(counts: seq<nat>) {
    forall i, j :: 0 <= i < j < |counts| ==> counts[i] == 0 || counts[j] == 0
  }

  lemma {:induction false} OneHotIff(counts: seq<nat>)
    requires counts != []
    ensures MaxCount(counts) == Total(counts) <==> OneHot(counts)
  {
    var n := |counts| - 1;
    MaxCountSpec(counts);
    if n > 0 {
      MaxCountSpec(counts[..n]);
      OneHotIff(counts[..n]);
      if counts[n] == 0 {
        assert OneHot(counts) <==> OneHot(counts[..n]);
      } else {
        AllZeroIff(counts[..n]);
        assert OneHot(counts) <==> forall e :: 0 <= e < n ==> counts[..n][e] == 0;
      }
    }
  }

  lemma {:induction false} AllZeroIff(counts: seq<nat>)
    ensures Total(counts) == 0 <==> forall e :: 0 <= e < |counts| ==> counts[e] == 0
  {
    if counts != [] {
      AllZeroIff(counts[..|counts| - 1]);
      assert forall e :: 0 <= e < |counts| - 1 ==> counts[..|counts| - 1][e] == counts[e];
    }
  }

  /** The imbalance metric: above 0 and at most 1, never 0 for perfect balance, and 1 exactly
      when at most one expert has tokens, so a router that routed nothing reports 1. */
  lemma ImbalanceRange(counts: seq<nat>)
    requires |counts| >= 2
    ensures 0.0 < Imbalance(counts) <= 1.0
    ensures Imbalance(counts) == 1.0 <==> OneHot(counts)
  {
    MaxCountSpec(counts);
    OneHotIff(counts);
    ShareAbove(|counts|, MaxCount(counts), Total(counts));
  }

  lemma ShareAbove(experts: nat, most: nat, total: nat)
    requires experts >= 2 && most <= total <= experts * most
    ensures var e := experts as real;
            var x := ((most + 1) as real / (total + 1) as real - 1.0 / e) / (1.0 - 1.0 / e);
            0.0 < x <= 1.0 && (x == 1.0 <==> most == total)
  {
    var e := experts as real;
    var t := (total + 1) as real;
    var share := (most + 1) as real / t;
    var even := 1.0 / e;
    assert even * e == 1.0 && share * t == (most + 1) as real;
    Reciprocal(experts);
    AboveEven(experts, most, total);
    assert share <= 1.0 && (share == 1.0 <==> most == total) by { ShareOfOne(most, total); }
    Stretch(share, even);
  }

  lemma Reciprocal(experts: nat)
    requires experts >= 2
    ensures 0.0 < 1.0 / experts as real <= 0.5
  {
  }

  lemma AboveEven(experts: nat, most: nat, total: nat)
    requires experts >= 2 && total <= experts * most
    ensures (most + 1) as real / (total + 1) as real > 1.0 / experts as real
  {
    assert total + 1 < experts * most + experts == experts * (most + 1);
    CrossLess(1.0, experts as real, (most + 1) as real, (total + 1) as real);
  }

  lemma CrossLess(a: real, b: real, c: real, d: real)
    requires b > 0.0 && d > 0.0 && a * d < c * b
    ensures a / b < c / d
  {
    var x, y := a / b, c / d;
    assert x * b == a && y * d == c;
    assert (x * b) * d == x * (b * d) && (y * d) * b == y * (b * d);
    assert x * (b * d) < y * (b * d);
  }

  lemma ShareOfOne(most: nat, total: nat)
    requires most <= total
    ensures var share := (most + 1) as real / (total + 1) as real;
            share <= 1.0 && (share == 1.0 <==> most == total)
  {
    ShareOfWhole((most + 1) as real, (total + 1) as real);
    assert (most + 1) as real / (total + 1) as real * (total + 1) as real == (most + 1) as real;
  }

  lemma Stretch(share: real, even: real)
    requires 0.0 < even <= 0.5 && even < share <= 1.0
    ensures 0.0 < (share - even) / (1.0 - even) <= 1.0
    ensures (share - even) / (1.0 - even) == 1.0 <==> share == 1.0
  {
    var x := (share - even) / (1.0 - even);
    assert x * (1.0 - even) == share - even;
  }

  // ----------------------------------------------------------------- cluster

  /** The places of the nodes that make_moe_cluster gives to an expert. */
  function Places(nodes: nat, experts: nat, e: nat): seq<nat>
    requires experts > 0 && nodes > 0
  {
    var mine := Strided(nodes, experts, e);
    if mine == [] then [e % nodes] else mine
  }

  function Strided(nodes: nat, experts: nat, e: nat): (s: seq<nat>)
    requires experts > 0
    ensures forall i :: i in s <==> 0 <= i < nodes && i % experts == e
    ensures NoDup(s)
  {
    if nodes == 0 then []
    else
      var rest := Strided(nodes - 1, experts, e);
      if (nodes - 1) % experts == e then
        assert NoDup(rest + [nodes - 1]) by { assert forall k :: 0 <= k < |rest| ==> rest[k] in rest; }
        rest + [nodes - 1]
      else rest
  }

  /** Every expert gets nodes; with enough nodes they are shared out, each to one expert. */
  lemma ClusterIsPartitioned(nodes: nat, experts: nat)
    requires experts > 0 && nodes > 0
    ensures forall e :: 0 <= e < experts ==>
              Places(nodes, experts, e) != [] && forall i :: i in Places(nodes, experts, e) ==> i < nodes
    ensures nodes >= experts ==> forall i, e :: 0 <= i < nodes && 0 <= e < experts ==>
              (i in Places(nodes, experts, e) <==> e == i % experts)
    ensures nodes < experts ==> forall e :: 0 <= e < experts ==> |Places(nodes, experts, e)| == 1
  {
    forall e | 0 <= e < experts
      ensures e < nodes ==> e in Strided(nodes, experts, e)
      ensures nodes < experts ==> |Places(nodes, experts, e)| == 1
    {
      SmallMod(e, experts);
      if nodes < experts {
        forall i | 0 <= i < nodes
          ensures i in Strided(nodes, experts, e) <==> i == e
        {
          SmallMod(i, experts);
        }
        Singleton(Strided(nodes, experts, e), e);
      }
    }
  }

  lemma SmallMod(i: nat, m: nat)
    requires i < m
    ensures i % m == i
  {
  }

  lemma Singleton(s: seq<nat>, x: nat)
    requires NoDup(s) && forall i :: i in s ==> i == x
    ensures |s| <= 1
  {
    NoDupCount(s);
    if s != [] {
      assert s[0] in s;
      assert Elems(s) == {x};
    }
  }

  // --------------------------------------------------------------- the class

  class MoERouter {
    const topK: nat
    const layers: nat
    const groups: map<nat, seq<GPUNode>>
    var counts: seq<nat>

    constructor (groups: map<nat, seq<GPUNode>>, numExperts: nat, topK: nat, layers: nat)
      ensures View() == Router(topK, layers, counts) && this.groups == groups
      ensures |counts| == numExperts && Total(counts) == 0
      ensures forall e :: 0 <= e < numExperts ==> counts[e] == 0
    {
      this.groups, this.topK, this.layers := groups, topK, layers;
      this.counts := seq(numExperts, _ => 0);
      new;
      AllZeroIff(counts);
    }

    function View(): Router
      reads this`counts
    {
      Router(topK, layers, counts)
    }

    function Nodes(): set<GPUNode> {
      set e, k | e in groups && 0 <= k < |groups[e]| :: groups[e][k]
    }

    /** The groups as they stand now. */
    function Standings(): (g: Groups)
      reads Nodes()
      ensures g.Keys == groups.Keys && forall e :: e in groups ==> g[e] == NodeViews(groups[e])
    {
      map e | e in groups :: NodeViews(groups[e])
    }

    static method SumNodes(nodes: seq<GPUNode>) returns (free: nat, total: nat, pressure: real, linked: bool)
      requires Sized(NodeViews(nodes))
      ensures free == KvFreeSum(NodeViews(nodes)) && total == KvTotalSum(NodeViews(nodes))
      ensures pressure == TotalPressure(NodeViews(nodes)) && linked == NvlinkCapable(NodeViews(nodes))
    {
      ghost var views := NodeViews(nodes);
      free, total, pressure, linked := 0, 0, 0.0, true;
      for k := 0 to |nodes|
        invariant free == KvFreeSum(views[..k]) && total == KvTotalSum(views[..k])
        invariant pressure == TotalPressure(views[..k]) && linked == NvlinkCapable(views[..k])
      {
        var node := nodes[k].View();
        assert views[..k + 1][..k] == views[..k] && views[k] == node;
        free, total := free + node.KvFree(), total + node.kvTotal;
        pressure, linked := pressure + node.MemoryPressure(), linked && node.nvlink;
      }
      assert views[..|nodes|] == views;
    }

    static method GroupStanding(nodes: seq<GPUNode>, r: Request) returns (standing: real)
      requires Sized(NodeViews(nodes))
      ensures standing == Standing(NodeViews(nodes), r)
    {
      var free, total, pressure, linked := SumNodes(nodes);
      var mean := if nodes == [] then 1.0 else pressure / |nodes| as real;
      var bonus := if linked && r.IsLongContext() then 0.1 else 0.0;
      standing := 0.35 * (free as real / Max(1, total) as real) + 0.15 * (1.0 - mean) + bonus;
    }

    static method Sum(counts: seq<nat>) returns (total: nat)
      ensures total == Total(counts)
    {
      total := 0;
      for e := 0 to |counts|
        invariant total == Total(counts[..e])
      {
        assert counts[..e + 1][..e] == counts[..e];
        total := total + counts[e];
      }
      assert counts[..|counts|] == counts;
    }

    method ScoreExpert(r: Request, e: nat, total: nat) returns (score: real)
      requires SaneGroups(Standings()) && e < |counts| && total == Total(counts)
      ensures score == Score(counts, Standings(), r, e)
    {
      hide Total, Standing, LoadScore;
      if e !in groups {
        return MISSING;
      }
      var standing := GroupStanding(groups[e], r);
      score := 0.40 * LoadScore(counts[e], total, |counts|) + standing;
    }

    method ScoreExperts(r: Request) returns (scores: seq<real>)
      requires SaneGroups(Standings())
      ensures |scores| == |counts| && scores == Scores(counts, Standings(), r)
    {
      hide Score, Total;
      ghost var now := Standings();
      scores := [];
      var total := Sum(counts);
      for e := 0 to |counts|
        invariant |scores| == e && now == Standings()
        invariant forall k :: 0 <= k < e ==> scores[k] == Score(counts, now, r, k)
      {
        var score := ScoreExpert(r, e, total);
        scores := scores + [score];
      }
    }

    method AddLoad(selected: seq<nat>, tokens: nat)
      requires forall k :: 0 <= k < |selected| ==> selected[k] < |counts|
      modifies this`counts
      ensures counts == AddTokens(old(counts), selected, tokens)
    {
      for k := 0 to |selected|
        invariant counts == AddTokens(old(counts), selected[..k], tokens)
      {
        assert selected[..k + 1][..k] == selected[..k];
        counts := counts[selected[k] := counts[selected[k]] + tokens];
      }
      assert selected[..|selected|] == selected;
    }

    method Route(r: Request) returns (d: Option<Decision>)
      requires SaneGroups(Standings())
      modifies this`counts
      ensures (View(), d) == RouteStep(old(View()), Standings(), r)
    {
      hide Ranked, Scores, Hosted, EffectiveBandwidth, OverheadMs, Plan, Imbalance, AddTokens;
      var scores := ScoreExperts(r);
      var now := Standings();
      ghost var start := View();
      SelectedInRange(start, now, r);
      var selected := Ranked(scores, |counts|)[..Min(topK, |counts|)];
      var hosted := Hosted(now, selected);
      assert selected == Selected(start, now, r);
      if (hosted != [] && EffectiveBandwidth(now, hosted) == 0.0) || topK == 0 || |counts| < 2 {
        return None;
      }
      var overhead := OverheadMs(View(), now, hosted, r);
      var plan := Plan(hosted, Max(1, r.KvBlocksNeeded() / topK));
      d := Some(Decision(selected, overhead, plan, Imbalance(counts)));
      AddLoad(selected, r.promptTokens);
      assert now == Standings();
      assert View() == start.(counts := AddTokens(start.counts, selected, r.promptTokens));
    }
  }
}
