/** Batch formation of ml/batch_optimizer/batch_optimizer.py: a stable sort by SLA class and
    arrival, then a greedy cut of the sorted list under a size cap and a token cap. */
module BatchOptimizers {
  import opened Models

  // ------------------------------------------------------------ the sort

  function SlaPriority(c: SLAClass): nat {
    match c
    case Realtime => 3
    case Interactive => 2
    case Batch => 1
  }

  /** The order of the sort keys (-priority, arrival_time). */
  predicate Before(a: Request, b: Request) {
    SlaPriority(a.sla) > SlaPriority(b.sla) || (a.sla == b.sla && a.arrival < b.arrival)
  }

  predicate SameKey(a: Request, b: Request) {
    a.sla == b.sla && a.arrival == b.arrival
  }

  ghost predicate Sorted(rs: seq<Request>) {
    forall i, j :: 0 <= i < j < |rs| ==> !Before(rs[j], rs[i])
  }

  /** Python's sorted: each element goes behind the earlier ones with the same key. */
  function StableSort(rs: seq<Request>): seq<Request> {
    if rs == [] then [] else Insert(StableSort(rs[..|rs| - 1]), rs[|rs| - 1])
  }

  function Insert(s: seq<Request>, x: Request): seq<Request> {
    if s == [] then [x]
    else if Before(x, s[|s| - 1]) then Insert(s[..|s| - 1], x) + [s[|s| - 1]]
    else s + [x]
  }

  /** The subsequence of the requests that share the key of `k`. */
  function WithKey(rs: seq<Request>, k: Request): seq<Request> {
    if rs == [] then []
    else
      var rest := WithKey(rs[..|rs| - 1], k);
      if SameKey(rs[|rs| - 1], k) then rest + [rs[|rs| - 1]] else rest
  }

  lemma {:induction false} InsertElements(s: seq<Request>, x: Request)
    ensures multiset(Insert(s, x)) == multiset(s) + multiset{x}
    ensures forall r :: r in Insert(s, x) <==> r in s || r == x
  {
    if s != [] {
      var n := |s| - 1;
      assert s == s[..n] + [s[n]];
      InsertElements(s[..n], x);
    }
  }

  lemma {:induction false} InsertSorted(s: seq<Request>, x: Request)
    requires Sorted(s)
    ensures Sorted(Insert(s, x))
  {
    if s != [] {
      var n := |s| - 1;
      if Before(x, s[n]) {
        InsertSorted(s[..n], x);
        InsertElements(s[..n], x);
        SortedSnoc(Insert(s[..n], x), s[n]);
      } else {
        assert forall i :: 0 <= i < n ==> !Before(s[n], s[i]);
        SortedSnoc(s, x);
      }
    }
  }

  lemma SortedSnoc(s: seq<Request>, x: Request)
    requires Sorted(s) && forall r :: r in s ==> !Before(x, r)
    ensures Sorted(s + [x])
  {
  }

  lemma WithKeySnoc(s: seq<Request>, x: Request, k: Request)
    ensures WithKey(s + [x], k) == WithKey(s, k) + (if SameKey(x, k) then [x] else [])
  {
    assert (s + [x])[..|s|] == s;
  }

  lemma {:induction false} InsertStable(s: seq<Request>, x: Request, k: Request)
    ensures WithKey(Insert(s, x), k) == WithKey(s, k) + (if SameKey(x, k) then [x] else [])
  {
    if s != [] {
      var n := |s| - 1;
      if Before(x, s[n]) {
        InsertStable(s[..n], x, k);
        WithKeySnoc(Insert(s[..n], x), s[n], k);
      } else {
        WithKeySnoc(s, x, k);
      }
    }
  }

  /** The sort orders by class, then arrival; it loses nothing, and equal keys keep their order. */
  lemma {:induction false} StableSortIsStable(rs: seq<Request>)
    ensures Sorted(StableSort(rs)) && multiset(StableSort(rs)) == multiset(rs)
    ensures forall k :: WithKey(StableSort(rs), k) == WithKey(rs, k)
  {
    if rs != [] {
      var n := |rs| - 1;
      assert rs == rs[..n] + [rs[n]];
      StableSortIsStable(rs[..n]);
      InsertSorted(StableSort(rs[..n]), rs[n]);
      InsertElements(StableSort(rs[..n]), rs[n]);
      forall k
        ensures WithKey(StableSort(rs), k) == WithKey(rs, k)
      {
        InsertStable(StableSort(rs[..n]), rs[n], k);
      }
    }
  }

  // --------------------------------------------------------------- batches

  datatype Caps = Caps(maxSize: int, maxTokens: int)

  function Tokens(b: seq<Request>): nat {
    if b == [] then 0 else Tokens(b[..|b| - 1]) + b[|b| - 1].Tokens()
  }

  /** A batch within both caps, or a single request whatever its size. */
  predicate Fits(c: Caps, b: seq<Request>) {
    b != [] && (|b| == 1 || (|b| <= c.maxSize && Tokens(b) <= c.maxTokens))
  }

  predicate AllFit(c: Caps, bs: seq<seq<Request>>) {
    forall k :: 0 <= k < |bs| ==> Fits(c, bs[k])
  }

  /** No batch could have taken the first request of the next one as well. */
  predicate Tight(c: Caps, bs: seq<seq<Request>>) {
    forall k :: 0 < k < |bs| ==> bs[k] != [] && !Fits(c, bs[k - 1] + [bs[k][0]])
  }

  function Concat(bs: seq<seq<Request>>): seq<Request> {
    if bs == [] then [] else Concat(bs[..|bs| - 1]) + bs[|bs| - 1]
  }

  /** A way to cut a list into feasible contiguous batches. */
  predicate Cut(c: Caps, bs: seq<seq<Request>>, s: seq<Request>) {
    Concat(bs) == s && AllFit(c, bs)
  }

  lemma TokensAppend(b: seq<Request>, x: Request)
    ensures Tokens(b + [x]) == Tokens(b) + x.Tokens()
  {
    assert (b + [x])[..|b|] == b;
  }

  lemma {:induction false} TokensConcat(a: seq<Request>, b: seq<Request>)
    ensures Tokens(a + b) == Tokens(a) + Tokens(b)
  {
    if b == [] {
      assert a + b == a;
    } else {
      TokensConcat(a, b[..|b| - 1]);
      assert (a + b)[..|a + b| - 1] == a + b[..|b| - 1];
    }
  }

  lemma ConcatSnoc(bs: seq<seq<Request>>, b: seq<Request>)
    ensures Concat(bs + [b]) == Concat(bs) + b
  {
    assert (bs + [b])[..|bs|] == bs;
  }

  lemma Singles(c: Caps, x: Request)
    ensures Tokens([x]) == x.Tokens() && Weight(c, [x]) == Min(x.Tokens(), c.maxTokens) && Fits(c, [x])
  {
    assert [x][..0] == [];
  }

  /** What the loop has built when it has seen `seen`. */
  ghost predicate Building(c: Caps, batches: seq<seq<Request>>, current: seq<Request>, seen: seq<Request>) {
    && Concat(batches) + current == seen
    && AllFit(c, batches)
    && (current != [] ==> Fits(c, current))
    && (current == [] ==> batches == [])
    && Tight(c, batches)
    && (batches != [] ==> !Fits(c, batches[|batches| - 1] + [current[0]]))
  }

  lemma BuildingNone(c: Caps)
    ensures Building(c, [], [], []) && Tokens([]) == 0 && Cut(c, [], StableSort([])) && Tight(c, [])
  {
  }

  lemma Built(c: Caps, batches: seq<seq<Request>>, current: seq<Request>, s: seq<Request>)
    requires Building(c, batches, current, s)
    ensures var all := if current != [] then batches + [current] else batches;
            Cut(c, all, s) && Tight(c, all)
  {
    hide Concat, Fits, Tokens;
    ConcatSnoc(batches, current);
  }

  lemma Flush(c: Caps, batches: seq<seq<Request>>, current: seq<Request>, seen: seq<Request>, req: Request)
    requires Building(c, batches, current, seen) && current != [] && !Fits(c, current + [req])
    ensures Building(c, batches + [current], [req], seen + [req])
  {
    ConcatSnoc(batches, current);
    Singles(c, req);
    hide Concat, Fits;
    assert (Concat(batches) + current) + [req] == Concat(batches + [current]) + [req];
  }

  lemma First(c: Caps, batches: seq<seq<Request>>, seen: seq<Request>, req: Request)
    requires Building(c, batches, [], seen)
    ensures Building(c, batches, [req], seen + [req])
  {
    Singles(c, req);
  }

  lemma Grow(c: Caps, batches: seq<seq<Request>>, current: seq<Request>, seen: seq<Request>, req: Request)
    requires Building(c, batches, current, seen) && Fits(c, current + [req])
    ensures Building(c, batches, current + [req], seen + [req])
  {
    hide Concat, Fits;
    assert Concat(batches) + (current + [req]) == (Concat(batches) + current) + [req];
  }

  // ------------------------------------------------------------- optimality

  /** Where batch `k` begins. */
  function Start(bs: seq<seq<Request>>, k: nat): nat
    requires k <= |bs|
  {
    |Concat(bs[..k])|
  }

  lemma {:induction false} ConcatSplit(a: seq<seq<Request>>, b: seq<seq<Request>>)
    ensures Concat(a + b) == Concat(a) + Concat(b)
  {
    if b == [] {
      assert a + b == a;
    } else {
      ConcatSplit(a, b[..|b| - 1]);
      assert (a + b)[..|a + b| - 1] == a + b[..|b| - 1];
    }
  }

  /** Batch `k` is the segment of the list between its start and the next one's. */
  lemma BatchIsSegment(bs: seq<seq<Request>>, k: nat)
    requires k < |bs|
    ensures Start(bs, k + 1) == Start(bs, k) + |bs[k]| <= |Concat(bs)|
    ensures Concat(bs)[Start(bs, k)..Start(bs, k + 1)] == bs[k]
  {
    assert bs[..k + 1][..k] == bs[..k];
    ConcatSplit(bs[..k + 1], bs[k + 1..]);
    assert bs[..k + 1] + bs[k + 1..] == bs;
  }

  /** A non-empty part of a feasible batch is feasible. */
  lemma PartFits(c: Caps, b: seq<Request>, i: nat, j: nat)
    requires Fits(c, b) && i < j <= |b|
    ensures Fits(c, b[i..j])
  {
    TokensConcat(b[..i], b[i..j]);
    TokensConcat(b[..j], b[j..]);
    assert b[..i] + b[i..j] == b[..j] && b[..j] + b[j..] == b;
  }

  lemma StartAtZero(bs: seq<seq<Request>>)
    ensures Start(bs, 0) == 0
  {
  }

  /** Greedy stays ahead: after k batches a tight cut has covered at least as much of the
      list as any feasible cut of the same list. */
  lemma {:induction false} StaysAhead(c: Caps, greedy: seq<seq<Request>>, other: seq<seq<Request>>, s: seq<Request>,
                                      k: nat)
    requires Cut(c, greedy, s) && Tight(c, greedy) && Cut(c, other, s)
    requires k <= |other| && k <= |greedy|
    ensures Start(greedy, k) >= Start(other, k)
  {
    hide Concat, Fits, Start, Tight;
    if k == 0 {
      StartAtZero(greedy);
      StartAtZero(other);
    } else {
      StaysAhead(c, greedy, other, s, k - 1);
      BatchIsSegment(other, k - 1);
      BatchIsSegment(greedy, k - 1);
      var from, to := Start(greedy, k - 1), Start(greedy, k);
      if to < Start(other, k) {
        NotFull(c, greedy, s, k - 1, from, to);
        SegmentFits(c, other[k - 1], s, Start(other, k - 1), Start(other, k), from, to + 1);
      }
    }
  }

  lemma SegmentFits(c: Caps, b: seq<Request>, s: seq<Request>, lo: nat, hi: nat, i: nat, j: nat)
    requires Fits(c, b) && lo <= i < j <= hi <= |s| && b == s[lo..hi]
    ensures Fits(c, s[i..j])
  {
    PartFits(c, b, i - lo, j - lo);
    hide Fits;
    forall k | 0 <= k < j - i
      ensures b[i - lo..j - lo][k] == s[i..j][k]
    {
      assert b[i - lo + k] == s[i + k];
    }
    assert b[i - lo..j - lo] == s[i..j];
  }

  /** If the list goes on behind batch `k`, that batch plus the next request would not fit. */
  lemma NotFull(c: Caps, greedy: seq<seq<Request>>, s: seq<Request>, k: nat, from: nat, to: nat)
    requires Cut(c, greedy, s) && Tight(c, greedy) && k < |greedy|
    requires from == Start(greedy, k) && to == Start(greedy, k + 1) && from <= to < |s|
    ensures !Fits(c, s[from..to + 1])
  {
    BatchIsSegment(greedy, k);
    assert greedy[..|greedy|] == greedy;
    BatchIsSegment(greedy, k + 1);
    hide Concat, Fits;
    assert greedy[k] == s[from..to];
    assert greedy[k + 1] == s[to..Start(greedy, k + 2)];
    assert greedy[k + 1] != [] && greedy[k + 1][0] == s[to] && !Fits(c, greedy[k] + [greedy[k + 1][0]]);
    assert s[from..to + 1] == s[from..to] + [s[to]];
  }

  lemma StartGrows(c: Caps, bs: seq<seq<Request>>, j: nat, k: nat)
    requires AllFit(c, bs) && j < k <= |bs|
    ensures Start(bs, j) < Start(bs, k)
    decreases k - j
  {
    BatchIsSegment(bs, j);
    assert Fits(c, bs[j]);
    if j + 1 < k {
      StartGrows(c, bs, j + 1, k);
    }
  }

  /** No feasible cut of the sorted list has fewer batches than a tight one. */
  lemma TightCutIsShortest(c: Caps, greedy: seq<seq<Request>>, other: seq<seq<Request>>, s: seq<Request>)
    requires Cut(c, greedy, s) && Tight(c, greedy) && Cut(c, other, s)
    ensures |greedy| <= |other|
  {
    assert other[..|other|] == other && greedy[..|greedy|] == greedy;
    if |other| < |greedy| {
      StaysAhead(c, greedy, other, s, |other|);
      StartGrows(c, greedy, |other|, |greedy|);
    }
  }

  /** And no request sits in a later batch than in any other feasible cut. */
  lemma NobodyWaitsLonger(c: Caps, greedy: seq<seq<Request>>, other: seq<seq<Request>>, s: seq<Request>,
                          i: nat, g: nat, o: nat)
    requires Cut(c, greedy, s) && Tight(c, greedy) && Cut(c, other, s)
    requires g < |greedy| && Start(greedy, g) <= i < Start(greedy, g + 1)
    requires o < |other| && Start(other, o) <= i < Start(other, o + 1)
    ensures g <= o
  {
    if o < g {
      StaysAhead(c, greedy, other, s, o + 1);
      if o + 1 < g {
        StartGrows(c, greedy, o + 1, g);
      }
    }
  }

  /** REALTIME before everybody else, BATCH behind everybody else, and by arrival within a
      class. */
  ghost predicate InServiceOrder(s: seq<Request>) {
    forall i, j :: 0 <= i < j < |s| ==>
      && (s[j].sla.Realtime? ==> s[i].sla.Realtime?)
      && (s[i].sla.Batch? ==> s[j].sla.Batch?)
      && (s[i].sla == s[j].sla ==> s[i].arrival <= s[j].arrival)
  }

  lemma SortServesInOrder(pending: seq<Request>)
    ensures InServiceOrder(StableSort(pending))
  {
    StableSortIsStable(pending);
    var s := StableSort(pending);
    forall i, j | 0 <= i < j < |s|
      ensures s[j].sla.Realtime? ==> s[i].sla.Realtime?
      ensures s[i].sla.Batch? ==> s[j].sla.Batch?
      ensures s[i].sla == s[j].sla ==> s[i].arrival <= s[j].arrival
    {
      assert !Before(s[j], s[i]);
    }
  }

  /** All the tokens that a batch asks for. */
  ghost function TokenLoad(b: seq<Request>): nat {
    if b == [] then 0 else b[0].promptTokens + b[0].maxOutputTokens + TokenLoad(b[1..])
  }

  lemma {:induction false} TokensAreLoad(b: seq<Request>)
    ensures Tokens(b) == TokenLoad(b)
  {
    if b != [] {
      TokensAreLoad(b[1..]);
      TokensConcat([b[0]], b[1..]);
      assert [b[0]] + b[1..] == b && [b[0]][..0] == [];
    }
  }

  /** A batch of several requests keeps both caps, and a batch ends only where the next request
      would break one of them. */
  ghost predicate CapsDecide(c: Caps, bs: seq<seq<Request>>) {
    && (forall k :: 0 <= k < |bs| ==> |bs[k]| == 1 || (1 < |bs[k]| <= c.maxSize && TokenLoad(bs[k]) <= c.maxTokens))
    && (forall k :: 0 < k < |bs| ==>
          |bs[k]| > 0 && (|bs[k - 1]| >= c.maxSize ||
                          TokenLoad(bs[k - 1]) + bs[k][0].promptTokens + bs[k][0].maxOutputTokens > c.maxTokens))
  }

  lemma TightCutsFollowCaps(c: Caps, bs: seq<seq<Request>>)
    requires AllFit(c, bs) && Tight(c, bs)
    ensures CapsDecide(c, bs)
  {
    hide Tokens, TokenLoad;
    forall k | 0 <= k < |bs|
      ensures |bs[k]| == 1 || (1 < |bs[k]| <= c.maxSize && TokenLoad(bs[k]) <= c.maxTokens)
    {
      assert Fits(c, bs[k]);
      TokensAreLoad(bs[k]);
    }
    forall k | 0 < k < |bs|
      ensures |bs[k]| > 0
      ensures |bs[k - 1]| >= c.maxSize ||
              TokenLoad(bs[k - 1]) + bs[k][0].promptTokens + bs[k][0].maxOutputTokens > c.maxTokens
    {
      assert Fits(c, bs[k - 1]) && !Fits(c, bs[k - 1] + [bs[k][0]]);
      TokensAreLoad(bs[k - 1]);
      TokensAppend(bs[k - 1], bs[k][0]);
    }
  }

  lemma TightCutsAreOptimal(c: Caps, batches: seq<seq<Request>>, pending: seq<Request>)
    requires Cut(c, batches, StableSort(pending)) && Tight(c, batches)
    ensures multiset(Concat(batches)) == multiset(pending)
    ensures forall other :: Cut(c, other, StableSort(pending)) ==> |batches| <= |other|
  {
    StableSortIsStable(pending);
    forall other | Cut(c, other, StableSort(pending))
      ensures |batches| <= |other|
    {
      TightCutIsShortest(c, batches, other, StableSort(pending));
    }
  }

  lemma TightCutsServe(c: Caps, batches: seq<seq<Request>>, pending: seq<Request>)
    requires Cut(c, batches, StableSort(pending)) && Tight(c, batches)
    ensures multiset(Concat(batches)) == multiset(pending)
    ensures forall other :: Cut(c, other, StableSort(pending)) ==> |batches| <= |other|
    ensures InServiceOrder(Concat(batches)) && CapsDecide(c, batches)
  {
    hide InServiceOrder, CapsDecide, AllFit, Tight, StableSort;
    SortServesInOrder(pending);
    TightCutsAreOptimal(c, batches, pending);
    TightCutsFollowCaps(c, batches);
  }

  /** form_batches: the loop builds a tight feasible cut of the stably sorted list, no feasible
      contiguous cut of that list has fewer batches, and the batches serve REALTIME first and
      BATCH last, each class by arrival. */
  method FormBatches(c: Caps, pending: seq<Request>) returns (batches: seq<seq<Request>>)
    ensures Cut(c, batches, StableSort(pending)) && Tight(c, batches)
    ensures multiset(Concat(batches)) == multiset(pending)
    ensures forall other :: Cut(c, other, StableSort(pending)) ==> |batches| <= |other|
    ensures InServiceOrder(Concat(batches)) && CapsDecide(c, batches)
  {
    batches := [];
    BuildingNone(c);
    if pending == [] {
      TightCutsServe(c, batches, pending);
      return;
    }
    hide Building, Concat, Cut, Tight, Tokens, StableSort, InServiceOrder, CapsDecide;
    var sorted := StableSort(pending);
    var current: seq<Request> := [];
    var currentTokens := 0;
    for i := 0 to |sorted|
      invariant Building(c, batches, current, sorted[..i])
      invariant currentTokens == Tokens(current)
    {
      var req := sorted[i];
      assert sorted[..i + 1] == sorted[..i] + [req];
      TokensAppend(current, req);
      Singles(c, req);
      if |current| >= c.maxSize || currentTokens + req.Tokens() > c.maxTokens {
        if current == [] {
          First(c, batches, sorted[..i], req);
        } else {
          Flush(c, batches, current, sorted[..i], req);
          batches := batches + [current];
        }
        current := [req];
        currentTokens := req.Tokens();
      } else {
        Grow(c, batches, current, sorted[..i], req);
        current := current + [req];
        currentTokens := currentTokens + req.Tokens();
      }
    }
    assert sorted[..|sorted|] == sorted;
    Built(c, batches, current, sorted);
    if current != [] {
      batches := batches + [current];
    }
    TightCutsServe(c, batches, pending);
  }

  // ---------------------------------------------- bounds over any grouping

  /** Tokens with each request capped at the token cap. */
  function Weight(c: Caps, b: seq<Request>): int {
    if b == [] then 0 else Weight(c, b[..|b| - 1]) + Min(b[|b| - 1].Tokens(), c.maxTokens)
  }

  lemma {:induction false} WeightConcat(c: Caps, a: seq<Request>, b: seq<Request>)
    ensures Weight(c, a + b) == Weight(c, a) + Weight(c, b)
  {
    if b == [] {
      assert a + b == a;
    } else {
      WeightConcat(c, a, b[..|b| - 1]);
      assert (a + b)[..|a + b| - 1] == a + b[..|b| - 1];
    }
  }

  lemma {:induction false} WeightBounds(c: Caps, b: seq<Request>)
    requires c.maxTokens >= 0
    ensures 0 <= Weight(c, b) <= Tokens(b)
    ensures Weight(c, b) >= Min(Tokens(b), c.maxTokens)
  {
    if b != [] {
      WeightBounds(c, b[..|b| - 1]);
    }
  }

  lemma FitsWeight(c: Caps, b: seq<Request>)
    requires Fits(c, b) && c.maxTokens >= 0 && c.maxSize >= 1
    ensures Weight(c, b) <= c.maxTokens && |b| <= c.maxSize
  {
    WeightBounds(c, b);
    if |b| == 1 {
      assert b[..0] == [];
    }
  }

  lemma ConcatCons(b: seq<Request>, rest: seq<seq<Request>>)
    ensures Concat([b] + rest) == b + Concat(rest)
  {
    ConcatSplit([b], rest);
    ConcatSnoc([], b);
    assert [] + [b] == [b];
    assert Concat([]) == [] && [] + b == b;
  }

  /** Every batch of a tight cut but the last is either full, or heavy together with the next. */
  lemma {:induction false} TightCount(c: Caps, bs: seq<seq<Request>>) returns (full: nat, heavy: nat)
    requires c.maxSize >= 1 && c.maxTokens >= 1
    requires bs != [] && AllFit(c, bs) && Tight(c, bs)
    ensures |bs| == 1 + full + heavy
    ensures full * c.maxSize <= |Concat(bs)|
    ensures heavy * c.maxTokens + Weight(c, bs[0]) <= 2 * Weight(c, Concat(bs))
    decreases |bs|
  {
    var rest := bs[1..];
    assert bs == [bs[0]] + rest;
    ConcatCons(bs[0], rest);
    WeightConcat(c, bs[0], Concat(rest));
    WeightBounds(c, bs[0]);
    if rest == [] {
      full, heavy := 0, 0;
      assert Concat(rest) == [] && Weight(c, []) == 0;
    } else {
      TightTail(c, bs);
      full, heavy := TightCount(c, rest);
      full, heavy := CountOneMore(c, bs[0], rest[0], full, heavy, |Concat(rest)|, Weight(c, Concat(rest)));
    }
  }

  lemma TightTail(c: Caps, bs: seq<seq<Request>>)
    requires |bs| >= 2 && AllFit(c, bs) && Tight(c, bs)
    ensures AllFit(c, bs[1..]) && Tight(c, bs[1..]) && bs[1] != [] && !Fits(c, bs[0] + [bs[1][0]])
  {
    hide Fits;
    assert forall k :: 0 <= k < |bs[1..]| ==> bs[1..][k] == bs[k + 1];
  }

  lemma CountOneMore(c: Caps, b: seq<Request>, next: seq<Request>, full: nat, heavy: nat, n: nat, w: int)
    returns (full': nat, heavy': nat)
    requires c.maxSize >= 1 && c.maxTokens >= 1 && b != [] && next != [] && !Fits(c, b + [next[0]])
    requires full * c.maxSize <= n && heavy * c.maxTokens + Weight(c, next) <= 2 * w
    ensures full' + heavy' == full + heavy + 1
    ensures full' * c.maxSize <= |b| + n
    ensures heavy' * c.maxTokens + Weight(c, b) <= 2 * (Weight(c, b) + w)
  {
    var x := next[0];
    TokensAppend(b, x);
    WeightBounds(c, b);
    WeightBounds(c, next);
    FirstWeight(c, next);
    full', heavy' := full, heavy;
    if |b| >= c.maxSize {
      full' := full + 1;
      assert full' * c.maxSize == full * c.maxSize + c.maxSize;
    } else {
      heavy' := heavy + 1;
      assert heavy' * c.maxTokens == heavy * c.maxTokens + c.maxTokens;
    }
  }

  lemma FirstWeight(c: Caps, b: seq<Request>)
    requires b != [] && c.maxTokens >= 0
    ensures Weight(c, b) >= Min(b[0].Tokens(), c.maxTokens)
  {
    WeightConcat(c, [b[0]], b[1..]);
    assert [b[0]] + b[1..] == b;
    Singles(c, b[0]);
    WeightBounds(c, b[1..]);
  }

  lemma MulMonotone(a: int, b: int, d: nat)
    ensures a <= b ==> a * d <= b * d
  {
  }

  lemma DivBound(n: nat, d: nat, t: nat)
    requires d >= 1 && n * d <= t
    ensures n <= t / d
  {
    MulMonotone(t / d + 1, n, d);
  }

  /** The number of batches, in terms of the load alone. */
  lemma BatchCountBound(c: Caps, bs: seq<seq<Request>>, s: seq<Request>)
    requires c.maxSize >= 1 && c.maxTokens >= 1
    requires Cut(c, bs, s) && Tight(c, bs)
    ensures |bs| <= 1 + |s| / c.maxSize + 2 * Tokens(s) / c.maxTokens
  {
    if bs != [] {
      var full, heavy := TightCount(c, bs);
      WeightBounds(c, bs[0]);
      WeightBounds(c, s);
      DivBound(full, c.maxSize, |s|);
      DivBound(heavy, c.maxTokens, 2 * Tokens(s));
    }
  }

  lemma {:induction false} WeightPermutes(c: Caps, a: seq<Request>, b: seq<Request>)
    requires multiset(a) == multiset(b)
    ensures Weight(c, a) == Weight(c, b) && |a| == |b|
    decreases |a|
  {
    assert |a| == |multiset(a)| == |multiset(b)| == |b|;
    if a != [] {
      var n := |a| - 1;
      assert a == a[..n] + [a[n]];
      assert a[n] in multiset(b);
      var i :| 0 <= i < |b| && b[i] == a[n];
      WithoutOne(c, b, i);
      assert multiset(a[..n]) == multiset(a) - multiset{a[n]};
      WeightPermutes(c, a[..n], b[..i] + b[i + 1..]);
    }
  }

  lemma WithoutOne(c: Caps, b: seq<Request>, i: nat)
    requires i < |b|
    ensures Weight(c, b) == Weight(c, b[..i] + b[i + 1..]) + Min(b[i].Tokens(), c.maxTokens)
    ensures multiset(b[..i] + b[i + 1..]) == multiset(b) - multiset{b[i]}
  {
    var l, r := b[..i], b[i + 1..];
    hide Weight;
    WeightConcat(c, l, r);
    WeightConcat(c, l + [b[i]], r);
    WeightConcat(c, l, [b[i]]);
    Singles(c, b[i]);
    assert b == l + [b[i]] + r;
  }

  lemma {:induction false} GroupingLoad(c: Caps, bs: seq<seq<Request>>)
    requires AllFit(c, bs) && c.maxTokens >= 0 && c.maxSize >= 1
    ensures Weight(c, Concat(bs)) <= |bs| * c.maxTokens && |Concat(bs)| <= |bs| * c.maxSize
  {
    if bs != [] {
      var n := |bs| - 1;
      GroupingLoad(c, bs[..n]);
      FitsWeight(c, bs[n]);
      WeightConcat(c, Concat(bs[..n]), bs[n]);
      hide Weight, Fits;
      assert |bs| * c.maxTokens == n * c.maxTokens + c.maxTokens;
      assert |bs| * c.maxSize == n * c.maxSize + c.maxSize;
    }
  }

  lemma CancelFactor(a: nat, b: nat, d: nat)
    requires d >= 1 && a * d <= b * d
    ensures a <= b
  {
    MulMonotone(b + 1, a, d);
  }

  /** Against groupings in any order, contiguous or not, the greedy cut needs at most three
      times as many batches, plus one. */
  lemma AnyGroupingBound(c: Caps, bs: seq<seq<Request>>, groups: seq<seq<Request>>)
    requires c.maxSize >= 1 && c.maxTokens >= 1
    requires AllFit(c, bs) && Tight(c, bs) && AllFit(c, groups)
    requires multiset(Concat(groups)) == multiset(Concat(bs))
    ensures |bs| <= 1 + 3 * |groups|
  {
    if bs != [] {
      var full, heavy := TightCount(c, bs);
      WeightPermutes(c, Concat(groups), Concat(bs));
      GroupingLoad(c, groups);
      WeightBounds(c, bs[0]);
      hide *;
      BoundByGroups(c.maxSize, c.maxTokens, full, heavy, |groups|, |Concat(bs)|, Weight(c, Concat(bs)));
    }
  }

  lemma BoundByGroups(size: nat, tokens: nat, full: nat, heavy: nat, m: nat, n: nat, w: int)
    requires size >= 1 && tokens >= 1
    requires full * size <= n <= m * size && heavy * tokens <= 2 * w && w <= m * tokens
    ensures full <= m && heavy <= 2 * m
  {
    CancelFactor(full, m, size);
    assert (2 * m) * tokens == 2 * (m * tokens);
    CancelFactor(heavy, 2 * m, tokens);
  }
}
