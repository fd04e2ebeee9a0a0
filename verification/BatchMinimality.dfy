/** When the batches of form_batches are minimal among all groupings of the pending requests,
    contiguous or not, and when they are not. */
module BatchMinimality {
  import opened Models
  import opened BatchOptimizers

  // -------------------------------------------- when the count decides what fits

  ghost predicate TokensBetween(b: seq<Request>, least: nat, most: nat) {
    forall i :: 0 <= i < |b| ==> least <= b[i].Tokens() <= most
  }

  /** When token counts lie between `least` and `most`: any k requests fit together, and no
      k + 1 do.  For k == maxSize this says maxSize * most <= maxTokens; for k == 1, that any
      two requests are too much. */
  predicate CountDecides(c: Caps, k: nat, least: nat, most: nat) {
    && k >= 1
    && (k == 1 || (k <= c.maxSize && k * most <= c.maxTokens))
    && (k >= c.maxSize || (k + 1) * least > c.maxTokens)
  }

  lemma {:induction false} TokensRange(b: seq<Request>, least: nat, most: nat)
    requires TokensBetween(b, least, most)
    ensures Times(|b|, least) <= Tokens(b) <= Times(|b|, most)
  {
    hide Times;
    if b == [] {
      OneMore(0, least);
      OneMore(0, most);
    } else {
      TokensRange(b[..|b| - 1], least, most);
      OneMore(|b| - 1, least);
      OneMore(|b| - 1, most);
    }
  }

  lemma FitsByCount(c: Caps, k: nat, least: nat, most: nat, b: seq<Request>)
    requires CountDecides(c, k, least, most) && TokensBetween(b, least, most)
    ensures Fits(c, b) <==> 1 <= |b| <= k
  {
    TokensRange(b, least, most);
    TimesMonotone(|b|, k, most);
    TimesMonotone(k + 1, |b|, least);
    assert Times(k, most) == k * most && Times(k + 1, least) == (k + 1) * least;
    hide Times, Tokens, TokensBetween;
  }

  lemma {:induction false} EachBetween(bs: seq<seq<Request>>, least: nat, most: nat)
    requires TokensBetween(Concat(bs), least, most)
    ensures forall i :: 0 <= i < |bs| ==> TokensBetween(bs[i], least, most)
  {
    if bs != [] {
      var n := |bs| - 1;
      PartsBetween(Concat(bs[..n]), bs[n], least, most);
      EachBetween(bs[..n], least, most);
      assert forall i :: 0 <= i < n ==> bs[..n][i] == bs[i];
    }
  }

  lemma PartsBetween(a: seq<Request>, b: seq<Request>, least: nat, most: nat)
    requires TokensBetween(a + b, least, most)
    ensures TokensBetween(a, least, most) && TokensBetween(b, least, most)
  {
    assert forall i :: 0 <= i < |a| ==> (a + b)[i] == a[i];
    assert forall i :: 0 <= i < |b| ==> (a + b)[|a| + i] == b[i];
  }

  lemma {:induction false} HoldsAtMost(bs: seq<seq<Request>>, k: nat)
    requires forall i :: 0 <= i < |bs| ==> |bs[i]| <= k
    ensures |Concat(bs)| <= Times(|bs|, k)
  {
    hide Times;
    if bs != [] {
      HoldsAtMost(bs[..|bs| - 1], k);
      OneMore(|bs| - 1, k);
    }
  }

  lemma {:induction false} HoldsAtLeast(bs: seq<seq<Request>>, k: nat)
    requires forall i :: 0 <= i < |bs| ==> |bs[i]| >= k
    ensures |Concat(bs)| >= Times(|bs|, k)
  {
    hide Times;
    if bs == [] {
      OneMore(0, k);
    } else {
      HoldsAtLeast(bs[..|bs| - 1], k);
      OneMore(|bs| - 1, k);
    }
  }

  /** All batches of a tight cut before the last are full. */
  lemma FullBefore(c: Caps, k: nat, least: nat, most: nat, bs: seq<seq<Request>>, i: nat)
    requires CountDecides(c, k, least, most) && AllFit(c, bs) && Tight(c, bs) && i + 1 < |bs|
    requires TokensBetween(bs[i], least, most) && TokensBetween(bs[i + 1], least, most)
    ensures |bs[i]| >= k
  {
    var next := bs[i + 1];
    assert next != [] && !Fits(c, bs[i + 1 - 1] + [next[0]]);
    hide Fits, CountDecides, Tight;
    assert TokensBetween(bs[i] + [next[0]], least, most);
    FitsByCount(c, k, least, most, bs[i] + [next[0]]);
  }

  lemma TightHoldsMost(c: Caps, k: nat, least: nat, most: nat, bs: seq<seq<Request>>)
    requires CountDecides(c, k, least, most) && AllFit(c, bs) && Tight(c, bs) && bs != []
    requires TokensBetween(Concat(bs), least, most)
    ensures |Concat(bs)| > Times(|bs| - 1, k)
  {
    var n := |bs| - 1;
    EachBetween(bs, least, most);
    assert Fits(c, bs[n]);
    hide Fits, CountDecides, Tight, TokensBetween, Times, AllFit;
    forall i | 0 <= i < n
      ensures |bs[..n][i]| >= k
    {
      FullBefore(c, k, least, most, bs, i);
    }
    HoldsAtLeast(bs[..n], k);
    FitsNotEmpty(c, bs[n]);
  }

  lemma FitsNotEmpty(c: Caps, b: seq<Request>)
    requires Fits(c, b)
    ensures b != []
  {
  }

  lemma GroupsHoldAtMost(c: Caps, k: nat, least: nat, most: nat, groups: seq<seq<Request>>)
    requires CountDecides(c, k, least, most) && AllFit(c, groups) && TokensBetween(Concat(groups), least, most)
    ensures |Concat(groups)| <= Times(|groups|, k)
  {
    EachBetween(groups, least, most);
    forall i | 0 <= i < |groups|
      ensures |groups[i]| <= k
    {
      FitsByCount(c, k, least, most, groups[i]);
    }
    HoldsAtMost(groups, k);
  }

  /** Whenever the number of requests decides what fits, form_batches is minimal among all
      groupings of the pending requests, contiguous or not: it forms the least number of
      batches that can hold them, k at a time. */
  lemma CountDecidesOptimal(c: Caps, k: nat, least: nat, most: nat, pending: seq<Request>,
                            batches: seq<seq<Request>>, groups: seq<seq<Request>>)
    requires CountDecides(c, k, least, most) && TokensBetween(pending, least, most)
    requires Cut(c, batches, StableSort(pending)) && Tight(c, batches)
    requires AllFit(c, groups) && multiset(Concat(groups)) == multiset(pending)
    ensures |batches| <= |groups|
    ensures |pending| <= Times(|batches|, k) && (batches != [] ==> |pending| > Times(|batches| - 1, k))
  {
    StableSortIsStable(pending);
    hide CountDecides, TokensBetween, StableSort, Tight, Times, Concat, AllFit;
    SameElementsBetween(pending, Concat(batches), least, most);
    SameElementsBetween(pending, Concat(groups), least, most);
    GroupsHoldAtMost(c, k, least, most, batches);
    GroupsHoldAtMost(c, k, least, most, groups);
    if batches != [] {
      TightHoldsMost(c, k, least, most, batches);
      TimesMonotone(|groups|, |batches| - 1, k);
    }
  }

  lemma SameElementsBetween(a: seq<Request>, b: seq<Request>, least: nat, most: nat)
    requires multiset(a) == multiset(b) && TokensBetween(a, least, most)
    ensures TokensBetween(b, least, most) && |a| == |b|
  {
    assert |a| == |multiset(a)| == |multiset(b)| == |b|;
    forall i | 0 <= i < |b|
      ensures least <= b[i].Tokens() <= most
    {
      assert b[i] in multiset(b);
      assert b[i] in multiset(a);
    }
  }

  /** So it is when the token cap never binds before the size cap. */
  lemma SmallLoadsOptimal(c: Caps, most: nat, pending: seq<Request>, batches: seq<seq<Request>>,
                          groups: seq<seq<Request>>)
    requires c.maxSize >= 1 && c.maxSize * most <= c.maxTokens && TokensBetween(pending, 0, most)
    requires Cut(c, batches, StableSort(pending)) && Tight(c, batches)
    requires AllFit(c, groups) && multiset(Concat(groups)) == multiset(pending)
    ensures |batches| <= |groups|
  {
    CountDecidesOptimal(c, c.maxSize, 0, most, pending, batches, groups);
  }

  /** And when all requests have the same number of tokens, whatever the caps. */
  lemma EqualLoadsOptimal(c: Caps, tokens: nat, pending: seq<Request>, batches: seq<seq<Request>>,
                          groups: seq<seq<Request>>)
    requires TokensBetween(pending, tokens, tokens)
    requires Cut(c, batches, StableSort(pending)) && Tight(c, batches)
    requires AllFit(c, groups) && multiset(Concat(groups)) == multiset(pending)
    ensures |batches| <= |groups|
  {
    var k := EqualLoadsDecide(c, tokens);
    CountDecidesOptimal(c, k, tokens, tokens, pending, batches, groups);
  }

  lemma EqualLoadsDecide(c: Caps, tokens: nat) returns (k: nat)
    ensures CountDecides(c, k, tokens, tokens)
  {
    if c.maxSize <= 1 || 2 * tokens > c.maxTokens {
      k := 1;
    } else if tokens == 0 || c.maxTokens / tokens >= c.maxSize {
      k := c.maxSize;
      if tokens > 0 {
        MulMonotone(k, c.maxTokens / tokens, tokens);
      }
    } else {
      k := c.maxTokens / tokens;
      assert k * tokens <= c.maxTokens < (k + 1) * tokens;
      assert k >= 2;
    }
  }

  /** Without such a condition it is not: whenever three requests of one class arrive in turn,
      the first fits with the third but the second with neither, form_batches takes three
      batches where two would do. */
  lemma MiddleBlocks(c: Caps, a: Request, b: Request, d: Request, batches: seq<seq<Request>>)
    requires a.sla == b.sla == d.sla && a.arrival <= b.arrival <= d.arrival
    requires Fits(c, [a, d]) && !Fits(c, [a, b]) && !Fits(c, [b, d])
    requires Cut(c, batches, StableSort([a, b, d])) && Tight(c, batches)
    ensures var groups := [[a, d], [b]];
            AllFit(c, groups) && multiset(Concat(groups)) == multiset([a, b, d]) && |groups| < |batches|
  {
    hide *;
    SortedTriple(a, b, d);
    SinglesTight(c, a, b, d);
    ConcatOfSingles(a, b, d);
    ConcatOfPair(a, d, b);
    SinglesAreLongest(c, a, b, d, batches);
    assert multiset([a, d, b]) == multiset([a, b, d]);
  }

  lemma SinglesAreLongest(c: Caps, a: Request, b: Request, d: Request, batches: seq<seq<Request>>)
    requires !Fits(c, [a, b]) && !Fits(c, [b, d]) && Cut(c, batches, [a, b, d])
    ensures |batches| >= 3
  {
    SinglesTight(c, a, b, d);
    ConcatOfSingles(a, b, d);
    hide AllFit, Tight, Fits, Concat;
    assert Cut(c, [[a], [b], [d]], [a, b, d]);
    TightCutIsShortest(c, [[a], [b], [d]], batches, [a, b, d]);
  }

  /** Such requests exist: with a cap of four tokens, loads 2, 3, 2 in arrival order. */
  lemma ReorderingCanBeat() returns (c: Caps, pending: seq<Request>, groups: seq<seq<Request>>)
    ensures c.maxSize >= 1 && c.maxTokens >= 1
    ensures AllFit(c, groups) && multiset(Concat(groups)) == multiset(pending)
    ensures forall batches :: Cut(c, batches, StableSort(pending)) && Tight(c, batches) ==> |groups| < |batches|
  {
    c := Caps(64, 4);
    var a := Request("a", 1, 1, Interactive, 0.0, None);
    var b := Request("b", 2, 1, Interactive, 1.0, None);
    var d := Request("d", 1, 1, Interactive, 2.0, None);
    pending := [a, b, d];
    groups := [[a, d], [b]];
    TokensOfTwo(a, d);
    TokensOfTwo(a, b);
    TokensOfTwo(b, d);
    ConcatOfPair(a, d, b);
    Singles(c, b);
    assert Fits(c, [a, d]) && !Fits(c, [a, b]) && !Fits(c, [b, d]);
    SinglesTight(c, a, b, d);
    hide *;
    forall batches | Cut(c, batches, StableSort(pending)) && Tight(c, batches)
      ensures |groups| < |batches|
    {
      MiddleBlocks(c, a, b, d, batches);
    }
    assert multiset([a, d, b]) == multiset([a, b, d]);
  }

  lemma SinglesTight(c: Caps, a: Request, b: Request, d: Request)
    requires !Fits(c, [a, b]) && !Fits(c, [b, d])
    ensures AllFit(c, [[a], [b], [d]]) && Tight(c, [[a], [b], [d]]) && Fits(c, [b])
    ensures Fits(c, [a, d]) ==> AllFit(c, [[a, d], [b]])
  {
    assert [a] + [b] == [a, b] && [b] + [d] == [b, d];
  }

  lemma SortedTriple(a: Request, b: Request, d: Request)
    requires a.sla == b.sla == d.sla && a.arrival <= b.arrival <= d.arrival
    ensures StableSort([a, b, d]) == [a, b, d]
  {
    assert [a][..0] == [] && [a, b][..1] == [a] && [a, b, d][..2] == [a, b];
    assert StableSort([a]) == [a];
    assert StableSort([a, b]) == [a, b];
  }

  lemma ConcatOfPair(a: Request, d: Request, b: Request)
    ensures Concat([[a, d], [b]]) == [a, d, b]
  {
    ConcatSnoc([[a, d]], [b]);
    ConcatSnoc([], [a, d]);
    assert [] + [[a, d]] == [[a, d]] && [[a, d]] + [[b]] == [[a, d], [b]];
  }

  lemma TokensOfTwo(a: Request, b: Request)
    ensures Tokens([a, b]) == a.Tokens() + b.Tokens()
  {
    TokensAppend([a], b);
    TokensAppend([], a);
    assert [] + [a] == [a] && [a] + [b] == [a, b];
  }

  lemma ConcatOfSingles(a: Request, b: Request, d: Request)
    ensures Concat([[a], [b], [d]]) == [a, b, d]
  {
    ConcatSnoc([[a], [b]], [d]);
    ConcatSnoc([[a]], [b]);
    ConcatSnoc([], [a]);
    assert [] + [[a]] == [[a]] && [[a]] + [[b]] == [[a], [b]] && [[a], [b]] + [[d]] == [[a], [b], [d]];
  }

  // ------------------------------------------------------- exactly when it is so

  /** form_batches is minimal for every list of requests with token counts in the range. */
  ghost predicate AlwaysMinimal(c: Caps, least: nat, most: nat) {
    forall pending, batches, groups ::
      TokensBetween(pending, least, most) && Formed(c, pending, batches) && Grouped(c, pending, groups) ==>
      |batches| <= |groups|
  }

  /** What form_batches returns (and nothing else of another length, as all such cuts are shortest). */
  ghost predicate Formed(c: Caps, pending: seq<Request>, batches: seq<seq<Request>>) {
    Cut(c, batches, StableSort(pending)) && Tight(c, batches)
  }

  ghost predicate Grouped(c: Caps, pending: seq<Request>, groups: seq<seq<Request>>) {
    AllFit(c, groups) && multiset(Concat(groups)) == multiset(pending)
  }

  function Load(tokens: nat): Request {
    Request("", tokens, 0, Batch, 0.0, None)
  }

  function Copies(tokens: nat, n: nat): (s: seq<Request>)
    ensures |s| == n && forall i :: 0 <= i < n ==> s[i] == Load(tokens)
  {
    seq(n, i => Load(tokens))
  }

  lemma {:induction false} AlreadySorted(s: seq<Request>)
    requires forall i :: 0 <= i < |s| ==> s[i].sla.Batch? && s[i].arrival == 0.0
    ensures StableSort(s) == s
  {
    if s != [] {
      AlreadySorted(s[..|s| - 1]);
      assert s == s[..|s| - 1] + [s[|s| - 1]];
    }
  }

  lemma {:induction false} CopiesTokens(tokens: nat, n: nat)
    ensures Tokens(Copies(tokens, n)) == Times(n, tokens)
  {
    hide Times;
    if n == 0 {
      OneMore(0, tokens);
    } else {
      CopiesTokens(tokens, n - 1);
      assert Copies(tokens, n)[..n - 1] == Copies(tokens, n - 1);
      OneMore(n - 1, tokens);
    }
  }

  /** No batch in the range holds more than `n`. */
  ghost predicate AtMost(c: Caps, n: nat, least: nat) {
    n >= 2 && n <= c.maxSize && (n >= c.maxSize || (n + 1) * least > c.maxTokens)
  }

  lemma FitsAtMost(c: Caps, n: nat, least: nat, most: nat, b: seq<Request>)
    requires AtMost(c, n, least) && TokensBetween(b, least, most) && Fits(c, b)
    ensures |b| <= n
  {
    TokensRange(b, least, most);
    TimesMonotone(n + 1, |b|, least);
  }

  /** A tight cut of any list: what the loop builds. */
  lemma {:induction false} SomeTightCut(c: Caps, s: seq<Request>)
    returns (batches: seq<seq<Request>>, current: seq<Request>)
    ensures Building(c, batches, current, s)
  {
    if s == [] {
      BuildingNone(c);
      batches, current := [], [];
    } else {
      var n := |s| - 1;
      var req := s[n];
      batches, current := SomeTightCut(c, s[..n]);
      assert s == s[..n] + [req];
      hide Building;
      if current == [] {
        First(c, batches, s[..n], req);
        current := [req];
      } else if Fits(c, current + [req]) {
        Grow(c, batches, current, s[..n], req);
        current := current + [req];
      } else {
        Flush(c, batches, current, s[..n], req);
        batches, current := batches + [current], [req];
      }
    }
  }

  lemma FormedExists(c: Caps, pending: seq<Request>) returns (batches: seq<seq<Request>>)
    ensures Formed(c, pending, batches)
  {
    var bs, current := SomeTightCut(c, StableSort(pending));
    Built(c, bs, current, StableSort(pending));
    batches := if current != [] then bs + [current] else bs;
  }

  /** Two batches cannot hold a list whose first n requests do not fit together and whose last
      n neither, or which is as long as two full batches. */
  lemma NeedsThree(c: Caps, n: nat, least: nat, most: nat, s: seq<Request>, batches: seq<seq<Request>>)
    requires AtMost(c, n, least) && TokensBetween(s, least, most) && Cut(c, batches, s)
    requires |s| > n && !Fits(c, s[..n])
    requires |s| >= 2 * n || !Fits(c, s[n - 1..])
    ensures |batches| >= 3
  {
    EachBetween(batches, least, most);
    forall i | 0 <= i < |batches|
      ensures Fits(c, batches[i]) && |batches[i]| <= n
    {
      FitsAtMost(c, n, least, most, batches[i]);
    }
    hide Fits, TokensBetween, AtMost, Concat;
    if |batches| <= 2 {
      ShortConcat(batches);
      if |batches| == 2 {
        NotTwo(c, n, s, batches[0], batches[1]);
      }
    }
  }

  lemma NotTwo(c: Caps, n: nat, s: seq<Request>, a: seq<Request>, b: seq<Request>)
    requires n >= 1 && |s| > n && s == a + b && Fits(c, a) && |a| <= n && |b| <= n && !Fits(c, s[..n])
    requires |s| >= 2 * n || !Fits(c, s[n - 1..])
    ensures !Fits(c, b)
  {
    hide Fits;
    assert s[..|a|] == a;
    if |a| < n {
      assert b[n - 1 - |a|..|b|] == s[n - 1..];
      if Fits(c, b) {
        PartFits(c, b, n - 1 - |a|, |b|);
      }
    }
  }

  lemma ShortConcat(bs: seq<seq<Request>>)
    requires |bs| <= 2
    ensures |bs| == 0 ==> Concat(bs) == []
    ensures |bs| == 1 ==> Concat(bs) == bs[0]
    ensures |bs| == 2 ==> Concat(bs) == bs[0] + bs[1]
  {
    if |bs| > 0 {
      assert bs == bs[..|bs| - 1] + [bs[|bs| - 1]];
      ConcatSnoc(bs[..|bs| - 1], bs[|bs| - 1]);
    }
    if |bs| == 2 {
      ShortConcat(bs[..1]);
    }
  }

  lemma ConcatTwo(a: seq<Request>, b: seq<Request>)
    ensures Concat([a, b]) == a + b
  {
    ShortConcat([a, b]);
  }

  lemma TwoKinds(x: nat, i: nat, y: nat, j: nat)
    ensures var s := Copies(x, i) + Copies(y, j);
            && Tokens(s) == Times(i, x) + Times(j, y)
            && (forall k :: 0 <= k < |s| ==> s[k].sla.Batch? && s[k].arrival == 0.0)
            && (forall k :: 0 <= k < |s| ==> s[k].Tokens() == x || s[k].Tokens() == y)
  {
    TokensConcat(Copies(x, i), Copies(y, j));
    CopiesTokens(x, i);
    CopiesTokens(y, j);
  }

  lemma CopiesSplit(x: nat, i: nat, j: nat)
    ensures Copies(x, i + j) == Copies(x, i) + Copies(x, j)
  {
  }

  lemma RangeOfTwo(s: seq<Request>, x: nat, y: nat, least: nat, most: nat)
    requires forall k :: 0 <= k < |s| ==> s[k].Tokens() == x || s[k].Tokens() == y
    requires least <= x <= most && least <= y <= most
    ensures TokensBetween(s, least, most)
  {
  }

  lemma PairOfGroups(c: Caps, a: seq<Request>, b: seq<Request>, pending: seq<Request>)
    requires Fits(c, a) && Fits(c, b) && multiset(pending) == multiset(a) + multiset(b)
    ensures Grouped(c, pending, [a, b])
  {
    ConcatTwo(a, b);
    assert multiset(a + b) == multiset(a) + multiset(b);
    hide Concat, Fits;
  }

  lemma ShuffledPairs(a: seq<Request>, b: seq<Request>)
    ensures multiset((a + a) + (b + b)) == multiset(a + b) + multiset(a + b)
  {
  }

  /** Two groups with j large and n - j small requests each fit, but the large ones come first,
      and j + 1 of them with n - j - 1 small ones do not. */
  lemma SplitCase(c: Caps, n: nat, least: nat, most: nat, v: nat, j: nat)
    returns (pending: seq<Request>, groups: seq<seq<Request>>)
    requires AtMost(c, n, least) && least < v <= most && 1 <= j < n
    requires Times(j, v) + Times(n - j, least) <= c.maxTokens < Times(j + 1, v) + Times(n - j - 1, least)
    ensures TokensBetween(pending, least, most) && Grouped(c, pending, groups) && |groups| == 2
    ensures StableSort(pending) == pending && |pending| == 2 * n && !Fits(c, pending[..n])
  {
    hide *;
    var group := Copies(v, j) + Copies(least, n - j);
    pending := Copies(v, j + j) + Copies(least, (n - j) + (n - j));
    groups := [group, group];
    TwoKinds(v, j + j, least, (n - j) + (n - j));
    RangeOfTwo(pending, v, least, least, most);
    AlreadySorted(pending);
    CopiesSplit(v, j, j);
    CopiesSplit(least, n - j, n - j);
    ShuffledPairs(Copies(v, j), Copies(least, n - j));
    GroupFits(c, n, least, v, j);
    PairOfGroups(c, group, group, pending);
    PrefixTooMuch(c, n, least, v, j, pending);
  }

  lemma GroupFits(c: Caps, n: nat, least: nat, v: nat, j: nat)
    requires AtMost(c, n, least) && j <= n && Times(j, v) + Times(n - j, least) <= c.maxTokens
    ensures Fits(c, Copies(v, j) + Copies(least, n - j))
  {
    TwoKinds(v, j, least, n - j);
  }

  lemma PrefixTooMuch(c: Caps, n: nat, least: nat, v: nat, j: nat, pending: seq<Request>)
    requires AtMost(c, n, least) && least < v && 1 <= j < n
    requires c.maxTokens < Times(j + 1, v) + Times(n - j - 1, least)
    requires pending == Copies(v, j + j) + Copies(least, (n - j) + (n - j))
    ensures !Fits(c, pending[..n])
  {
    hide Times, Tokens, Copies;
    var i := if j + j <= n then j + j else n;
    PrefixOfTwo(v, j + j, least, (n - j) + (n - j), n, i);
    TwoKinds(v, i, least, n - i);
    MoreLarge(n, least, v, j + 1, i);
  }

  lemma PrefixOfTwo(x: nat, a: nat, y: nat, b: nat, n: nat, i: nat)
    requires n <= a + b && i == if a <= n then a else n
    ensures (Copies(x, a) + Copies(y, b))[..n] == Copies(x, i) + Copies(y, n - i)
  {
  }

  lemma {:induction false} MoreLarge(n: nat, least: nat, v: nat, i: nat, j: nat)
    requires least <= v && i <= j <= n
    ensures Times(i, v) + Times(n - i, least) <= Times(j, v) + Times(n - j, least)
    decreases j - i
  {
    if i < j {
      OneMore(i, v);
      OneMore(n - i - 1, least);
      hide Times;
      MoreLarge(n, least, v, i + 1, j);
    }
  }

  lemma FindSplit(n: nat, least: nat, v: nat, cap: int, i: nat) returns (j: nat)
    requires 1 <= i < n && Times(i, v) + Times(n - i, least) <= cap < Times(n, v)
    ensures 1 <= j < n && Times(j, v) + Times(n - j, least) <= cap < Times(j + 1, v) + Times(n - j - 1, least)
    decreases n - i
  {
    OneMore(0, least);
    hide Times;
    if cap < Times(i + 1, v) + Times(n - i - 1, least) {
      j := i;
    } else {
      j := FindSplit(n, least, v, cap, i + 1);
    }
  }

  /** n small requests fill a batch exactly; one larger request in the middle wastes the room
      of a small one before it, although it leaves as much in its own batch. */
  ghost function Spoiled(least: nat, n: nat): seq<Request>
    requires n >= 1
  {
    Copies(least, n - 1) + (Copies(least + 1, 1) + Copies(least, n - 1))
  }

  lemma ExactCase(c: Caps, n: nat, least: nat, most: nat) returns (pending: seq<Request>, groups: seq<seq<Request>>)
    requires AtMost(c, n, least) && 1 <= least < most && Times(n, least) == c.maxTokens
    ensures TokensBetween(pending, least, most) && Grouped(c, pending, groups) && |groups| == 2
    ensures StableSort(pending) == pending && |pending| > n && !Fits(c, pending[..n]) && !Fits(c, pending[n - 1..])
  {
    assert n >= 2;
    hide *;
    pending := Spoiled(least, n);
    SpoiledSlices(c, n, least);
    SpoiledRange(n, least, most);
    groups := SpoiledGroups(c, n, least);
  }

  lemma SpoiledRange(n: nat, least: nat, most: nat)
    requires n >= 1 && least < most
    ensures TokensBetween(Spoiled(least, n), least, most) && StableSort(Spoiled(least, n)) == Spoiled(least, n)
  {
    hide StableSort, TokensBetween, Copies;
    ThreeKinds(least, n - 1, least + 1, n - 1, most);
  }

  lemma SpoiledGroups(c: Caps, n: nat, least: nat) returns (groups: seq<seq<Request>>)
    requires AtMost(c, n, least) && 1 <= least && Times(n, least) == c.maxTokens
    ensures |groups| == 2 && Grouped(c, Spoiled(least, n), groups)
  {
    assert n >= 2;
    hide Fits, Grouped, AtMost, Times, Copies;
    ExactFits(c, n, least);
    SameLoads(least, n);
    PairOfGroups(c, Copies(least, n), Copies(least + 1, 1) + Copies(least, n - 2), Spoiled(least, n));
    groups := [Copies(least, n), Copies(least + 1, 1) + Copies(least, n - 2)];
  }

  lemma SpoiledSlices(c: Caps, n: nat, least: nat)
    requires n >= 2 && Times(n, least) == c.maxTokens
    ensures var s := Spoiled(least, n);
            |s| > n && !Fits(c, s[..n]) && !Fits(c, s[n - 1..])
  {
    hide Fits, Times, Copies;
    OneMore(n - 1, least);
    MiddleSpoils(c, n, least, 1, n - 1);
    SliceThree(Copies(least, n - 1), Copies(least + 1, 1), Copies(least, n - 1), n);
  }

  lemma ThreeKinds(x: nat, i: nat, y: nat, k: nat, most: nat)
    requires x <= y <= most
    ensures var s := Copies(x, i) + (Copies(y, 1) + Copies(x, k));
            TokensBetween(s, x, most) && StableSort(s) == s
  {
    hide StableSort;
    AlreadySorted(Copies(x, i) + (Copies(y, 1) + Copies(x, k)));
  }

  /** With n - 1 small requests on one side or `k` on the other, a larger one is too much. */
  lemma MiddleSpoils(c: Caps, n: nat, least: nat, extra: nat, k: nat)
    requires n >= 2 && Times(n, least) == c.maxTokens && extra >= 1 && 1 <= k < n &&
               Times(k, least) + least + extra > c.maxTokens
    ensures !Fits(c, Copies(least, n - 1) + Copies(least + extra, 1)) &&
              !Fits(c, Copies(least + extra, 1) + Copies(least, k))
  {
    OneMore(0, least + extra);
    OneMore(n - 1, least);
    hide Times;
    TwoKinds(least, n - 1, least + extra, 1);
    TwoKinds(least + extra, 1, least, k);
  }

  lemma ExactFits(c: Caps, n: nat, least: nat)
    requires AtMost(c, n, least) && 1 <= least && Times(n, least) == c.maxTokens
    ensures Fits(c, Copies(least, n)) && Fits(c, Copies(least + 1, 1) + Copies(least, n - 2))
  {
    OneMore(0, least + 1);
    OneMore(n - 1, least);
    OneMore(n - 2, least);
    hide Times;
    CopiesTokens(least, n);
    TwoKinds(least + 1, 1, least, n - 2);
  }

  lemma SliceThree(a: seq<Request>, b: seq<Request>, d: seq<Request>, n: nat)
    requires |a| == n - 1 && |b| == 1
    ensures (a + (b + d))[..n] == a + b && (a + (b + d))[n - 1..] == b + d
  {
  }

  lemma SameLoads(least: nat, n: nat)
    requires n >= 2
    ensures var smalls, large := Copies(least, n - 1), Copies(least + 1, 1);
            multiset(smalls + (large + smalls)) == multiset(Copies(least, n)) + multiset(large + Copies(least, n - 2))
  {
    hide Copies;
    CopiesSplit(least, 1, n - 1);
    CopiesSplit(least, 1, n - 2);
    ShuffledMiddle(Copies(least, 1), Copies(least, n - 2), Copies(least + 1, 1));
  }

  lemma ShuffledMiddle(one: seq<Request>, most: seq<Request>, large: seq<Request>)
    ensures multiset((one + most) + (large + (one + most))) == multiset(one + (one + most)) + multiset(large + most)
  {
  }

  /** Empty requests under a token cap of zero: one that is not empty in between. */
  lemma ZeroCase(c: Caps, n: nat, most: nat) returns (pending: seq<Request>, groups: seq<seq<Request>>)
    requires AtMost(c, n, 0) && 0 < most && c.maxTokens == 0
    ensures TokensBetween(pending, 0, most) && Grouped(c, pending, groups) && |groups| == 2
    ensures StableSort(pending) == pending && |pending| > n && !Fits(c, pending[..n]) && !Fits(c, pending[n - 1..])
  {
    assert n >= 2;
    assert Times(n, 0) == 0 && Times(1, 0) == 0;
    hide *;
    var smalls, large, last := Copies(0, n - 1), Copies(1, 1), Copies(0, 1);
    var full := Copies(0, n);
    pending := smalls + (large + last);
    groups := [full, large];
    MiddleSpoils(c, n, 0, 1, 1);
    ZeroFits(c, n);
    assert pending[..n] == smalls + large && pending[n - 1..] == large + last;
    ThreeKinds(0, n - 1, 1, 1, most);
    CopiesSplit(0, n - 1, 1);
    ShuffledLast(smalls, large, last);
    PairOfGroups(c, full, large, pending);
  }

  lemma ZeroFits(c: Caps, n: nat)
    requires AtMost(c, n, 0) && c.maxTokens == 0
    ensures Fits(c, Copies(0, n)) && Fits(c, Copies(1, 1))
  {
    CopiesTokens(0, n);
  }

  lemma ShuffledLast(a: seq<Request>, b: seq<Request>, d: seq<Request>)
    ensures multiset(a + (b + d)) == multiset(a + d) + multiset(b)
  {
  }

  /** If the number does not decide, some list in the range is served badly. */
  lemma BeatenInRange(c: Caps, least: nat, most: nat)
    returns (pending: seq<Request>, batches: seq<seq<Request>>, groups: seq<seq<Request>>)
    requires least <= most && forall k :: !CountDecides(c, k, least, most)
    ensures TokensBetween(pending, least, most) && Formed(c, pending, batches) && Grouped(c, pending, groups)
    ensures |groups| < |batches|
  {
    var n := EqualLoadsDecide(c, least);
    assert !CountDecides(c, n, least, most);
    assert AtMost(c, n, least) && n * least <= c.maxTokens < n * most;
    assert Times(n, least) == n * least && Times(n, most) == n * most;
    if Times(n, least) < c.maxTokens {
      var v := Min(most, least + c.maxTokens - Times(n, least));
      ChooseLarge(n, least, most, c.maxTokens, v);
      var j := FindSplit(n, least, v, c.maxTokens, 1);
      pending, groups := SplitCase(c, n, least, most, v, j);
    } else if least == 0 {
      pending, groups := ZeroCase(c, n, most);
    } else {
      pending, groups := ExactCase(c, n, least, most);
    }
    batches := FormedExists(c, pending);
    NeedsThree(c, n, least, most, pending, batches);
  }

  lemma ChooseLarge(n: nat, least: nat, most: nat, cap: int, v: nat)
    requires n >= 2 && Times(n, least) < cap < Times(n, most)
    requires v == Min(most, least + cap - Times(n, least))
    ensures least < v <= most && Times(1, v) + Times(n - 1, least) <= cap < Times(n, v)
  {
    OneMore(0, v);
    OneMore(n - 1, least);
    TimesGrows(n, most, least);
    var slack := cap - Times(n, least);
    TimesSum(n, least, slack);
    hide Times;
  }

  lemma TimesSum(n: nat, j: nat, k: nat)
    requires n >= 2 && k >= 1
    ensures Times(n, j + k) > Times(n, j) + k
  {
  }

  /** The exact condition on the caps and the range of token counts: form_batches is minimal
      for every list in the range if and only if the number of requests decides what fits. */
  lemma AlwaysMinimalIff(c: Caps, least: nat, most: nat)
    requires least <= most
    ensures AlwaysMinimal(c, least, most) <==> exists k :: CountDecides(c, k, least, most)
  {
    if k :| CountDecides(c, k, least, most) {
      forall pending, batches, groups |
        TokensBetween(pending, least, most) && Formed(c, pending, batches) && Grouped(c, pending, groups)
        ensures |batches| <= |groups|
      {
        CountDecidesOptimal(c, k, least, most, pending, batches, groups);
      }
    } else {
      var pending, batches, groups := BeatenInRange(c, least, most);
    }
  }
}
