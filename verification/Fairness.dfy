/** Jain's fairness index as benchmarks/harness.py computes it, over exact reals. */
module Fairness {
  datatype Completion = Completion(outputTokens: nat, totalLatencyMs: real)
  {
    function TokensPerSecond(): real {
      if totalLatencyMs <= 0.0 then 0.0 else outputTokens as real / (totalLatencyMs / 1000.0)
    }
  }

  function Rates(results: seq<Completion>): (r: seq<real>)
    ensures Positive(r)
  {
    if results == [] then []
    else
      var rest := Rates(results[..|results| - 1]);
      var x := results[|results| - 1].TokensPerSecond();
      if x > 0.0 then rest + [x] else rest
  }

  predicate Positive(xs: seq<real>) {
    forall i :: 0 <= i < |xs| ==> xs[i] > 0.0
  }

  function Times(a: real, b: real): real {
    a * b
  }

  function Sum(xs: seq<real>): real {
    if xs == [] then 0.0 else Sum(xs[..|xs| - 1]) + xs[|xs| - 1]
  }

  function Squares(xs: seq<real>): real {
    if xs == [] then 0.0 else Squares(xs[..|xs| - 1]) + Times(xs[|xs| - 1], xs[|xs| - 1])
  }

  /** The square of the sum over n times the sum of the squares. */
  function Index(xs: seq<real>): real
    requires xs != [] && Positive(xs)
  {
    SquaresPositive(xs);
    Times(Sum(xs), Sum(xs)) / Times(|xs| as real, Squares(xs))
  }

  function JainsFairness(results: seq<Completion>): real {
    var xs := Rates(results);
    if xs == [] then 1.0 else Index(xs)
  }

  // ------------------------------------------- products, one fact at a time

  lemma Distribute(a: real, b: real, m: real)
    ensures Times(a + b, m) == Times(a, m) + Times(b, m) == Times(m, a + b)
    ensures Times(a - b, m) == Times(a, m) - Times(b, m) == Times(m, a - b)
    ensures Times(a, m) == Times(m, a) && Times(b, m) == Times(m, b)
  {
  }

  lemma SignOfProduct(a: real, b: real)
    ensures a > 0.0 && b > 0.0 ==> Times(a, b) > 0.0
    ensures a >= 0.0 && b >= 0.0 ==> Times(a, b) >= 0.0
    ensures a == 0.0 ==> Times(a, b) == 0.0
  {
  }

  lemma SquareIsZero(d: real)
    ensures Times(d, d) >= 0.0 && (Times(d, d) == 0.0 <==> d == 0.0)
  {
    hide Times;
    SignOfProduct(d, d);
    SignOfProduct(-d, -d);
    NegatedSquare(d);
  }

  lemma NegatedSquare(d: real)
    ensures Times(-d, -d) == Times(d, d)
  {
  }

  lemma Order(a: real, b: real, m: real)
    requires m > 0.0
    ensures (a < b <==> Times(a, m) < Times(b, m)) && (a == b <==> Times(a, m) == Times(b, m))
  {
    hide Times;
    SignOfProduct(b - a, m);
    SignOfProduct(a - b, m);
    Distribute(b, a, m);
    Distribute(a, b, m);
  }

  /** (s + y)^2, and (x - y)^2 */
  lemma SquareOfSum(s: real, y: real)
    ensures Times(s + y, s + y) == Times(s, s) + 2.0 * Times(s, y) + Times(y, y)
    ensures Times(s - y, s - y) == Times(s, s) - 2.0 * Times(s, y) + Times(y, y)
  {
    hide Times;
    Distribute(s, y, s + y);
    Distribute(s, y, s);
    Distribute(s, y, y);
    Distribute(s, y, s - y);
  }

  // ----------------------------------------------------------- the range

  lemma {:induction false} SquaresPositive(xs: seq<real>)
    requires Positive(xs)
    ensures Squares(xs) >= 0.0 && Sum(xs) >= 0.0
    ensures xs != [] ==> Squares(xs) > 0.0 && Times(|xs| as real, Squares(xs)) > 0.0
    ensures Squares(xs) <= Times(Sum(xs), Sum(xs))
  {
    SignOfProduct(|xs| as real, Squares(xs));
    hide Times;
    if xs == [] {
      SignOfProduct(0.0, 0.0);
    } else {
      var front, y := xs[..|xs| - 1], xs[|xs| - 1];
      SquaresPositive(front);
      SignOfProduct(y, y);
      SignOfProduct(Sum(front), y);
      SquareOfSum(Sum(front), y);
    }
  }

  /** The sum of the squared distances to `y`. */
  function Spread(xs: seq<real>, y: real): real {
    if xs == [] then 0.0
    else Spread(xs[..|xs| - 1], y) + Times(xs[|xs| - 1] - y, xs[|xs| - 1] - y)
  }

  predicate AllEqual(xs: seq<real>) {
    forall i, j :: 0 <= i < |xs| && 0 <= j < |xs| ==> xs[i] == xs[j]
  }

  lemma {:induction false} SpreadExpands(xs: seq<real>, y: real)
    ensures Spread(xs, y) == Squares(xs) - 2.0 * Times(Sum(xs), y) + Times(|xs| as real, Times(y, y))
  {
    hide Times;
    if xs == [] {
      SignOfProduct(0.0, y);
      SignOfProduct(0.0, Times(y, y));
    } else {
      var front, x := xs[..|xs| - 1], xs[|xs| - 1];
      SpreadExpands(front, y);
      SquareOfSum(x, y);
      Distribute(Sum(front), x, y);
      Distribute(|front| as real, 1.0, Times(y, y));
      OneTimes(Times(y, y));
    }
  }

  lemma OneTimes(a: real)
    ensures Times(1.0, a) == a == Times(a, 1.0)
  {
  }

  lemma {:induction false} SpreadIsZeroIffEqual(xs: seq<real>, y: real)
    ensures Spread(xs, y) >= 0.0
    ensures Spread(xs, y) == 0.0 <==> forall i :: 0 <= i < |xs| ==> xs[i] == y
  {
    hide Times;
    if xs != [] {
      var n := |xs| - 1;
      SpreadIsZeroIffEqual(xs[..n], y);
      assert forall i :: 0 <= i < n ==> xs[..n][i] == xs[i];
      SquareIsZero(xs[n] - y);
    }
  }

  /** How far the sum of squares is from its lower bound. */
  function Gap(xs: seq<real>): real {
    Times(|xs| as real, Squares(xs)) - Times(Sum(xs), Sum(xs))
  }

  lemma GapGrows(xs: seq<real>, y: real)
    ensures Gap(xs + [y]) == Gap(xs) + Spread(xs, y)
  {
    hide Times;
    var n, q, s, z := |xs| as real, Squares(xs), Sum(xs), Times(y, y);
    assert (xs + [y])[..|xs|] == xs;
    SpreadExpands(xs, y);
    SquareOfSum(s, y);
    Distribute(n, 1.0, q + z);
    Distribute(q, z, n);
    OneTimes(q + z);
  }

  /** Cauchy-Schwarz by induction: the gap is a sum of spreads. */
  lemma {:induction false} CauchySchwarz(xs: seq<real>)
    ensures Gap(xs) >= 0.0
    ensures Gap(xs) == 0.0 <==> AllEqual(xs)
  {
    hide Times, Squares, Sum, Spread;
    if xs == [] {
      GapOfNone();
    } else {
      var n := |xs| - 1;
      var front, y := xs[..n], xs[n];
      assert xs == front + [y];
      hide Gap;
      CauchySchwarz(front);
      GapGrows(front, y);
      SpreadIsZeroIffEqual(front, y);
      assert forall i :: 0 <= i < n ==> front[i] == xs[i];
    }
  }

  lemma GapOfNone()
    ensures Gap([]) == 0.0
  {
  }

  /** The index lies between 1/n and 1, and is 1 exactly when all rates are equal. */
  lemma IndexRange(xs: seq<real>)
    requires xs != [] && Positive(xs)
    ensures 1.0 / |xs| as real <= Index(xs) <= 1.0
    ensures Index(xs) == 1.0 <==> AllEqual(xs)
  {
    hide Times;
    SquaresPositive(xs);
    CauchySchwarz(xs);
    QuotientRange(Times(Sum(xs), Sum(xs)), |xs| as real, Squares(xs));
  }

  lemma QuotientRange(t: real, n: real, q: real)
    requires n > 0.0 && q > 0.0 && Times(n, q) > 0.0 && q <= t <= Times(n, q)
    ensures 1.0 / n <= t / Times(n, q) <= 1.0
    ensures t / Times(n, q) == 1.0 <==> t == Times(n, q)
  {
    var m := Times(n, q);
    var r := t / m;
    Divided(t, m);
    Divided(1.0, n);
    Associate(r, n, q);
    hide Times;
    Order(r, 1.0, m);
    OneTimes(m);
    OneTimes(q);
    Order(Times(r, n), 1.0, q);
    Order(r, 1.0 / n, n);
  }

  lemma Divided(t: real, m: real)
    requires m > 0.0
    ensures Times(t / m, m) == t
  {
  }

  lemma Associate(a: real, b: real, c: real)
    ensures Times(a, Times(b, c)) == Times(Times(a, b), c)
  {
  }

  /** The reported fairness is a share, whatever the results, and the range depends on the
      number of results with a positive rate. */
  lemma FairnessIsShare(results: seq<Completion>)
    ensures 0.0 < JainsFairness(results) <= 1.0
    ensures Rates(results) != [] ==> 1.0 / |Rates(results)| as real <= JainsFairness(results)
    ensures JainsFairness(results) == 1.0 <==> AllEqual(Rates(results))
  {
    hide Index, Times, Rates, AllEqual, Positive;
    var xs := Rates(results);
    if xs == [] {
      NoneAllEqual();
    } else {
      IndexRange(xs);
      ShareIsPositive(|xs|);
    }
  }

  lemma NoneAllEqual()
    ensures AllEqual([])
  {
  }

  lemma ShareIsPositive(n: nat)
    requires n > 0
    ensures 1.0 / n as real > 0.0
  {
  }

  /** Everybody who got tokens in positive time got them equally fast, compared without dividing. */
  ghost predicate EquallyFast(results: seq<Completion>) {
    forall i, j :: 0 <= i < |results| && 0 <= j < |results| && Served(results[i]) && Served(results[j]) ==>
      results[i].outputTokens as real * results[j].totalLatencyMs
      == results[j].outputTokens as real * results[i].totalLatencyMs
  }

  ghost predicate Served(x: Completion) {
    x.outputTokens > 0 && x.totalLatencyMs > 0.0
  }

  lemma RateIs(x: Completion)
    ensures Served(x) <==> x.TokensPerSecond() > 0.0
    ensures Served(x) ==> Times(x.TokensPerSecond(), x.totalLatencyMs) == 1000.0 * x.outputTokens as real
  {
    if x.totalLatencyMs > 0.0 {
      var seconds := x.totalLatencyMs / 1000.0;
      var rate := x.outputTokens as real / seconds;
      assert rate * seconds == x.outputTokens as real;
      if x.outputTokens > 0 {
        Signs(rate, seconds);
      }
    }
  }

  lemma Signs(rate: real, seconds: real)
    requires seconds > 0.0
    ensures rate * seconds > 0.0 ==> rate > 0.0
  {
    if rate <= 0.0 {
      assert (-rate) * seconds >= 0.0;
    }
  }

  /** Two served requests have the same rate exactly if their tokens and times are proportional. */
  lemma SameRateIff(x: Completion, y: Completion)
    requires Served(x) && Served(y)
    ensures x.TokensPerSecond() == y.TokensPerSecond() <==>
            x.outputTokens as real * y.totalLatencyMs == y.outputTokens as real * x.totalLatencyMs
  {
    RateIs(x);
    RateIs(y);
    hide Completion.TokensPerSecond;
    Proportional(x.TokensPerSecond(), x.totalLatencyMs, x.outputTokens as real,
                 y.TokensPerSecond(), y.totalLatencyMs, y.outputTokens as real);
  }

  lemma Proportional(a: real, s: real, m: real, b: real, t: real, n: real)
    requires s > 0.0 && t > 0.0 && Times(a, s) == 1000.0 * m && Times(b, t) == 1000.0 * n
    ensures a == b <==> m * t == n * s
  {
    var st := s * t;
    assert st > 0.0;
    assert 1000.0 * (m * t) == a * st;
    assert 1000.0 * (n * s) == b * st;
    assert a * st - b * st == (a - b) * st;
  }

  lemma {:induction false} RateMembers(results: seq<Completion>)
    ensures forall i :: 0 <= i < |results| && Served(results[i]) ==> results[i].TokensPerSecond() in Rates(results)
    ensures forall x :: x in Rates(results) ==>
              exists i :: 0 <= i < |results| && Served(results[i]) && results[i].TokensPerSecond() == x
  {
    hide Served, Completion.TokensPerSecond;
    if results != [] {
      var n := |results| - 1;
      RateMembers(results[..n]);
      RateIs(results[n]);
      forall x | x in Rates(results)
        ensures exists i :: 0 <= i < |results| && Served(results[i]) && results[i].TokensPerSecond() == x
      {
        if x in Rates(results[..n]) {
          var i :| 0 <= i < n && Served(results[..n][i]) && results[..n][i].TokensPerSecond() == x;
          assert results[i] == results[..n][i];
        } else {
          assert Served(results[n]) && results[n].TokensPerSecond() == x;
        }
      }
      forall i | 0 <= i < |results| && Served(results[i])
        ensures results[i].TokensPerSecond() in Rates(results)
      {
        if i < n {
          assert results[..n][i] == results[i];
        }
      }
    }
  }

  /** The reported fairness is 1 exactly if all served requests got their tokens equally fast. */
  lemma FairIff(results: seq<Completion>)
    ensures JainsFairness(results) == 1.0 <==> EquallyFast(results)
  {
    FairnessIsShare(results);
    RateMembers(results);
    hide JainsFairness, Served, Completion.TokensPerSecond;
    var xs := Rates(results);
    if AllEqual(xs) {
      forall i, j | 0 <= i < |results| && 0 <= j < |results| && Served(results[i]) && Served(results[j])
        ensures results[i].outputTokens as real * results[j].totalLatencyMs
                == results[j].outputTokens as real * results[i].totalLatencyMs
      {
        SameRateIff(results[i], results[j]);
        assert results[i].TokensPerSecond() in xs && results[j].TokensPerSecond() in xs;
      }
    }
    if EquallyFast(results) {
      forall x, y | x in xs && y in xs
        ensures x == y
      {
        var i :| 0 <= i < |results| && Served(results[i]) && results[i].TokensPerSecond() == x;
        var j :| 0 <= j < |results| && Served(results[j]) && results[j].TokensPerSecond() == y;
        SameRateIff(results[i], results[j]);
      }
      forall i, j | 0 <= i < |xs| && 0 <= j < |xs|
        ensures xs[i] == xs[j]
      {
        assert xs[i] in xs && xs[j] in xs;
      }
    }
  }
}
