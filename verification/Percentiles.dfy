// The latency summary of the load baseline: nearest-rank percentiles with Python's rounding,
// over exact reals.
module Percentiles {

  // -- Python's `round`: to the nearest integer, ties to the even one --

  function RoundHalfEven(x: real): int {
    var below := x.Floor;
    var rest := x - below as real;
    if rest < 0.5 then below
    else if rest > 0.5 then below + 1
    else if below % 2 == 0 then below
    else below + 1
  }

  ghost predicate IsRounded(x: real, n: int) {
    && -0.5 <= n as real - x <= 0.5
    && (n as real - x == 0.5 || n as real - x == -0.5 ==> n % 2 == 0)
  }

  // The result is the one integer within a half, even when two are.
  lemma RoundIsNearest(x: real, n: int)
    ensures IsRounded(x, n) <==> n == RoundHalfEven(x)
  {
    var below := x.Floor;
    assert below as real <= x < (below + 1) as real;
    if IsRounded(x, n) {
      assert below - 1 < n < below + 2;
    }
  }

  lemma RoundIsMonotone(x: real, y: real)
    requires x <= y
    ensures RoundHalfEven(x) <= RoundHalfEven(y)
  {
    RoundIsNearest(x, RoundHalfEven(x));
    RoundIsNearest(y, RoundHalfEven(y));
    RoundIsNearest(x, RoundHalfEven(y));
  }

  // `round(x, 1)`
  function RoundTenth(x: real): real {
    RoundHalfEven(x * 10.0) as real / 10.0
  }

  lemma RoundTenthIsMonotone(x: real, y: real)
    requires x <= y
    ensures RoundTenth(x) <= RoundTenth(y)
  {
    RoundIsMonotone(x * 10.0, y * 10.0);
  }

  // -- Python's `sorted` --

  predicate Ascending(s: seq<real>) {
    forall i, j :: 0 <= i < j < |s| ==> s[i] <= s[j]
  }

  function Insert(x: real, s: seq<real>): seq<real> {
    if s == [] || x <= s[0] then [x] + s else [s[0]] + Insert(x, s[1..])
  }

  function Sort(values: seq<real>): seq<real> {
    if values == [] then [] else Insert(values[0], Sort(values[1..]))
  }

  lemma {:induction false} InsertKeeps(x: real, s: seq<real>)
    ensures multiset(Insert(x, s)) == multiset(s) + multiset{x} && |Insert(x, s)| == |s| + 1
  {
    if s != [] && x > s[0] {
      InsertKeeps(x, s[1..]);
      assert s == [s[0]] + s[1..];
    }
  }

  lemma {:induction false} InsertSorts(x: real, s: seq<real>)
    requires Ascending(s)
    ensures Ascending(Insert(x, s)) && (Insert(x, s)[0] == x || (s != [] && Insert(x, s)[0] == s[0]))
  {
    if s != [] && x > s[0] {
      InsertSorts(x, s[1..]);
    }
  }

  lemma {:induction false} SortSorts(values: seq<real>)
    ensures Ascending(Sort(values)) && multiset(Sort(values)) == multiset(values) && |Sort(values)| == |values|
  {
    if values == [] {
    } else {
      SortSorts(values[1..]);
      InsertSorts(values[0], Sort(values[1..]));
      InsertKeeps(values[0], Sort(values[1..]));
      assert values == [values[0]] + values[1..];
    }
  }

  lemma LeastFirst(a: seq<real>, b: seq<real>)
    requires a != [] && b != [] && Ascending(a) && multiset(a) == multiset(b)
    ensures a[0] <= b[0]
  {
    assert b[0] in multiset(a);
    var i :| 0 <= i < |a| && a[i] == b[0];
  }

  lemma TailMultiset(a: seq<real>)
    requires a != []
    ensures multiset(a[1..]) == multiset(a) - multiset{a[0]}
  {
    assert a == [a[0]] + a[1..];
  }

  // There is one ascending arrangement of a collection of samples.
  lemma {:induction false} AscendingIsUnique(a: seq<real>, b: seq<real>)
    requires Ascending(a) && Ascending(b) && multiset(a) == multiset(b)
    ensures a == b
  {
    assert |a| == |multiset(a)| == |multiset(b)| == |b|;
    if a == [] {
    } else {
      LeastFirst(a, b);
      LeastFirst(b, a);
      TailMultiset(a);
      TailMultiset(b);
      AscendingIsUnique(a[1..], b[1..]);
      assert a == [a[0]] + a[1..] && b == [b[0]] + b[1..];
    }
  }

  // -- Percentiles --

  // Where among `n` ordered samples, counted from 0, a fraction lies.
  function Position(n: nat, fraction: real): real
    requires n > 0
  {
    fraction * (n - 1) as real
  }

  function Rank(n: nat, fraction: real): int
    requires n > 0
  {
    var r := RoundHalfEven(Position(n, fraction));
    var low := if r > 0 then r else 0;
    if low < n - 1 then low else n - 1
  }

  function Percentile(ordered: seq<real>, fraction: real): real {
    if ordered == [] then 0.0
    else
      var i := Rank(|ordered|, fraction);
      ordered[i]
  }

  lemma PositionInRange(n: nat, fraction: real)
    requires n > 0 && 0.0 <= fraction <= 1.0
    ensures 0.0 <= Position(n, fraction) <= (n - 1) as real
  {
    var x := (n - 1) as real;
    assert x >= 0.0;
    assert (1.0 - fraction) * x >= 0.0;
  }

  lemma PositionIsMonotone(n: nat, f: real, g: real)
    requires n > 0 && f <= g
    ensures Position(n, f) <= Position(n, g)
  {
    var x := (n - 1) as real;
    assert x >= 0.0;
    assert (g - f) * x >= 0.0;
  }

  // The clamping never moves the rank: it stays within half a place of `fraction * (n - 1)`.
  lemma RankIsNearest(n: nat, fraction: real)
    requires n > 0 && 0.0 <= fraction <= 1.0
    ensures IsRounded(Position(n, fraction), Rank(n, fraction))
  {
    hide Position;
    var x := Position(n, fraction);
    PositionInRange(n, fraction);
    RoundIsNearest(x, RoundHalfEven(x));
    RoundIsMonotone(0.0, x);
    RoundIsMonotone(x, (n - 1) as real);
  }

  lemma RankIsMonotone(n: nat, f: real, g: real)
    requires n > 0 && f <= g
    ensures 0 <= Rank(n, f) <= Rank(n, g) < n
  {
    hide Position, RoundHalfEven;
    PositionIsMonotone(n, f, g);
    RoundIsMonotone(Position(n, f), Position(n, g));
  }

  function CountAtMost(values: seq<real>, p: real): nat {
    if values == [] then 0 else (if values[0] <= p then 1 else 0) + CountAtMost(values[1..], p)
  }

  function CountAtLeast(values: seq<real>, p: real): nat {
    if values == [] then 0 else (if values[0] >= p then 1 else 0) + CountAtLeast(values[1..], p)
  }

  lemma {:induction false} CountsSurviveInsert(x: real, s: seq<real>, p: real)
    ensures CountAtMost(Insert(x, s), p) == CountAtMost([x] + s, p)
    ensures CountAtLeast(Insert(x, s), p) == CountAtLeast([x] + s, p)
  {
    assert ([x] + s)[1..] == s;
    if s != [] && x > s[0] {
      CountsSurviveInsert(x, s[1..], p);
      assert ([x] + s[1..])[1..] == s[1..];
      assert ([s[0]] + Insert(x, s[1..]))[1..] == Insert(x, s[1..]);
    }
  }

  lemma {:induction false} CountsSurviveSort(values: seq<real>, p: real)
    ensures CountAtMost(Sort(values), p) == CountAtMost(values, p)
    ensures CountAtLeast(Sort(values), p) == CountAtLeast(values, p)
  {
    if values == [] {
    } else {
      CountsSurviveSort(values[1..], p);
      CountsSurviveInsert(values[0], Sort(values[1..]), p);
      assert ([values[0]] + Sort(values[1..]))[1..] == Sort(values[1..]);
    }
  }

  lemma {:induction false} AllAtLeast(s: seq<real>, p: real)
    requires forall x :: x in s ==> p <= x
    ensures CountAtLeast(s, p) == |s|
  {
    if s == [] {
    } else {
      assert s[0] in s && forall x :: x in s[1..] ==> x in s;
      AllAtLeast(s[1..], p);
    }
  }

  lemma {:induction false} CountsInOrder(s: seq<real>, i: nat, p: real)
    requires Ascending(s) && i < |s| && (p == s[i])
    ensures CountAtMost(s, p) >= i + 1 && CountAtLeast(s, p) >= |s| - i
  {
    if i > 0 {
      CountsInOrder(s[1..], i - 1, p);
    } else {
      assert forall j :: 0 <= j < |s| ==> s[0] <= s[j];
      AllAtLeast(s, p);
    }
  }

  lemma SortMember(values: seq<real>, i: nat)
    requires i < |Sort(values)|
    ensures Sort(values)[i] in values
  {
    SortSorts(values);
    assert Sort(values)[i] in multiset(values);
  }

  // A percentile of a non-empty sample is one of its values; counting the sample in any order,
  // at least rank + 1 values are no larger and at least n - rank are no smaller.
  lemma PercentileRanks(values: seq<real>, fraction: real)
    requires values != [] && 0.0 <= fraction <= 1.0
    ensures var p, rank := Percentile(Sort(values), fraction), Rank(|values|, fraction);
      && p in values
      && CountAtMost(values, p) >= rank + 1 && CountAtLeast(values, p) >= |values| - rank
  {
    hide Rank, Sort, IsRounded;
    SortSorts(values);
    var s := Sort(values);
    RankIsMonotone(|values|, fraction, fraction);
    var rank := Rank(|values|, fraction);
    CountsInOrder(s, rank, s[rank]);
    CountsSurviveSort(values, s[rank]);
    SortMember(values, rank);
  }

  // -- The summary --

  function Sum(values: seq<real>): real {
    if values == [] then 0.0 else values[0] + Sum(values[1..])
  }

  function Mean(values: seq<real>): real
    requires values != []
  {
    Sum(values) / |values| as real
  }

  datatype Summary = Summary(p50: real, p95: real, p99: real, mean: real, max: real)

  function Summarize(values: seq<real>): Summary {
    var ordered := Sort(values);
    Summary(
      RoundTenth(Percentile(ordered, 0.50)),
      RoundTenth(Percentile(ordered, 0.95)),
      RoundTenth(Percentile(ordered, 0.99)),
      if ordered != [] then RoundTenth(Mean(ordered)) else 0.0,
      if ordered != [] then RoundTenth(ordered[|ordered| - 1]) else 0.0)
  }

  lemma {:induction false} SumBounded(values: seq<real>, low: real, high: real)
    requires forall x :: x in values ==> low <= x <= high
    ensures low * |values| as real <= Sum(values) <= high * |values| as real
  {
    if values == [] {
    } else {
      assert forall x :: x in values[1..] ==> x in values;
      SumBounded(values[1..], low, high);
      assert values[0] in values;
      assert high * |values| as real == high * (|values| - 1) as real + high;
      assert low * |values| as real == low * (|values| - 1) as real + low;
    }
  }

  lemma DivideBound(sum: real, low: real, high: real, n: real)
    requires n > 0.0 && low * n <= sum <= high * n
    ensures low <= sum / n <= high
  {
    var q := sum / n;
    assert q * n == sum;
    assert q < low ==> q * n < low * n;
    assert q > high ==> q * n > high * n;
  }

  lemma MeanAtMostMax(ordered: seq<real>)
    requires ordered != [] && Ascending(ordered)
    ensures ordered[0] <= Mean(ordered) <= ordered[|ordered| - 1]
  {
    var n := |ordered| as real;
    SumBounded(ordered, ordered[0], ordered[|ordered| - 1]);
    assert ordered[0] * n / n == ordered[0];
    DivideBound(Sum(ordered), ordered[0], ordered[|ordered| - 1], n);
  }

  // The reported figures are ordered, although each has been rounded on its own.
  lemma SummaryIsOrdered(values: seq<real>)
    requires values != []
    ensures var s := Summarize(values); s.p50 <= s.p95 <= s.p99 <= s.max && s.mean <= s.max
  {
    SortSorts(values);
    var ordered := Sort(values);
    var n := |ordered|;
    RankIsMonotone(n, 0.50, 0.95);
    RankIsMonotone(n, 0.95, 0.99);
    var i, j, k := Rank(n, 0.50), Rank(n, 0.95), Rank(n, 0.99);
    RoundTenthIsMonotone(ordered[i], ordered[j]);
    RoundTenthIsMonotone(ordered[j], ordered[k]);
    RoundTenthIsMonotone(ordered[k], ordered[n - 1]);
    MeanAtMostMax(ordered);
    RoundTenthIsMonotone(Mean(ordered), ordered[n - 1]);
  }

  // The report does not depend on the order in which requests finished.
  lemma SummaryIgnoresOrder(a: seq<real>, b: seq<real>)
    requires multiset(a) == multiset(b)
    ensures Summarize(a) == Summarize(b)
  {
    SortSorts(a);
    SortSorts(b);
    AscendingIsUnique(Sort(a), Sort(b));
  }

  // -- What the figures mean --

  // Rounding to one decimal gives the nearest tenth, the even one of two.
  lemma TenthsAre(x: real, n: int)
    ensures IsRounded(10.0 * x, n) <==> RoundTenth(x) == n as real / 10.0
  {
    RoundIsNearest(x * 10.0, n);
    var m := RoundHalfEven(x * 10.0);
    assert m as real / 10.0 == n as real / 10.0 ==> m as real == n as real;
  }

  // The place, counted from 0, that is nearest to a fraction of the last place.
  ghost predicate IsNearestPlace(n: nat, fraction: real, k: nat) {
    n > 0 && IsRounded(fraction * (n - 1) as real, k)
  }

  // `p` is a value of the sample at the given fraction: at the nearest place k, at least k + 1
  // values are no larger and at least n - k are no smaller.
  ghost predicate IsPercentile(values: seq<real>, fraction: real, p: real) {
    p in values &&
    exists k: nat :: IsNearestPlace(|values|, fraction, k) && CountAtMost(values, p) >= k + 1 && CountAtLeast(values, p) >= |values| - k
  }

  lemma PercentileIs(values: seq<real>, fraction: real)
    requires values != [] && 0.0 <= fraction <= 1.0
    ensures IsPercentile(values, fraction, Percentile(Sort(values), fraction))
  {
    hide Rank, Sort, Percentile, IsRounded;
    PercentileRanks(values, fraction);
    RankIsNearest(|values|, fraction);
    RankIsMonotone(|values|, fraction, fraction);
    assert IsNearestPlace(|values|, fraction, Rank(|values|, fraction));
  }

  lemma {:induction false} NoMoreThanAll(values: seq<real>, p: real, q: real)
    requires p < q
    ensures CountAtMost(values, p) + CountAtLeast(values, q) <= |values|
  {
    if values == [] {
    } else {
      NoMoreThanAll(values[1..], p, q);
    }
  }

  // There is one value at a fraction: the counts leave room for no other.
  lemma PercentileIsUnique(values: seq<real>, fraction: real, p: real, q: real)
    requires IsPercentile(values, fraction, p) && IsPercentile(values, fraction, q)
    ensures p == q
  {
    hide IsRounded, CountAtMost, CountAtLeast;
    var k: nat :| IsNearestPlace(|values|, fraction, k) && CountAtMost(values, p) >= k + 1 && CountAtLeast(values, p) >= |values| - k;
    var l: nat :| IsNearestPlace(|values|, fraction, l) && CountAtMost(values, q) >= l + 1 && CountAtLeast(values, q) >= |values| - l;
    RoundIsNearest(fraction * (|values| - 1) as real, k);
    RoundIsNearest(fraction * (|values| - 1) as real, l);
    if p < q {
      NoMoreThanAll(values, p, q);
    } else if q < p {
      NoMoreThanAll(values, q, p);
    }
  }

  lemma {:induction false} SumIgnoresInsert(x: real, s: seq<real>)
    ensures Sum(Insert(x, s)) == x + Sum(s)
  {
    assert ([x] + s)[1..] == s;
    if s != [] && x > s[0] {
      SumIgnoresInsert(x, s[1..]);
      assert ([s[0]] + Insert(x, s[1..]))[1..] == Insert(x, s[1..]);
    }
  }

  lemma {:induction false} SumIgnoresSort(values: seq<real>)
    ensures Sum(Sort(values)) == Sum(values)
  {
    if values == [] {
    } else {
      SumIgnoresSort(values[1..]);
      SumIgnoresInsert(values[0], Sort(values[1..]));
    }
  }

  // The percentiles of the summary of a non-empty sample.
  lemma SummaryPercentilesAre(values: seq<real>)
    requires values != []
    ensures exists v :: IsPercentile(values, 0.50, v) && Summarize(values).p50 == RoundTenth(v)
    ensures exists v :: IsPercentile(values, 0.95, v) && Summarize(values).p95 == RoundTenth(v)
    ensures exists v :: IsPercentile(values, 0.99, v) && Summarize(values).p99 == RoundTenth(v)
  {
    hide Percentile, IsPercentile, RoundTenth, Sum, Sort;
    PercentileIs(values, 0.50);
    PercentileIs(values, 0.95);
    PercentileIs(values, 0.99);
  }

  lemma SummaryMeanIs(values: seq<real>)
    requires values != []
    ensures Summarize(values).mean == RoundTenth(Sum(values) / |values| as real)
  {
    hide Percentile, RoundTenth, Sum, Sort;
    SortSorts(values);
    SumIgnoresSort(values);
  }

  lemma SummaryMaxIs(values: seq<real>, v: real)
    requires v in values && forall x :: x in values ==> x <= v
    ensures Summarize(values).max == RoundTenth(v)
  {
    hide Percentile, RoundTenth, Sum, Sort, Mean;
    SortSorts(values);
    var ordered := Sort(values);
    SortMember(values, |ordered| - 1);
    assert v in multiset(ordered);
    var i :| 0 <= i < |ordered| && ordered[i] == v;
  }

  lemma EmptySummaryIs()
    ensures Summarize([]) == Summary(0.0, 0.0, 0.0, 0.0, 0.0)
  {
    assert RoundHalfEven(0.0) == 0;
  }
}
