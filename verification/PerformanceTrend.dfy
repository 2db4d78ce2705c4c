/** Metric trends: percentiles by linear interpolation, the summary of a metric, and the growth
    of memory between the ends of a sampled window. Values are exact reals. */
module PerformanceTrend {
  import opened Wrappers
  import opened GroupBy
  import opened Sorting

  // ---------------------------------------------------------------------------------
  // Percentiles.
  // ---------------------------------------------------------------------------------

  ghost predicate Ascending(values: seq<real>) {
    forall i, j :: 0 <= i < j < |values| ==> values[i] <= values[j]
  }

  /** The point of the index range that a quantile asks for. */
  function Rank(n: nat, q: real): real { (n - 1) as real * q }

  function Ceil(x: real): int { if x.Floor as real == x then x.Floor else x.Floor + 1 }

  /** The interpolation between two values. */
  function Between(a: real, b: real, fraction: real): real { a * (1.0 - fraction) + b * fraction }

  /** The value at a point of the index range. */
  function ValueAt(values: seq<real>, x: real): real
    requires 0.0 <= x <= (|values| - 1) as real
  {
    var lower, upper := x.Floor, Ceil(x);
    if lower == upper then values[lower]
    else Between(values[lower], values[upper], x - lower as real)
  }

  lemma RankInRange(n: nat, q: real)
    requires n > 0 && 0.0 <= q <= 1.0
    ensures 0.0 <= Rank(n, q) <= (n - 1) as real
  {
    PartIsNoLarger((n - 1) as real, q);
  }

  lemma PartIsNoLarger(a: real, q: real)
    requires a >= 0.0 && 0.0 <= q <= 1.0
    ensures 0.0 <= a * q <= a
  {
    var none, all := 0.0, 1.0;
    MultiplyKeepsOrder(a, none, q);
    MultiplyKeepsOrder(a, q, all);
    assert a * none == 0.0 && a * all == a;
  }

  lemma RankIsMonotone(n: nat, p: real, q: real)
    requires n > 0 && p <= q
    ensures Rank(n, p) <= Rank(n, q)
  {
    var last := (n - 1) as real;
    MultiplyKeepsOrder(last, p, q);
    assert Rank(n, p) == last * p && Rank(n, q) == last * q;
  }

  lemma MultiplyKeepsOrder(a: real, x: real, y: real)
    requires a >= 0.0 && x <= y
    ensures a * x <= a * y && x * a <= y * a
  {
    assert a * (y - x) >= 0.0;
  }

  lemma CancelFactor(n: real, x: real, y: real)
    requires n > 0.0 && n * x <= n * y
    ensures x <= y
  {
    if y < x {
      MultiplyStrictly(n, y, x);
    }
  }

  lemma MultiplyStrictly(n: real, x: real, y: real)
    requires n > 0.0 && x < y
    ensures n * x < n * y && x * n < y * n
  {
    assert n * (y - x) > 0.0;
  }

  function Percentile(values: seq<real>, q: real): real
    requires 0.0 <= q <= 1.0
  {
    if values == [] then 0.0
    else if |values| == 1 then values[0]
    else
      RankInRange(|values|, q);
      ValueAt(values, Rank(|values|, q))
  }

  lemma BetweenIsMonotone(a: real, b: real, f: real, g: real)
    requires a <= b && f <= g
    ensures Between(a, b, f) <= Between(a, b, g)
  {
    MultiplyKeepsOrder(b - a, f, g);
    assert Between(a, b, f) == a + (b - a) * f && Between(a, b, g) == a + (b - a) * g;
  }

  lemma BetweenIsBetween(a: real, b: real, fraction: real)
    requires a <= b && 0.0 <= fraction <= 1.0
    ensures a <= Between(a, b, fraction) <= b
  {
    BetweenIsMonotone(a, b, 0.0, fraction);
    BetweenIsMonotone(a, b, fraction, 1.0);
    assert Between(a, b, 0.0) == a && Between(a, b, 1.0) == b;
  }

  lemma BetweenIsMonotonePointwise(a: real, b: real, a': real, b': real, f: real)
    requires a <= a' && b <= b' && 0.0 <= f <= 1.0
    ensures Between(a, b, f) <= Between(a', b', f)
  {
    assert (a' - a) * (1.0 - f) >= 0.0;
    assert (b' - b) * f >= 0.0;
    assert Between(a', b', f) - Between(a, b, f) == (a' - a) * (1.0 - f) + (b' - b) * f;
  }

  lemma ValueLiesBetweenNeighbours(values: seq<real>, x: real)
    requires Ascending(values) && 0.0 <= x <= (|values| - 1) as real
    ensures 0 <= x.Floor <= Ceil(x) < |values|
    ensures values[x.Floor] <= ValueAt(values, x) <= values[Ceil(x)]
  {
    if x.Floor != Ceil(x) {
      BetweenIsBetween(values[x.Floor], values[Ceil(x)], x - x.Floor as real);
    }
  }

  lemma ValueIsMonotone(values: seq<real>, x: real, y: real)
    requires Ascending(values) && 0.0 <= x <= y <= (|values| - 1) as real
    ensures ValueAt(values, x) <= ValueAt(values, y)
  {
    ValueLiesBetweenNeighbours(values, x);
    ValueLiesBetweenNeighbours(values, y);
    if x.Floor == y.Floor {
      if x != y {
        var a, b := values[x.Floor], values[x.Floor + 1];
        assert Between(a, b, 0.0) == a;
        BetweenIsMonotone(a, b, x - x.Floor as real, y - y.Floor as real);
      }
    } else {
      assert Ceil(x) <= y.Floor;
      assert values[Ceil(x)] <= values[y.Floor];
    }
  }

  /** For every non-empty ascending list the percentile lies between the two neighbouring order
      statistics, so at least floor + 1 of the values are no larger and at least n - ceil no
      smaller. */
  lemma PercentileLiesBetweenNeighbours(values: seq<real>, q: real)
    requires Ascending(values) && values != [] && 0.0 <= q <= 1.0
    ensures var lower, upper := Rank(|values|, q).Floor, Ceil(Rank(|values|, q));
      && 0 <= lower <= upper < |values|
      && values[lower] <= Percentile(values, q) <= values[upper]
      && (forall i :: 0 <= i <= lower ==> values[i] <= Percentile(values, q))
      && (forall i :: upper <= i < |values| ==> Percentile(values, q) <= values[i])
  {
    RankInRange(|values|, q);
    if |values| > 1 {
      ValueLiesBetweenNeighbours(values, Rank(|values|, q));
    }
  }

  /** Of no values it is zero, and of one value that value. */
  lemma PercentileOfFewValues(values: seq<real>, q: real)
    requires |values| <= 1 && 0.0 <= q <= 1.0
    ensures Percentile(values, q) == if values == [] then 0.0 else values[0]
  {
  }

  /** It is the order statistic itself where the rank is a whole number. */
  lemma PercentileHitsOrderStatistic(values: seq<real>, q: real, k: nat)
    requires values != [] && 0.0 <= q <= 1.0 && k < |values| && Rank(|values|, q) == k as real
    ensures Percentile(values, q) == values[k]
  {
  }

  /** It grows with the quantile ... */
  lemma PercentileIsMonotone(values: seq<real>, p: real, q: real)
    requires Ascending(values) && 0.0 <= p <= q <= 1.0
    ensures Percentile(values, p) <= Percentile(values, q)
  {
    if |values| > 1 {
      RankInRange(|values|, p);
      RankInRange(|values|, q);
      RankIsMonotone(|values|, p, q);
      ValueIsMonotone(values, Rank(|values|, p), Rank(|values|, q));
    }
  }

  /** ... and with the values, point by point. */
  lemma PercentileIsMonotonePointwise(values: seq<real>, values': seq<real>, q: real)
    requires |values| == |values'| && 0.0 <= q <= 1.0
    requires forall i :: 0 <= i < |values| ==> values[i] <= values'[i]
    ensures Percentile(values, q) <= Percentile(values', q)
  {
    if |values| > 1 {
      RankInRange(|values|, q);
      var x := Rank(|values|, q);
      if x.Floor != Ceil(x) {
        BetweenIsMonotonePointwise(values[x.Floor], values[Ceil(x)], values'[x.Floor], values'[Ceil(x)],
            x - x.Floor as real);
      }
    }
  }

  /** A change of unit changes the percentile alike. */
  lemma PercentileIsAffine(values: seq<real>, values': seq<real>, a: real, b: real, q: real)
    requires values != [] && |values'| == |values| && 0.0 <= q <= 1.0
    requires forall i :: 0 <= i < |values| ==> values'[i] == a * values[i] + b
    ensures Percentile(values', q) == a * Percentile(values, q) + b
  {
    if |values| > 1 {
      RankInRange(|values|, q);
      var x := Rank(|values|, q);
      if x.Floor != Ceil(x) {
        BetweenIsAffine(values[x.Floor], values[Ceil(x)], x - x.Floor as real, a, b);
      }
    }
  }

  lemma BetweenIsAffine(u: real, v: real, f: real, a: real, b: real)
    ensures Between(a * u + b, a * v + b, f) == a * Between(u, v, f) + b
  {
    assert (a * u + b) * (1.0 - f) == a * (u * (1.0 - f)) + b * (1.0 - f);
    assert (a * v + b) * f == a * (v * f) + b * f;
  }

  // ---------------------------------------------------------------------------------
  // Summaries.
  // ---------------------------------------------------------------------------------

  /** A sampled value; a missing time counts as time zero, the earliest there is. */
  datatype Point = Point(time: nat, value: real)

  function ToValue(): Point -> real { (p: Point) => p.value }
  function ToTime(): Point -> real { (p: Point) => p.time as real }
  function Itself(): real -> real { (x: real) => x }

  function Sum(values: seq<real>): real {
    if values == [] then 0.0 else Sum(Init(values)) + Last(values)
  }

  function Average(values: seq<real>): real
    requires values != []
  {
    Sum(values) / |values| as real
  }

  /** The index of the last of the latest points. */
  function LatestIndex(points: seq<Point>): nat
    requires points != []
    ensures LatestIndex(points) < |points|
  {
    if |points| == 1 then 0
    else
      var before := LatestIndex(Init(points));
      if points[before].time <= Last(points).time then |points| - 1 else before
  }

  /** Its numbers before rounding. */
  datatype Summary = Summary(average: real, peak: real, p95: real, latest: real)

  const Q95 := 0.95

  function SummaryOf(points: seq<Point>): Option<Summary> {
    if points == [] then None
    else
      var values := Map(points, ToValue());
      var sorted := SortBy(values, Itself());
      SortBySorts(values, Itself());
      assert |multiset(sorted)| == |multiset(values)|;
      Some(Summary(Average(sorted), Last(sorted), Percentile(sorted, Q95), points[LatestIndex(points)].value))
  }

  lemma {:induction false} SumWithin(values: seq<real>, low: real, high: real)
    requires forall i :: 0 <= i < |values| ==> low <= values[i] <= high
    ensures |values| as real * low <= Sum(values) <= |values| as real * high
  {
    if values != [] {
      SumWithin(Init(values), low, high);
      assert |values| as real * low == |Init(values)| as real * low + low;
      assert |values| as real * high == |Init(values)| as real * high + high;
    }
  }

  lemma AverageWithin(values: seq<real>, low: real, high: real)
    requires values != [] && forall i :: 0 <= i < |values| ==> low <= values[i] <= high
    ensures low <= Average(values) <= high
  {
    SumWithin(values, low, high);
    var n := |values| as real;
    Divided(n, low, Sum(values), high);
  }

  lemma Divided(n: real, low: real, sum: real, high: real)
    requires n > 0.0 && n * low <= sum <= n * high
    ensures low <= sum / n <= high
  {
    assert n * (sum / n) == sum;
    CancelFactor(n, low, sum / n);
    CancelFactor(n, sum / n, high);
  }

  lemma SortedAscends(values: seq<real>)
    ensures Ascending(SortBy(values, Itself())) && |SortBy(values, Itself())| == |values|
    ensures forall x :: x in SortBy(values, Itself()) <==> x in values
  {
    hide SortBy;
    SortBySorts(values, Itself());
    var sorted := SortBy(values, Itself());
    SameElements(sorted, values);
    forall i, j | 0 <= i < j < |sorted|
      ensures sorted[i] <= sorted[j]
    {
      assert Itself()(sorted[i]) <= Itself()(sorted[j]);
    }
  }

  lemma SameElements<T(!new)>(xs: seq<T>, ys: seq<T>)
    requires multiset(xs) == multiset(ys)
    ensures |xs| == |ys| && forall x :: x in xs <==> x in ys
  {
    assert |multiset(xs)| == |xs| && |multiset(ys)| == |ys|;
    forall x
      ensures x in xs <==> x in ys
    {
      assert x in multiset(xs) <==> x in multiset(ys);
    }
  }

  /** The peak is the largest value; every value, the average and the 95th percentile lie between
      the smallest value and the peak. */
  lemma SummaryLiesWithinValues(points: seq<Point>, low: real)
    requires points != [] && forall i :: 0 <= i < |points| ==> low <= points[i].value
    ensures var s := SummaryOf(points).value;
      && (exists i :: 0 <= i < |points| && points[i].value == s.peak)
      && (forall i :: 0 <= i < |points| ==> points[i].value <= s.peak)
      && low <= s.average <= s.peak
      && low <= s.p95 <= s.peak
      && low <= s.latest <= s.peak
  {
    var values := Map(points, ToValue());
    var sorted := SortBy(values, Itself());
    SortedAscends(values);
    assert Last(sorted) in values;
    forall i | 0 <= i < |points|
      ensures low <= points[i].value <= Last(sorted)
    {
      assert values[i] in values && values[i] in sorted;
    }
    forall j | 0 <= j < |sorted|
      ensures low <= sorted[j] <= Last(sorted)
    {
      assert sorted[j] in sorted && sorted[j] in values;
    }
    AverageWithin(sorted, low, Last(sorted));
    PercentileLiesBetweenNeighbours(sorted, Q95);
  }

  /** The latest value is that of the last point no other one is later than. */
  lemma {:induction false} LatestIsLastOfLatest(points: seq<Point>)
    requires points != []
    ensures var k := LatestIndex(points);
      && (forall i :: 0 <= i < |points| ==> points[i].time <= points[k].time)
      && (forall i :: k < i < |points| ==> points[i].time < points[k].time)
  {
    if |points| > 1 {
      LatestIsLastOfLatest(Init(points));
    }
  }

  lemma LastIsLargest(xs: seq<real>, x: real)
    requires Ascending(xs) && x in xs
    ensures xs != [] && x <= Last(xs)
  {
  }

  lemma MultisetOfInit<T(!new)>(xs: seq<T>)
    requires xs != []
    ensures multiset(Init(xs)) == multiset(xs) - multiset{Last(xs)}
    ensures Init(xs) + [Last(xs)] == xs && Last(xs) in xs
  {
    assert xs == Init(xs) + [Last(xs)];
  }

  lemma SameLast(xs: seq<real>, ys: seq<real>)
    requires Ascending(xs) && Ascending(ys) && multiset(xs) == multiset(ys) && xs != []
    ensures ys != [] && Last(xs) == Last(ys)
  {
    SameElements(xs, ys);
    LastIsLargest(ys, Last(xs));
    LastIsLargest(xs, Last(ys));
  }

  lemma SameInit<T(!new)>(xs: seq<T>, ys: seq<T>)
    requires xs != [] && ys != [] && multiset(xs) == multiset(ys) && Last(xs) == Last(ys)
    ensures multiset(Init(xs)) == multiset(Init(ys))
    ensures Init(xs) == Init(ys) ==> xs == ys
  {
    MultisetOfInit(xs);
    MultisetOfInit(ys);
  }

  lemma {:induction false} SortedIsUnique(xs: seq<real>, ys: seq<real>)
    requires Ascending(xs) && Ascending(ys) && multiset(xs) == multiset(ys)
    ensures xs == ys
  {
    if xs == [] {
      assert |multiset(ys)| == 0;
    } else {
      SameLast(xs, ys);
      SameInit(xs, ys);
      SortedIsUnique(Init(xs), Init(ys));
    }
  }

  lemma {:induction false} MultisetOfImages<T(!new), U(!new)>(xs: seq<T>, ys: seq<T>, f: T -> U)
    requires multiset(xs) == multiset(ys)
    ensures multiset(Map(xs, f)) == multiset(Map(ys, f))
  {
    SameElements(xs, ys);
    if xs != [] {
      var last := |xs| - 1;
      assert xs[last] in xs && xs[last] in ys;
      var j :| 0 <= j < |ys| && ys[j] == xs[last];
      MultisetWithout(xs, last);
      MultisetWithout(ys, j);
      MultisetOfImages(Without(xs, last), Without(ys, j), f);
      ImageWithout(xs, last, f);
      ImageWithout(ys, j, f);
    }
  }

  lemma ImageWithout<T(!new), U(!new)>(xs: seq<T>, j: nat, f: T -> U)
    requires j < |xs|
    ensures multiset(Map(xs, f)) == multiset(Map(Without(xs, j), f)) + multiset{f(xs[j])}
  {
    var ys := Map(xs, f);
    assert Map(Without(xs, j), f) == Without(ys, j);
    MultisetWithout(ys, j);
    assert ys[j] in multiset(ys);
  }

  /** Average, peak and percentile do not depend on the order of the samples. */
  lemma SummaryIgnoresOrder(points: seq<Point>, points': seq<Point>)
    requires points != [] && multiset(points) == multiset(points')
    ensures points' != []
    ensures var s, s' := SummaryOf(points).value, SummaryOf(points').value;
      s'.average == s.average && s'.peak == s.peak && s'.p95 == s.p95
  {
    SameElements(points, points');
    var values, values' := Map(points, ToValue()), Map(points', ToValue());
    MultisetOfImages(points, points', ToValue());
    SortedAscends(values);
    SortedAscends(values');
    SortBySorts(values, Itself());
    SortBySorts(values', Itself());
    SortedIsUnique(SortBy(values, Itself()), SortBy(values', Itself()));
  }

  lemma {:induction false} SumConcat(xs: seq<real>, ys: seq<real>)
    ensures Sum(xs + ys) == Sum(xs) + Sum(ys)
    decreases |ys|
  {
    if ys == [] {
      assert xs + ys == xs;
    } else {
      SumConcat(xs, Init(ys));
      assert Init(xs + ys) == xs + Init(ys);
    }
  }

  lemma SumWithout(xs: seq<real>, j: nat)
    requires j < |xs|
    ensures Sum(xs) == Sum(Without(xs, j)) + xs[j]
  {
    Around(xs, j);
    SumConcat(xs[..j] + [xs[j]], xs[j + 1..]);
    SumConcat(xs[..j], [xs[j]]);
    SumConcat(xs[..j], xs[j + 1..]);
  }

  lemma {:induction false} SumPermutation(xs: seq<real>, ys: seq<real>)
    requires multiset(xs) == multiset(ys)
    ensures Sum(xs) == Sum(ys)
  {
    SameElements(xs, ys);
    if xs != [] {
      var last := |xs| - 1;
      assert xs[last] in xs && xs[last] in ys;
      var j :| 0 <= j < |ys| && ys[j] == xs[last];
      MultisetWithout(xs, last);
      MultisetWithout(ys, j);
      SumWithout(xs, last);
      SumWithout(ys, j);
      SumPermutation(Without(xs, last), Without(ys, j));
    }
  }

  /** The values of the samples, added up from the front. */
  function SumOf(points: seq<Point>): real {
    if points == [] then 0.0 else points[0].value + SumOf(points[1..])
  }

  lemma {:induction false} SumFromTheFront(points: seq<Point>)
    ensures Sum(Map(points, ToValue())) == SumOf(points)
  {
    if points != [] {
      var values := Map(points, ToValue());
      SumFromTheFront(points[1..]);
      assert values == [points[0].value] + Map(points[1..], ToValue());
      SumConcat([points[0].value], Map(points[1..], ToValue()));
      assert Init([points[0].value]) == [];
    }
  }

  /** The average times the number of samples is their sum. */
  lemma AverageTimesCountIsSum(points: seq<Point>)
    requires points != []
    ensures SummaryOf(points).value.average * |points| as real == SumOf(points)
  {
    hide SortBy, Percentile, Average, Sum, SumOf, LatestIndex;
    var values := Map(points, ToValue());
    SortedAscends(values);
    SortBySorts(values, Itself());
    SumPermutation(SortBy(values, Itself()), values);
    SumFromTheFront(points);
    AverageTimesCount(SortBy(values, Itself()));
  }

  lemma AverageTimesCount(values: seq<real>)
    requires values != []
    ensures Average(values) * |values| as real == Sum(values)
  {
    hide Sum;
    var n := |values| as real;
    assert (Sum(values) / n) * n == Sum(values);
  }

  /** Of the values at the places k and k + 1, each counts by how near it is. */
  function Weighted(a: real, b: real, place: real, k: int): real {
    a * ((k + 1) as real - place) + b * (place - k as real)
  }

  /** The 95th percentile by hand: with n ascending values, take the place (n - 1) * 0.95. On a whole
      place it is the value there, and in between the values at the two places next to it, weighted
      by nearness. */
  lemma P95ByHand(points: seq<Point>, sorted: seq<real>)
    requires points != [] && Ascending(sorted) && multiset(sorted) == multiset(Map(points, ToValue()))
    ensures |sorted| == |points|
    ensures var place := (|sorted| - 1) as real * 0.95;
      var k := place.Floor;
      && 0 <= k < |sorted|
      && (place == k as real ==> SummaryOf(points).value.p95 == sorted[k])
      && (place != k as real ==>
            && k + 1 < |sorted|
            && SummaryOf(points).value.p95 == Weighted(sorted[k], sorted[k + 1], place, k))
  {
    hide SortBy, Percentile, Average, LatestIndex, Ascending, Ceil, Between, Rank, Weighted;
    var values := Map(points, ToValue());
    SameElements(sorted, values);
    SortedAscends(values);
    SortBySorts(values, Itself());
    SortedIsUnique(sorted, SortBy(values, Itself()));
    P95IsInterpolated(sorted);
  }

  lemma P95IsInterpolated(sorted: seq<real>)
    requires sorted != []
    ensures var place := (|sorted| - 1) as real * 0.95;
      var k := place.Floor;
      && 0 <= k < |sorted|
      && (place == k as real ==> Percentile(sorted, Q95) == sorted[k])
      && (place != k as real ==>
            && k + 1 < |sorted|
            && Percentile(sorted, Q95) == Weighted(sorted[k], sorted[k + 1], place, k))
  {
    var n := |sorted|;
    RankInRange(n, Q95);
    RankOfQ95(n);
    hide Between, Rank, Weighted;
    var place := Rank(n, Q95);
    var k := place.Floor;
    if place != k as real {
      WeightsByHand(sorted[k], sorted[k + 1], place, k);
    }
  }

  lemma RankOfQ95(n: nat)
    ensures Rank(n, Q95) == (n - 1) as real * 0.95
  {
  }

  lemma WeightsByHand(a: real, b: real, place: real, k: int)
    ensures Between(a, b, place - k as real) == Weighted(a, b, place, k)
  {
    assert 1.0 - (place - k as real) == (k + 1) as real - place;
  }

  // ---------------------------------------------------------------------------------
  // Memory growth.
  // ---------------------------------------------------------------------------------

  /** How many samples the windows at both ends hold. */
  function WindowSize(n: nat): nat {
    var third := if n / 3 < 5 then n / 3 else 5;
    if third < 2 then 2 else third
  }

  datatype Growth = Growth(delta: real, ratio: real, isHigh: bool)

  function MemoryGrowth(samples: seq<Point>, minDelta: real, minRatio: real): Option<Growth> {
    if |samples| < 4 then None
    else
      var points := InTimeOrder(samples);
      var w := WindowSize(|points|);
      var start, end := Average(Map(points[..w], ToValue())), Average(Map(points[|points| - w..], ToValue()));
      if start <= 0.0 then None
      else
        var delta, ratio := end - start, (end - start) / start;
        if delta < minDelta || ratio < minRatio then None else Some(Growth(delta, ratio, ratio >= 0.5))
  }

  /** By time, samples of the same time in the order they were taken. */
  function InTimeOrder(samples: seq<Point>): (points: seq<Point>)
    ensures |points| == |samples|
    ensures forall i, j :: 0 <= i < j < |points| ==> points[i].time <= points[j].time
  {
    SortedByTime(samples);
    SortBy(samples, ToTime())
  }

  lemma SortedByTime(samples: seq<Point>)
    ensures var points := SortBy(samples, ToTime());
      |points| == |samples| && forall i, j :: 0 <= i < j < |points| ==> points[i].time <= points[j].time
  {
    hide SortBy;
    var points := SortBy(samples, ToTime());
    SortBySorts(samples, ToTime());
    SameElements(points, samples);
    forall i, j | 0 <= i < j < |points|
      ensures points[i].time <= points[j].time
    {
      assert ToTime()(points[i]) <= ToTime()(points[j]);
    }
  }

  /** The two windows never share a sample. */
  lemma WindowsAreDisjoint(n: nat)
    requires n >= 4
    ensures 2 <= WindowSize(n) <= n - WindowSize(n)
  {
  }

  lemma Extremes(values: seq<real>) returns (low: nat, high: nat)
    requires values != []
    ensures low < |values| && high < |values|
    ensures forall i :: 0 <= i < |values| ==> values[low] <= values[i] <= values[high]
    ensures values[low] <= Average(values) <= values[high]
  {
    low, high := 0, 0;
    for i := 0 to |values|
      invariant low < |values| && high < |values|
      invariant forall j :: 0 <= j < i ==> values[low] <= values[j] <= values[high]
    {
      if values[i] < values[low] {
        low := i;
      }
      if values[i] > values[high] {
        high := i;
      }
    }
    AverageWithin(values, values[low], values[high]);
  }

  /** A reported growth is witnessed by two samples, the later one in time order larger by at
      least the reported difference, which is at least the threshold; growth is not reported
      where no such pair exists. */
  lemma ReportedGrowthIsWitnessed(samples: seq<Point>, minDelta: real, minRatio: real) returns (i: nat, j: nat)
    requires MemoryGrowth(samples, minDelta, minRatio).Some?
    ensures i < j < |InTimeOrder(samples)|
    ensures var points, g := InTimeOrder(samples), MemoryGrowth(samples, minDelta, minRatio).value;
      points[i].time <= points[j].time && points[j].value - points[i].value >= g.delta >= minDelta
  {
    var points := InTimeOrder(samples);
    var n, w := |points|, WindowSize(|points|);
    WindowsAreDisjoint(n);
    var first, last := Map(points[..w], ToValue()), Map(points[n - w..], ToValue());
    var low, _ := Extremes(first);
    var _, high := Extremes(last);
    i, j := low, n - w + high;
    assert first[low] == points[i].value && last[high] == points[j].value;
  }

  lemma WindowSizeIsThird(n: nat)
    requires n >= 4
    ensures WindowSize(n) == if n < 9 then 2 else if n < 15 then n / 3 else 5
  {
  }

  lemma Quotient(a: real, w: real, b: real)
    requires w > 0.0
    ensures a / w >= b <==> a >= b * w
  {
    Factor(a / w, w, a, b);
  }

  lemma Factor(c: real, w: real, a: real, b: real)
    requires w > 0.0 && c * w == a
    ensures c >= b <==> a >= b * w
  {
    if c >= b {
      MultiplyKeepsOrder(w, b, c);
    } else {
      MultiplyStrictly(w, c, b);
    }
  }

  lemma WindowAverage(points: seq<Point>)
    requires points != []
    ensures Average(Map(points, ToValue())) == SumOf(points) / |points| as real
  {
    SumFromTheFront(points);
  }

  lemma GrowthOfAverages(samples: seq<Point>, minDelta: real, minRatio: real, start: real, end: real)
    requires |samples| >= 4
    requires var points, w := InTimeOrder(samples), WindowSize(|samples|);
      && start == SumOf(points[..w]) / w as real
      && end == SumOf(points[|points| - w..]) / w as real
    ensures var growth := MemoryGrowth(samples, minDelta, minRatio);
      growth == if start <= 0.0 || end - start < minDelta || (end - start) / start < minRatio then None
                else Some(Growth(end - start, (end - start) / start, (end - start) / start >= 0.5))
  {
    hide InTimeOrder, Sum, SumOf, Average;
    var points, w := InTimeOrder(samples), WindowSize(|samples|);
    WindowAverage(points[..w]);
    WindowAverage(points[|points| - w..]);
  }

  /** Growth from the sum a of the first window to the sum b of the last one, of so many samples
      each, is reported exactly when it starts positive and grows by the least difference per
      sample and by the least ratio; it is high from one half on. */
  predicate IsGrowth(growth: Option<Growth>, a: real, b: real, size: real, minDelta: real, minRatio: real) {
    && (growth.Some? <==> a > 0.0 && b - a >= minDelta * size && b - a >= minRatio * a)
    && (growth.Some? ==>
          && growth.value.delta * size == b - a
          && growth.value.ratio * a == b - a
          && (growth.value.isHigh <==> b - a >= 0.5 * a))
  }

  /** From four samples on, the windows lie at both ends of time and hold a third of the samples, but
      at least two and at most five. */
  lemma GrowthReportedExactlyWhen(samples: seq<Point>, minDelta: real, minRatio: real)
    ensures var n, growth := |samples|, MemoryGrowth(samples, minDelta, minRatio);
      if n < 4 then growth == None
      else
        var points, w := InTimeOrder(samples), if n < 9 then 2 else if n < 15 then n / 3 else 5;
        IsGrowth(growth, SumOf(points[..w]), SumOf(points[n - w..]), w as real, minDelta, minRatio)
  {
    var n := |samples|;
    if n >= 4 {
      hide InTimeOrder, SumOf, WindowSize, MemoryGrowth, IsGrowth;
      WindowSizeIsThird(n);
      GrowthOfWindows(samples, minDelta, minRatio, WindowSize(n));
    }
  }

  lemma GrowthOfWindows(samples: seq<Point>, minDelta: real, minRatio: real, w: nat)
    requires |samples| >= 4 && w == WindowSize(|samples|)
    ensures var points := InTimeOrder(samples);
      && w <= |samples|
      && IsGrowth(MemoryGrowth(samples, minDelta, minRatio), SumOf(points[..w]), SumOf(points[|samples| - w..]),
                  w as real, minDelta, minRatio)
  {
    hide InTimeOrder, SumOf, MemoryGrowth, IsGrowth;
    var points, size := InTimeOrder(samples), w as real;
    var a, b := SumOf(points[..w]), SumOf(points[|points| - w..]);
    GrowthOfAverages(samples, minDelta, minRatio, a / size, b / size);
    GrowthBySums(MemoryGrowth(samples, minDelta, minRatio), a, b, size, minDelta, minRatio);
  }

  lemma GrowthBySums(growth: Option<Growth>, a: real, b: real, w: real, minDelta: real, minRatio: real)
    requires w > 0.0
    requires var start, end := a / w, b / w;
      growth == if start <= 0.0 || end - start < minDelta || (end - start) / start < minRatio then None
                else Some(Growth(end - start, (end - start) / start, (end - start) / start >= 0.5))
    ensures IsGrowth(growth, a, b, w, minDelta, minRatio)
  {
    GrowthByWindows(a, b, w, minDelta, minRatio);
  }

  lemma GrowthByWindows(a: real, b: real, w: real, minDelta: real, minRatio: real)
    requires w > 0.0
    ensures var start, end := a / w, b / w;
      && (start <= 0.0 <==> a <= 0.0)
      && (a > 0.0 ==>
            && (end - start >= minDelta <==> b - a >= minDelta * w)
            && ((end - start) / start >= minRatio <==> b - a >= minRatio * a)
            && ((end - start) / start >= 0.5 <==> b - a >= 0.5 * a)
            && (end - start) * w == b - a
            && (end - start) / start * a == b - a)
  {
    var start, end := a / w, b / w;
    assert start * w == a && end * w == b;
    assert (end - start) * w == b - a;
    Quotient(a, w, 0.0);
    assert start > 0.0 <==> a > 0.0 by {
      if a > 0.0 {
        Positive(a, w);
      }
    }
    if a > 0.0 {
      RatioOfSums(start, end, w);
      Quotient(b - a, w, minDelta);
      assert (b - a) / w == end - start;
      Quotient(b - a, a, minRatio);
      Quotient(b - a, a, 0.5);
    }
  }

  lemma Positive(a: real, w: real)
    requires a > 0.0 && w > 0.0
    ensures a / w > 0.0
  {
    assert (a / w) * w == a;
    if a / w <= 0.0 {
      MultiplyKeepsOrder(w, a / w, 0.0);
    }
  }

  lemma RatioOfSums(start: real, end: real, w: real)
    requires start > 0.0 && w > 0.0
    ensures start * w > 0.0
    ensures (end - start) / start == (end * w - start * w) / (start * w)
  {
    var ratio := (end - start) / start;
    MultiplyStrictly(w, 0.0, start);
    assert ratio * start == end - start;
    assert ratio * (start * w) == (ratio * start) * w;
    assert (end - start) * w == end * w - start * w;
  }
}
