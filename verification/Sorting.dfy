/** Stable sorting by a key. */
module Sorting {
  import opened GroupBy

  ghost predicate SortedBy<T(!new)>(xs: seq<T>, key: T -> real) {
    forall i, j :: 0 <= i < j < |xs| ==> key(xs[i]) <= key(xs[j])
  }

  /** `x` goes behind every element that is not larger. */
  function InsertBy<T(!new)>(sorted: seq<T>, x: T, key: T -> real): seq<T> {
    if sorted == [] || key(Last(sorted)) <= key(x) then sorted + [x]
    else InsertBy(Init(sorted), x, key) + [Last(sorted)]
  }

  function SortBy<T(!new)>(xs: seq<T>, key: T -> real): seq<T> {
    if xs == [] then [] else InsertBy(SortBy(Init(xs), key), Last(xs), key)
  }

  /** A bound on all elements. */
  ghost predicate Below<T(!new)>(xs: seq<T>, key: T -> real, bound: real) {
    forall i :: 0 <= i < |xs| ==> key(xs[i]) <= bound
  }

  lemma {:induction false} InsertKeepsOrder<T(!new)>(sorted: seq<T>, x: T, key: T -> real)
    requires SortedBy(sorted, key)
    ensures SortedBy(InsertBy(sorted, x, key), key)
    ensures forall bound :: Below(sorted, key, bound) && key(x) <= bound ==> Below(InsertBy(sorted, x, key), key, bound)
  {
    if sorted != [] && key(Last(sorted)) > key(x) {
      InsertKeepsOrder(Init(sorted), x, key);
      assert Below(InsertBy(Init(sorted), x, key), key, key(Last(sorted)));
      forall bound | Below(sorted, key, bound) && key(x) <= bound
        ensures Below(InsertBy(sorted, x, key), key, bound)
      {
        assert Below(Init(sorted), key, bound);
      }
    }
  }

  lemma {:induction false} InsertKeepsElements<T(!new)>(sorted: seq<T>, x: T, key: T -> real)
    ensures multiset(InsertBy(sorted, x, key)) == multiset(sorted) + multiset{x}
  {
    if sorted != [] && key(Last(sorted)) > key(x) {
      assert sorted == Init(sorted) + [Last(sorted)];
      InsertKeepsElements(Init(sorted), x, key);
    }
  }

  lemma {:induction false} SortBySorts<T(!new)>(xs: seq<T>, key: T -> real)
    ensures SortedBy(SortBy(xs, key), key)
    ensures multiset(SortBy(xs, key)) == multiset(xs)
  {
    if xs != [] {
      assert xs == Init(xs) + [Last(xs)];
      SortBySorts(Init(xs), key);
      InsertKeepsOrder(SortBy(Init(xs), key), Last(xs), key);
      InsertKeepsElements(SortBy(Init(xs), key), Last(xs), key);
    }
  }

  lemma {:induction false} InsertThenFilter<T(!new)>(sorted: seq<T>, x: T, key: T -> real, p: T -> bool)
    requires SortedBy(sorted, key)
    ensures Filter(InsertBy(sorted, x, key), p)
         == if p(x) then InsertBy(Filter(sorted, p), x, key) else Filter(sorted, p)
  {
    if sorted == [] || key(Last(sorted)) <= key(x) {
      assert Init(sorted + [x]) == sorted;
      var kept := Filter(sorted, p);
      assert kept != [] ==> Last(kept) in kept;
    } else {
      assert sorted == Init(sorted) + [Last(sorted)];
      InsertThenFilter(Init(sorted), x, key, p);
      var inserted := InsertBy(sorted, x, key);
      assert Init(inserted) == InsertBy(Init(sorted), x, key);
      if p(Last(sorted)) {
        var kept := Filter(sorted, p);
        assert Init(kept) == Filter(Init(sorted), p);
      }
    }
  }

  /** Sorting and filtering commute, so dropping elements never reorders the rest. */
  lemma {:induction false} SortThenFilter<T(!new)>(xs: seq<T>, key: T -> real, p: T -> bool)
    ensures Filter(SortBy(xs, key), p) == SortBy(Filter(xs, p), key)
  {
    if xs != [] {
      var rest, x := Init(xs), Last(xs);
      SortThenFilter(rest, key, p);
      SortBySorts(rest, key);
      InsertThenFilter(SortBy(rest, key), x, key, p);
      if p(x) {
        assert Init(Filter(rest, p) + [x]) == Filter(rest, p);
      }
    }
  }

  ghost predicate AllHaveKey<T(!new)>(xs: seq<T>, key: T -> real, k: real) {
    forall i :: 0 <= i < |xs| ==> key(xs[i]) == k
  }

  lemma {:induction false} SortingEqualKeysDoesNothing<T(!new)>(xs: seq<T>, key: T -> real, k: real)
    requires AllHaveKey(xs, key, k)
    ensures SortBy(xs, key) == xs
  {
    if xs != [] {
      var rest := Init(xs);
      assert AllHaveKey(rest, key, k);
      SortingEqualKeysDoesNothing(rest, key, k);
      assert xs == rest + [Last(xs)];
    }
  }

  /** The sort is stable: the elements of one key stay in their first order. */
  lemma SortIsStable<T(!new)>(xs: seq<T>, key: T -> real, k: real, hasKey: T -> bool)
    requires forall x :: hasKey(x) <==> key(x) == k
    ensures Filter(SortBy(xs, key), hasKey) == Filter(xs, hasKey)
  {
    SortThenFilter(xs, key, hasKey);
    var kept := Filter(xs, hasKey);
    assert forall i :: 0 <= i < |kept| ==> kept[i] in kept;
    SortingEqualKeysDoesNothing(kept, key, k);
  }
}
