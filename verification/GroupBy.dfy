/** Grouping a sequence by a key, as the services do it: one pass, groups in the order their
    keys first appear, members in the order they are met. */
module GroupBy {

  function Last<T(!new)>(xs: seq<T>): T
    requires xs != []
  {
    xs[|xs| - 1]
  }

  function Init<T(!new)>(xs: seq<T>): seq<T>
    requires xs != []
  {
    xs[..|xs| - 1]
  }

  lemma SplitSlice<T(!new)>(xs: seq<T>, a: nat, e: nat)
    requires a + e <= |xs|
    ensures xs[..a + e] == xs[..a] + xs[a..][..e]
    ensures xs[a..][e..] == xs[a + e..]
  {
  }

  lemma TakeOneMore<T(!new)>(xs: seq<T>, i: nat)
    requires i < |xs|
    ensures xs[..i + 1] == xs[..i] + [xs[i]]
    ensures Init(xs[..i + 1]) == xs[..i]
  {
  }

  lemma InitSlices<T(!new)>(xs: seq<T>, a: nat)
    requires xs != [] && a < |xs|
    ensures xs[..a] == Init(xs)[..a]
    ensures xs[a..] == Init(xs)[a..] + [Last(xs)]
  {
  }

  function Filter<T(!new)>(xs: seq<T>, p: T -> bool): (ys: seq<T>)
    ensures forall y :: y in ys <==> y in xs && p(y)
  {
    if xs == [] then []
    else
      assert xs == Init(xs) + [Last(xs)];
      if p(Last(xs)) then Filter(Init(xs), p) + [Last(xs)] else Filter(Init(xs), p)
  }

  lemma FilterSnoc<T(!new)>(xs: seq<T>, x: T, p: T -> bool)
    ensures Filter(xs + [x], p) == if p(x) then Filter(xs, p) + [x] else Filter(xs, p)
  {
    assert Init(xs + [x]) == xs;
  }

  lemma {:induction false} SameFilter<T(!new)>(xs: seq<T>, p: T -> bool, p': T -> bool)
    requires forall x :: x in xs ==> p(x) == p'(x)
    ensures Filter(xs, p) == Filter(xs, p')
  {
    if xs != [] {
      assert xs == Init(xs) + [Last(xs)];
      SameFilter(Init(xs), p, p');
    }
  }

  lemma {:induction false} FilterAll<T(!new)>(xs: seq<T>, p: T -> bool)
    requires forall x :: x in xs ==> p(x)
    ensures Filter(xs, p) == xs
  {
    if xs != [] {
      assert xs == Init(xs) + [Last(xs)];
      FilterAll(Init(xs), p);
    }
  }

  lemma {:induction false} FilterNone<T(!new)>(xs: seq<T>, p: T -> bool)
    requires forall x :: x in xs ==> !p(x)
    ensures Filter(xs, p) == []
  {
    if xs != [] {
      assert xs == Init(xs) + [Last(xs)];
      FilterNone(Init(xs), p);
    }
  }

  function Members<T(!new), K(==,!new)>(xs: seq<T>, key: T -> K, k: K): (ms: seq<T>)
    ensures forall m :: m in ms <==> m in xs && key(m) == k
  {
    if xs == [] then []
    else
      assert xs == Init(xs) + [Last(xs)];
      if key(Last(xs)) == k then Members(Init(xs), key, k) + [Last(xs)] else Members(Init(xs), key, k)
  }

  function Keys<T(!new), K(==,!new)>(xs: seq<T>, key: T -> K): (ks: seq<K>)
    ensures forall k :: k in ks <==> exists x :: x in xs && key(x) == k
    ensures forall i, j :: 0 <= i < j < |ks| ==> ks[i] != ks[j]
  {
    if xs == [] then []
    else
      assert xs == Init(xs) + [Last(xs)];
      var ks := Keys(Init(xs), key);
      if key(Last(xs)) in ks then ks else ks + [key(Last(xs))]
  }

  function Map<T, U>(xs: seq<T>, f: T -> U): (ys: seq<U>)
    ensures |ys| == |xs|
    ensures forall i :: 0 <= i < |xs| ==> ys[i] == f(xs[i])
  {
    seq(|xs|, i requires 0 <= i < |xs| => f(xs[i]))
  }

  function Elements<T(!new)>(xs: seq<T>): set<T> {
    set x | x in xs
  }

  lemma MapSnoc<T(!new), U(!new)>(xs: seq<T>, x: T, f: T -> U)
    ensures Map(xs + [x], f) == Map(xs, f) + [f(x)]
    ensures Elements(Map(xs + [x], f)) == Elements(Map(xs, f)) + {f(x)}
  {
  }

  /** The lists `f` gives for the first `n` keys, one after the other. */
  function FlatMap<K(!new), T(!new)>(ks: seq<K>, f: K -> seq<T>, n: nat): seq<T>
    requires n <= |ks|
  {
    if n == 0 then [] else FlatMap(ks, f, n - 1) + f(ks[n - 1])
  }

  function Total<T(!new)>(xs: seq<T>, weight: T -> int): int {
    if xs == [] then 0 else Total(Init(xs), weight) + weight(Last(xs))
  }

  /** The group weights, added up over a list of keys. */
  function GroupTotals<T(!new), K(==,!new)>(xs: seq<T>, key: T -> K, weight: T -> int, ks: seq<K>): int {
    if ks == [] then 0
    else GroupTotals(xs, key, weight, Init(ks)) + Total(Members(xs, key, Last(ks)), weight)
  }

  lemma {:induction false} TotalConcat<T(!new)>(xs: seq<T>, ys: seq<T>, weight: T -> int)
    ensures Total(xs + ys, weight) == Total(xs, weight) + Total(ys, weight)
    decreases |ys|
  {
    if ys == [] {
      assert xs + ys == xs;
    } else {
      TotalConcat(xs, Init(ys), weight);
      assert Init(xs + ys) == xs + Init(ys);
    }
  }

  lemma TotalSnoc<T(!new)>(xs: seq<T>, x: T, weight: T -> int)
    ensures Total(xs + [x], weight) == Total(xs, weight) + weight(x)
  {
    assert Init(xs + [x]) == xs;
  }

  function Without<T(!new)>(xs: seq<T>, j: nat): seq<T>
    requires j < |xs|
  {
    xs[..j] + xs[j + 1..]
  }

  lemma Around<T(!new)>(xs: seq<T>, j: nat)
    requires j < |xs|
    ensures xs == xs[..j] + [xs[j]] + xs[j + 1..]
  {
  }

  lemma MultisetWithout<T(!new)>(xs: seq<T>, j: nat)
    requires j < |xs|
    ensures multiset(Without(xs, j)) == multiset(xs) - multiset{xs[j]}
  {
    Around(xs, j);
  }

  lemma TotalWithout<T(!new)>(xs: seq<T>, j: nat, weight: T -> int)
    requires j < |xs|
    ensures Total(xs, weight) == Total(Without(xs, j), weight) + weight(xs[j])
  {
    Around(xs, j);
    TotalAround(xs[..j], xs[j], xs[j + 1..], weight);
  }

  lemma TotalAround<T(!new)>(xs: seq<T>, x: T, ys: seq<T>, weight: T -> int)
    ensures Total(xs + [x] + ys, weight) == Total(xs + ys, weight) + weight(x)
  {
    TotalConcat(xs + [x], ys, weight);
    TotalConcat(xs, ys, weight);
    TotalSnoc(xs, x, weight);
  }

  /** A total does not depend on the order of the items. */
  lemma {:induction false} TotalPermutation<T(!new)>(xs: seq<T>, ys: seq<T>, weight: T -> int)
    requires multiset(xs) == multiset(ys)
    ensures Total(xs, weight) == Total(ys, weight)
  {
    assert |multiset(ys)| == |ys| && |multiset(xs)| == |xs|;
    if xs != [] {
      var last := |xs| - 1;
      assert xs[last] in multiset(ys);
      var j :| 0 <= j < |ys| && ys[j] == xs[last];
      MultisetWithout(xs, last);
      MultisetWithout(ys, j);
      TotalWithout(xs, last, weight);
      TotalWithout(ys, j, weight);
      TotalPermutation(Without(xs, last), Without(ys, j), weight);
    }
  }

  lemma {:induction false} TotalSplit<T(!new)>(xs: seq<T>, p: T -> bool, q: T -> bool, weight: T -> int)
    requires forall i :: 0 <= i < |xs| ==> q(xs[i]) == !p(xs[i])
    ensures Total(xs, weight) == Total(Filter(xs, p), weight) + Total(Filter(xs, q), weight)
  {
    if xs != [] {
      var rest, x := Init(xs), Last(xs);
      TotalSplit(rest, p, q, weight);
      TotalSnoc(Filter(rest, p), x, weight);
      TotalSnoc(Filter(rest, q), x, weight);
    }
  }

  ghost predicate NoDuplicates<T(!new)>(xs: seq<T>) {
    forall i, j :: 0 <= i < j < |xs| ==> xs[i] != xs[j]
  }

  lemma {:induction false} MultiplicityWithoutDuplicates<T(!new)>(xs: seq<T>, x: T)
    requires NoDuplicates(xs)
    ensures multiset(xs)[x] == if x in xs then 1 else 0
  {
    if xs != [] {
      assert xs == Init(xs) + [Last(xs)];
      MultiplicityWithoutDuplicates(Init(xs), x);
    }
  }

  lemma SameElementsWithoutDuplicates<T(!new)>(xs: seq<T>, ys: seq<T>)
    requires NoDuplicates(xs) && NoDuplicates(ys)
    requires forall x :: x in xs <==> x in ys
    ensures multiset(xs) == multiset(ys)
  {
    forall x | true
      ensures multiset(xs)[x] == multiset(ys)[x]
    {
      MultiplicityWithoutDuplicates(xs, x);
      MultiplicityWithoutDuplicates(ys, x);
    }
  }

  lemma {:induction false} FilterKeepsNoDuplicates<T(!new)>(xs: seq<T>, p: T -> bool)
    requires NoDuplicates(xs)
    ensures NoDuplicates(Filter(xs, p))
  {
    if xs != [] {
      assert xs == Init(xs) + [Last(xs)];
      FilterKeepsNoDuplicates(Init(xs), p);
    }
  }

  /** One more item raises only the total of its own group. */
  lemma {:induction false} GroupTotalsSnoc<T(!new), K(!new)>(xs: seq<T>, x: T, key: T -> K, weight: T -> int,
      ks: seq<K>)
    requires forall i, j :: 0 <= i < j < |ks| ==> ks[i] != ks[j]
    ensures GroupTotals(xs + [x], key, weight, ks)
         == GroupTotals(xs, key, weight, ks) + if key(x) in ks then weight(x) else 0
  {
    if ks != [] {
      assert ks == Init(ks) + [Last(ks)];
      GroupTotalsSnoc(xs, x, key, weight, Init(ks));
      assert Init(xs + [x]) == xs;
      TotalConcat(Members(xs, key, Last(ks)), [x], weight);
      assert Init([x]) == [];
    }
  }

  lemma {:induction false} NoGroupOutsideKeys<T(!new), K(!new)>(xs: seq<T>, key: T -> K, k: K)
    requires k !in Keys(xs, key)
    ensures Members(xs, key, k) == []
  {
    if xs != [] {
      NoGroupOutsideKeys(Init(xs), key, k);
    }
  }

  lemma GroupsAreNotEmpty<T(!new), K(!new)>(xs: seq<T>, key: T -> K, k: K)
    requires k in Keys(xs, key)
    ensures Members(xs, key, k) != []
  {
    var x :| x in xs && key(x) == k;
    assert x in Members(xs, key, k);
  }

  /** Grouping loses nothing and counts nothing twice: over any list of distinct keys that
      covers the items, the group totals add up to the total. */
  lemma {:induction false} GroupingConservesTotals<T(!new), K(!new)>(xs: seq<T>, key: T -> K, weight: T -> int,
      ks: seq<K>)
    requires forall i, j :: 0 <= i < j < |ks| ==> ks[i] != ks[j]
    requires forall x :: x in xs ==> key(x) in ks
    ensures GroupTotals(xs, key, weight, ks) == Total(xs, weight)
  {
    if xs == [] {
      NothingToGroup(key, weight, ks);
    } else {
      assert xs == Init(xs) + [Last(xs)];
      GroupingConservesTotals(Init(xs), key, weight, ks);
      GroupTotalsSnoc(Init(xs), Last(xs), key, weight, ks);
    }
  }

  lemma {:induction false} NothingToGroup<T(!new), K(!new)>(key: T -> K, weight: T -> int, ks: seq<K>)
    ensures GroupTotals([], key, weight, ks) == 0
  {
    if ks != [] {
      NothingToGroup(key, weight, Init(ks));
    }
  }

  /** If every key is mapped to an item that weighs what its group weighs, the items together
      weigh what the groups weigh. */
  lemma {:induction false} GroupTotalsOfImages<T(!new), K(!new), U(!new)>(
    xs: seq<T>, key: T -> K, weight: T -> int, ks: seq<K>, f: K -> U, w: U -> int)
    requires forall k :: k in ks ==> w(f(k)) == Total(Members(xs, key, k), weight)
    ensures Total(Map(ks, f), w) == GroupTotals(xs, key, weight, ks)
  {
    if ks != [] {
      assert ks == Init(ks) + [Last(ks)];
      GroupTotalsOfImages(xs, key, weight, Init(ks), f, w);
      assert Init(Map(ks, f)) == Map(Init(ks), f);
    }
  }

  function One<T>(): T -> int {
    _ => 1
  }

  lemma {:induction false} TotalOfOnes<T(!new)>(xs: seq<T>)
    ensures Total(xs, One()) == |xs|
  {
    if xs != [] {
      TotalOfOnes(Init(xs));
    }
  }

  lemma MembersSnoc<T(!new), K(!new)>(xs: seq<T>, x: T, key: T -> K, k: K)
    ensures Members(xs + [x], key, k) == if key(x) == k then Members(xs, key, k) + [x] else Members(xs, key, k)
  {
    assert Init(xs + [x]) == xs;
  }

  /** What one more item does to the groups: it joins the group of its key, which it may open. */
  lemma OneMoreInGroup<T(!new), K(!new)>(xs: seq<T>, x: T, key: T -> K)
    ensures var k, ks := key(x), Keys(xs, key);
      && Keys(xs + [x], key) == (if k in ks then ks else ks + [k])
      && (k in ks <==> Members(xs, key, k) != [])
      && (forall j :: j != k ==> Members(xs + [x], key, j) == Members(xs, key, j))
      && Members(xs + [x], key, k) == Members(xs, key, k) + [x]
  {
    assert Init(xs + [x]) == xs;
    if key(x) in Keys(xs, key) {
      GroupsAreNotEmpty(xs, key, key(x));
    } else {
      NoGroupOutsideKeys(xs, key, key(x));
    }
  }

  lemma NoMembersOfNothing<T(!new), K(!new)>(key: T -> K, k: K)
    ensures Members([], key, k) == []
  {
  }

  lemma AppendLater<T(!new)>(xs: seq<T>, ys: seq<T>, y: T)
    ensures xs + (ys + [y]) == xs + ys + [y]
  {
  }

  lemma {:induction false} MembersConcat<T(!new), K(!new)>(xs: seq<T>, ys: seq<T>, key: T -> K, k: K)
    ensures Members(xs + ys, key, k) == Members(xs, key, k) + Members(ys, key, k)
    decreases |ys|
  {
    hide Members;
    if ys == [] {
      assert xs + ys == xs;
      NoMembersOfNothing<T, K>(key, k);
    } else {
      var rest, y := Init(ys), Last(ys);
      MembersConcat(xs, rest, key, k);
      MembersSnoc(xs + rest, y, key, k);
      MembersSnoc(rest, y, key, k);
      assert ys == rest + [y];
      AppendLater(xs, rest, y);
      AppendLater(Members(xs, key, k), Members(rest, key, k), y);
    }
  }

  lemma {:induction false} MembersOfOneGroup<T(!new), K(!new)>(xs: seq<T>, key: T -> K, g: K, k: K)
    requires forall x :: x in xs ==> key(x) == g
    ensures Members(xs, key, k) == if k == g then xs else []
  {
    if xs != [] {
      assert xs == Init(xs) + [Last(xs)];
      MembersOfOneGroup(Init(xs), key, g, k);
    }
  }

  /** Filtering and picking a group commute. */
  lemma {:induction false} MembersOfFilter<T(!new), K(!new)>(xs: seq<T>, key: T -> K, k: K, p: T -> bool, q: T -> bool)
    requires forall x :: x in xs && key(x) == k ==> p(x) == q(x)
    ensures Members(Filter(xs, p), key, k) == Filter(Members(xs, key, k), q)
  {
    if xs != [] {
      assert xs == Init(xs) + [Last(xs)];
      MembersOfFilter(Init(xs), key, k, p, q);
      var rest, x := Filter(Init(xs), p), Last(xs);
      assert Init(rest + [x]) == rest;
      assert Init(Members(Init(xs), key, k) + [x]) == Members(Init(xs), key, k);
    }
  }

  lemma {:induction false} FilterOfFilter<T(!new)>(xs: seq<T>, p: T -> bool, q: T -> bool, r: T -> bool)
    requires forall x :: x in xs ==> r(x) == (p(x) && q(x))
    ensures Filter(Filter(xs, p), q) == Filter(xs, r)
  {
    if xs != [] {
      assert xs == Init(xs) + [Last(xs)];
      FilterOfFilter(Init(xs), p, q, r);
      FilterSnoc(Filter(Init(xs), p), Last(xs), q);
    }
  }

  lemma {:induction false} MultiplicityInOwnGroup<T(!new), K(!new)>(xs: seq<T>, key: T -> K, x: T)
    ensures multiset(Members(xs, key, key(x)))[x] == multiset(xs)[x]
  {
    if xs != [] {
      assert xs == Init(xs) + [Last(xs)];
      MultiplicityInOwnGroup(Init(xs), key, x);
    }
  }

  lemma AtMostOnceEach<T(!new)>(xs: seq<T>)
    requires forall x :: multiset(xs)[x] <= 1
    ensures NoDuplicates(xs)
  {
    forall i, j | 0 <= i < j < |xs|
      ensures xs[i] != xs[j]
    {
      assert xs == xs[..j] + xs[j..];
      assert xs[i] in xs[..j] && xs[j] in xs[j..];
      assert multiset(xs)[xs[j]] == multiset(xs[..j])[xs[j]] + multiset(xs[j..])[xs[j]];
    }
  }

  ghost predicate Among<K(!new)>(ks: seq<K>, n: nat, k: K) {
    exists i :: 0 <= i < n && i < |ks| && ks[i] == k
  }

  /** When `f` gives only items of its own key, picking a key's items from the flat list gives
      back what `f` gave. */
  lemma {:induction false} MembersOfFlatMap<K(!new), T(!new)>(ks: seq<K>, f: K -> seq<T>, n: nat, key: T -> K, k: K)
    requires n <= |ks| && NoDuplicates(ks)
    requires forall k, x :: x in f(k) ==> key(x) == k
    ensures Members(FlatMap(ks, f, n), key, k) == if Among(ks, n, k) then f(k) else []
  {
    hide Members;
    NoMembersOfNothing<T, K>(key, k);
    if n > 0 {
      var last := ks[n - 1];
      MembersOfFlatMap(ks, f, n - 1, key, k);
      MembersConcat(FlatMap(ks, f, n - 1), f(last), key, k);
      MembersOfOneGroup(f(last), key, last, k);
      if k == last {
        assert Among(ks, n, k) && !Among(ks, n - 1, k);
      } else {
        assert Among(ks, n, k) <==> Among(ks, n - 1, k);
      }
    }
  }

  // ---------------------------------------------------------------------------------
  // Coarser keys.
  // ---------------------------------------------------------------------------------

  ghost predicate Coarsens<T(!new), K(!new), L(!new)>(xs: seq<T>, fine: T -> K, coarse: T -> L) {
    forall x, y :: x in xs && y in xs && fine(x) == fine(y) ==> coarse(x) == coarse(y)
  }

  lemma {:induction false} FineGroupInsideCoarseGroup<T(!new), K(!new), L(!new)>(xs: seq<T>, fine: T -> K,
      coarse: T -> L, k: K, l: L)
    requires forall x :: x in xs && fine(x) == k ==> coarse(x) == l
    ensures Members(Members(xs, coarse, l), fine, k) == Members(xs, fine, k)
  {
    if xs != [] {
      assert xs == Init(xs) + [Last(xs)];
      FineGroupInsideCoarseGroup(Init(xs), fine, coarse, k, l);
      if coarse(Last(xs)) == l {
        assert Init(Members(xs, coarse, l)) == Members(Init(xs), coarse, l);
      }
    }
  }

  /** A coarser key never makes more groups. */
  lemma {:induction false} CoarserKeyHasFewerGroups<T(!new), K(!new), L(!new)>(xs: seq<T>, fine: T -> K, coarse: T -> L)
    requires Coarsens(xs, fine, coarse)
    ensures |Keys(xs, coarse)| <= |Keys(xs, fine)|
  {
    if xs != [] {
      assert xs == Init(xs) + [Last(xs)];
      CoarserKeyHasFewerGroups(Init(xs), fine, coarse);
    }
  }

  /** Grouping the images of items is the same as grouping the items by the image's key. */
  lemma {:induction false} GroupsOfImages<T(!new), U(!new), K(!new)>(xs: seq<T>, f: T -> U, key: U -> K,
      key': T -> K, k: K)
    requires forall x :: x in xs ==> key(f(x)) == key'(x)
    ensures Members(Map(xs, f), key, k) == Map(Members(xs, key', k), f)
    ensures Keys(Map(xs, f), key) == Keys(xs, key')
  {
    if xs != [] {
      assert xs == Init(xs) + [Last(xs)];
      GroupsOfImages(Init(xs), f, key, key', k);
      MapSnoc(Init(xs), Last(xs), f);
      assert Init(Map(xs, f)) == Map(Init(xs), f);
      MapSnoc(Members(Init(xs), key', k), Last(xs), f);
    }
  }

  /** A coarse group splits into whole fine groups, and their sizes add up to its size. */
  lemma CoarseGroupIsUnionOfFineGroups<T(!new), K(!new), L(!new)>(xs: seq<T>, fine: T -> K, coarse: T -> L, l: L)
    requires Coarsens(xs, fine, coarse)
    ensures var group := Members(xs, coarse, l);
      && (forall k :: k in Keys(group, fine) ==> Members(xs, fine, k) == Members(group, fine, k))
      && GroupTotals(xs, fine, One(), Keys(group, fine)) == |group|
  {
    var group := Members(xs, coarse, l);
    forall k | k in Keys(group, fine)
      ensures Members(xs, fine, k) == Members(group, fine, k)
    {
      var x :| x in group && fine(x) == k;
      FineGroupInsideCoarseGroup(xs, fine, coarse, k, l);
    }
    GroupTotalsAgree(xs, group, fine, One(), Keys(group, fine));
    GroupingConservesTotals(group, fine, One(), Keys(group, fine));
    TotalOfOnes(group);
  }

  lemma {:induction false} GroupTotalsAgree<T(!new), K(!new)>(xs: seq<T>, ys: seq<T>, key: T -> K, weight: T -> int,
      ks: seq<K>)
    requires forall k :: k in ks ==> Members(xs, key, k) == Members(ys, key, k)
    ensures GroupTotals(xs, key, weight, ks) == GroupTotals(ys, key, weight, ks)
  {
    if ks != [] {
      assert ks == Init(ks) + [Last(ks)];
      GroupTotalsAgree(xs, ys, key, weight, Init(ks));
    }
  }

  // ---------------------------------------------------------------------------------
  // Redirecting one key to another.
  // ---------------------------------------------------------------------------------

  ghost predicate Redirects<T(!new), K(!new)>(xs: seq<T>, key: T -> K, key': T -> K, a: K, b: K) {
    forall x :: x in xs ==> key'(x) == if key(x) == a then b else key(x)
  }

  lemma {:induction false} RedirectLeavesOthers<T(!new), K(!new)>(
    xs: seq<T>, key: T -> K, key': T -> K, a: K, b: K, k: K)
    requires Redirects(xs, key, key', a, b) && k != b
    ensures Members(xs, key', k) == if k == a then [] else Members(xs, key, k)
  {
    if xs != [] {
      var rest, x := Init(xs), Last(xs);
      assert x in xs && forall y :: y in rest ==> y in xs;
      RedirectLeavesOthers(rest, key, key', a, b, k);
    }
  }

  lemma {:induction false} RedirectFillsTarget<T(!new), K(!new), U(!new)>(
    xs: seq<T>, key: T -> K, key': T -> K, a: K, b: K, f: T -> U)
    requires Redirects(xs, key, key', a, b) && a != b
    ensures multiset(Map(Members(xs, key', b), f))
         == multiset(Map(Members(xs, key, a), f)) + multiset(Map(Members(xs, key, b), f))
  {
    if xs != [] {
      var rest, x := Init(xs), Last(xs);
      assert x in xs && forall y :: y in rest ==> y in xs;
      RedirectFillsTarget(rest, key, key', a, b, f);
      if key'(x) == b {
        MapSnoc(Members(rest, key', b), x, f);
        MapSnoc(Members(rest, key, key(x)), x, f);
      }
    }
  }

  /** After redirecting `a` to `b`, group `b` holds what both held, under any image of the
      members; group `a` is empty; every other group is the same sequence. */
  lemma RedirectMergesGroups<T(!new), K(!new), U(!new)>(
    xs: seq<T>, key: T -> K, key': T -> K, a: K, b: K, f: T -> U)
    requires Redirects(xs, key, key', a, b) && a != b
    ensures multiset(Map(Members(xs, key', b), f))
         == multiset(Map(Members(xs, key, a), f)) + multiset(Map(Members(xs, key, b), f))
    ensures Members(xs, key', a) == []
    ensures forall k :: k != a && k != b ==> Members(xs, key', k) == Members(xs, key, k)
  {
    RedirectFillsTarget(xs, key, key', a, b, f);
    RedirectLeavesOthers(xs, key, key', a, b, a);
    forall k | k != a && k != b
      ensures Members(xs, key', k) == Members(xs, key, k)
    {
      RedirectLeavesOthers(xs, key, key', a, b, k);
    }
  }
}
