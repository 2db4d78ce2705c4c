/** Rule files as JSON trees: the field-level diff of two trees and the merge of an edit patch. */
module RuleTree {
  import opened Wrappers
  import opened GroupBy
  import opened Ordering

  datatype Json =
    | Null
    | Bool(b: bool)
    | Num(n: real)
    | Str(s: string)
    | Arr(items: seq<Json>)
    | Obj(fields: map<string, Json>)

  type Path = seq<string>

  // ---------------------------------------------------------------------------------
  // Equality as the diff sees it: `true` and 1 compare equal, and so do `false` and 0,
  // at any depth.
  // ---------------------------------------------------------------------------------

  function Norm(j: Json): Json {
    match j
    case Bool(b) => Num(if b then 1.0 else 0.0)
    case Arr(items) => Arr(seq(|items|, i requires 0 <= i < |items| => Norm(items[i])))
    case Obj(fields) => Obj(map k | k in fields :: Norm(fields[k]))
    case _ => j
  }

  predicate LooselyEqual(l: Json, r: Json) {
    Norm(l) == Norm(r)
  }

  lemma LooselyEqualObjects(l: Json, r: Json)
    requires l.Obj? && r.Obj?
    ensures LooselyEqual(l, r) <==>
      l.fields.Keys == r.fields.Keys && forall k :: k in l.fields ==> LooselyEqual(l.fields[k], r.fields[k])
  {
    if LooselyEqual(l, r) {
      assert Norm(l).fields.Keys == l.fields.Keys && Norm(r).fields.Keys == r.fields.Keys;
      forall k | k in l.fields
        ensures LooselyEqual(l.fields[k], r.fields[k])
      {
        assert Norm(l).fields[k] == Norm(r).fields[k];
      }
    }
  }

  /** A number or a boolean of this value. */
  predicate HasValue(j: Json, n: real) {
    j == Num(n) || (j == Bool(true) && n == 1.0) || (j == Bool(false) && n == 0.0)
  }

  /** Case by case: two nulls, numbers or booleans of one value, strings with the same text, arrays
      of one length with loosely equal items, objects with the same keys and loosely equal fields,
      and nothing else. */
  lemma LooselyEqualExactlyWhen(l: Json, r: Json)
    ensures LooselyEqual(l, r) <==>
      || (l == Null && r == Null)
      || (exists n :: HasValue(l, n) && HasValue(r, n))
      || (l.Str? && r.Str? && l.s == r.s)
      || (l.Arr? && r.Arr? && |l.items| == |r.items|
          && forall i :: 0 <= i < |l.items| ==> LooselyEqual(l.items[i], r.items[i]))
      || (l.Obj? && r.Obj? && l.fields.Keys == r.fields.Keys
          && forall k :: k in l.fields ==> LooselyEqual(l.fields[k], r.fields[k]))
  {
    if l.Obj? && r.Obj? {
      LooselyEqualObjects(l, r);
    } else if l.Arr? && r.Arr? {
      LooselyEqualArrays(l, r);
    } else if (l.Num? || l.Bool?) && (r.Num? || r.Bool?) {
      var n := Norm(l).n;
      assert HasValue(l, n) && (LooselyEqual(l, r) <==> HasValue(r, n));
    }
  }

  lemma LooselyEqualArrays(l: Json, r: Json)
    requires l.Arr? && r.Arr?
    ensures LooselyEqual(l, r) <==>
      |l.items| == |r.items| && forall i :: 0 <= i < |l.items| ==> LooselyEqual(l.items[i], r.items[i])
  {
    if LooselyEqual(l, r) {
      assert |Norm(l).items| == |l.items| && |Norm(r).items| == |r.items|;
      forall i | 0 <= i < |l.items|
        ensures LooselyEqual(l.items[i], r.items[i])
      {
        assert Norm(l).items[i] == Norm(r).items[i];
      }
    }
  }

  predicate HasNoBooleans(j: Json) {
    match j
    case Bool(_) => false
    case Arr(items) => forall i :: 0 <= i < |items| ==> HasNoBooleans(items[i])
    case Obj(fields) => forall k :: k in fields ==> HasNoBooleans(fields[k])
    case _ => true
  }

  /** Without booleans, loosely equal trees are equal. */
  lemma {:induction false} LooseEqualityIsEqualityWithoutBooleans(l: Json, r: Json)
    requires HasNoBooleans(l) && HasNoBooleans(r)
    ensures LooselyEqual(l, r) <==> l == r
    decreases l
  {
    hide LooselyEqual;
    LooselyEqualExactlyWhen(l, r);
    if l.Arr? && r.Arr? && |l.items| == |r.items| {
      forall i | 0 <= i < |l.items|
        ensures LooselyEqual(l.items[i], r.items[i]) <==> l.items[i] == r.items[i]
      {
        LooseEqualityIsEqualityWithoutBooleans(l.items[i], r.items[i]);
      }
      assert l.items == r.items <==> forall i :: 0 <= i < |l.items| ==> l.items[i] == r.items[i];
    } else if l.Obj? && r.Obj? && l.fields.Keys == r.fields.Keys {
      forall k | k in l.fields
        ensures LooselyEqual(l.fields[k], r.fields[k]) <==> l.fields[k] == r.fields[k]
      {
        LooseEqualityIsEqualityWithoutBooleans(l.fields[k], r.fields[k]);
      }
      assert l.fields == r.fields <==> forall k :: k in l.fields ==> l.fields[k] == r.fields[k];
    } else if l.Num? && r.Num? {
      assert HasValue(l, l.n);
    }
  }

  // ---------------------------------------------------------------------------------
  // The diff.
  // ---------------------------------------------------------------------------------

  datatype Change = Added(now: Json) | Removed(was: Json) | Changed(left: Json, right: Json)

  datatype Entry = Entry(path: Path, change: Change)

  function DiffMapping(prefix: Path, left: Json, right: Json): seq<Entry>
    decreases left, 1, 0
  {
    if left.Obj? && right.Obj? then
      DiffKeys(prefix, left, right, SortedKeys(left.fields.Keys + right.fields.Keys))
    else if !LooselyEqual(left, right) then
      [Entry(prefix, Changed(left, right))]
    else
      []
  }

  function DiffKeys(prefix: Path, left: Json, right: Json, keys: seq<string>): seq<Entry>
    requires left.Obj? && right.Obj?
    requires forall k :: k in keys ==> k in left.fields || k in right.fields
    decreases left, 0, |keys|
  {
    if keys == [] then []
    else
      var key := Last(keys);
      assert key in keys;
      DiffKeys(prefix, left, right, Init(keys)) + DiffKey(prefix, left, right, key)
  }

  /** The entries one key contributes. */
  function DiffKey(prefix: Path, left: Json, right: Json, key: string): seq<Entry>
    requires left.Obj? && right.Obj? && (key in left.fields || key in right.fields)
    decreases left, 0, 0
  {
    if key !in left.fields then [Entry(prefix + [key], Added(right.fields[key]))]
    else if key !in right.fields then [Entry(prefix + [key], Removed(left.fields[key]))]
    else DiffMapping(prefix + [key], left.fields[key], right.fields[key])
  }

  function Under(prefix: Path): Entry -> Entry {
    (e: Entry) => Entry(prefix + e.path, e.change)
  }

  lemma MapConcat(xs: seq<Entry>, ys: seq<Entry>, f: Entry -> Entry)
    ensures Map(xs + ys, f) == Map(xs, f) + Map(ys, f)
  {
  }

  /** The prefix is only ever put in front: paths are relative to where the diff started. */
  lemma {:induction false} PrefixGoesInFront(prefix: Path, left: Json, right: Json)
    ensures DiffMapping(prefix, left, right) == Map(DiffMapping([], left, right), Under(prefix))
    decreases left, 1, 0
  {
    if left.Obj? && right.Obj? {
      PrefixGoesInFrontOfKeys(prefix, left, right, SortedKeys(left.fields.Keys + right.fields.Keys));
    } else {
      assert prefix + [] == prefix;
    }
  }

  lemma {:induction false} PrefixGoesInFrontOfKeys(prefix: Path, left: Json, right: Json, keys: seq<string>)
    requires left.Obj? && right.Obj?
    requires forall k :: k in keys ==> k in left.fields || k in right.fields
    ensures DiffKeys(prefix, left, right, keys) == Map(DiffKeys([], left, right, keys), Under(prefix))
    decreases left, 0, |keys|
  {
    if keys != [] {
      var key := Last(keys);
      assert key in keys;
      PrefixGoesInFrontOfKeys(prefix, left, right, Init(keys));
      if key in left.fields && key in right.fields {
        PrefixGoesInFront(prefix + [key], left.fields[key], right.fields[key]);
        PrefixGoesInFront([] + [key], left.fields[key], right.fields[key]);
        UnderTwice(prefix, [] + [key], DiffMapping([], left.fields[key], right.fields[key]));
        assert prefix + ([] + [key]) == prefix + [key];
      }
      MapConcat(DiffKeys([], left, right, Init(keys)), DiffKey([], left, right, key), Under(prefix));
      assert prefix + ([] + [key]) == prefix + [key];
    }
  }

  lemma UnderTwice(outer: Path, inner: Path, es: seq<Entry>)
    ensures Map(Map(es, Under(inner)), Under(outer)) == Map(es, Under(outer + inner))
  {
    forall i | 0 <= i < |es|
      ensures outer + (inner + es[i].path) == (outer + inner) + es[i].path
    {
    }
  }

  /** The diff is empty exactly when the trees are loosely equal. */
  lemma {:induction false} DiffIsEmptyExactlyWhenLooselyEqual(prefix: Path, left: Json, right: Json)
    ensures DiffMapping(prefix, left, right) == [] <==> LooselyEqual(left, right)
    decreases left, 1, 0
  {
    if left.Obj? && right.Obj? {
      var keys := SortedKeys(left.fields.Keys + right.fields.Keys);
      DiffOfKeysIsEmptyExactlyWhen(prefix, left, right, keys);
      LooselyEqualObjects(left, right);
    }
  }

  lemma {:induction false} DiffOfKeysIsEmptyExactlyWhen(prefix: Path, left: Json, right: Json, keys: seq<string>)
    requires left.Obj? && right.Obj?
    requires forall k :: k in keys ==> k in left.fields || k in right.fields
    ensures DiffKeys(prefix, left, right, keys) == [] <==>
      forall k :: k in keys ==> k in left.fields && k in right.fields && LooselyEqual(left.fields[k], right.fields[k])
    decreases left, 0, |keys|
  {
    if keys != [] {
      assert keys == Init(keys) + [Last(keys)];
      var key := Last(keys);
      DiffOfKeysIsEmptyExactlyWhen(prefix, left, right, Init(keys));
      if key in left.fields && key in right.fields {
        DiffIsEmptyExactlyWhenLooselyEqual(prefix + [key], left.fields[key], right.fields[key]);
      }
    }
  }

  /** Rules without booleans have an empty diff exactly when they are equal. */
  lemma DiffWithoutBooleansIsEmptyExactlyWhenEqual(prefix: Path, left: Json, right: Json)
    requires HasNoBooleans(left) && HasNoBooleans(right)
    ensures DiffMapping(prefix, left, right) == [] <==> left == right
  {
    hide DiffMapping, LooselyEqual, HasNoBooleans;
    DiffIsEmptyExactlyWhenLooselyEqual(prefix, left, right);
    LooseEqualityIsEqualityWithoutBooleans(left, right);
  }

  /** So an edit that only turns 1 into `true` goes unseen. */
  lemma TypeOnlyEditIsUnseen()
    ensures var l, r := Obj(map["threshold" := Num(1.0)]), Obj(map["threshold" := Bool(true)]);
      l != r && DiffMapping([], l, r) == []
  {
    var l, r := Obj(map["threshold" := Num(1.0)]), Obj(map["threshold" := Bool(true)]);
    assert l.fields["threshold"] != r.fields["threshold"];
    LooselyEqualObjects(l, r);
    DiffIsEmptyExactlyWhenLooselyEqual([], l, r);
  }

  // ---------------------------------------------------------------------------------
  // Order: entries come in strict path order, so no path repeats or contains another.
  // ---------------------------------------------------------------------------------

  ghost predicate PathsAscend(es: seq<Entry>) {
    forall i, j :: 0 <= i < j < |es| ==> PathBefore(es[i].path, es[j].path)
  }

  ghost predicate AllUnder(prefix: Path, es: seq<Entry>) {
    forall e :: e in es ==> prefix <= e.path
  }

  lemma EntriesLieUnderPrefix(prefix: Path, left: Json, right: Json)
    ensures AllUnder(prefix, DiffMapping(prefix, left, right))
  {
    PrefixGoesInFront(prefix, left, right);
  }

  lemma {:induction false} DiffPathsAscend(prefix: Path, left: Json, right: Json)
    ensures PathsAscend(DiffMapping(prefix, left, right))
    decreases left, 1, 0
  {
    if left.Obj? && right.Obj? {
      DiffPathsOfKeysAscend(prefix, left, right, SortedKeys(left.fields.Keys + right.fields.Keys));
    }
  }

  lemma {:induction false} DiffPathsOfKeysAscend(prefix: Path, left: Json, right: Json, keys: seq<string>)
    requires left.Obj? && right.Obj?
    requires forall k :: k in keys ==> k in left.fields || k in right.fields
    requires forall i, j :: 0 <= i < j < |keys| ==> Less(keys[i], keys[j])
    ensures PathsAscend(DiffKeys(prefix, left, right, keys))
    ensures forall e :: e in DiffKeys(prefix, left, right, keys) ==> exists k :: k in keys && prefix + [k] <= e.path
    decreases left, 0, |keys|
  {
    if keys != [] {
      assert keys == Init(keys) + [Last(keys)];
      var key := Last(keys);
      DiffPathsOfKeysAscend(prefix, left, right, Init(keys));
      if key in left.fields && key in right.fields {
        DiffPathsAscend(prefix + [key], left.fields[key], right.fields[key]);
        EntriesLieUnderPrefix(prefix + [key], left.fields[key], right.fields[key]);
      }
      var before, here := DiffKeys(prefix, left, right, Init(keys)), DiffKey(prefix, left, right, key);
      forall e, e' | e in before && e' in here
        ensures PathBefore(e.path, e'.path)
      {
        var k :| k in Init(keys) && prefix + [k] <= e.path;
        SiblingsAscend(prefix, k, key, e.path, e'.path);
      }
    }
  }

  /** No path is reported twice. */
  lemma DiffPathsAreDistinct(prefix: Path, left: Json, right: Json, i: nat, j: nat)
    requires i < j < |DiffMapping(prefix, left, right)|
    ensures DiffMapping(prefix, left, right)[i].path != DiffMapping(prefix, left, right)[j].path
  {
    DiffPathsAscend(prefix, left, right);
    PathBeforeIsIrreflexive(DiffMapping(prefix, left, right)[i].path);
  }

  lemma SiblingsAscend(prefix: Path, k: string, k': string, p: Path, q: Path)
    requires Less(k, k') && prefix + [k] <= p && prefix + [k'] <= q
    ensures PathBefore(p, q)
  {
    var n := |prefix|;
    assert p[n] == (prefix + [k])[n] && q[n] == (prefix + [k'])[n];
    assert p[..n] == (prefix + [k])[..n] == prefix;
    assert q[..n] == (prefix + [k'])[..n] == prefix;
  }

  // ---------------------------------------------------------------------------------
  // Truth: every entry records a real difference at its path.
  // ---------------------------------------------------------------------------------

  function Lookup(j: Json, path: Path): Option<Json>
    decreases |path|
  {
    if path == [] then Some(j)
    else if j.Obj? && path[0] in j.fields then Lookup(j.fields[path[0]], path[1..])
    else None
  }

  ghost predicate IsDifference(l: Json, r: Json, e: Entry) {
    match e.change
    case Added(now) => Lookup(l, e.path) == None && Lookup(r, e.path) == Some(now)
    case Removed(was) => Lookup(l, e.path) == Some(was) && Lookup(r, e.path) == None
    case Changed(a, b) =>
      && Lookup(l, e.path) == Some(a) && Lookup(r, e.path) == Some(b)
      && !LooselyEqual(a, b) && !(a.Obj? && b.Obj?)
  }

  lemma {:induction false} EntriesAreDifferences(left: Json, right: Json)
    ensures forall e :: e in DiffMapping([], left, right) ==> IsDifference(left, right, e)
    decreases left, 1, 0
  {
    if left.Obj? && right.Obj? {
      EntriesOfKeysAreDifferences(left, right, SortedKeys(left.fields.Keys + right.fields.Keys));
    }
  }

  lemma {:induction false} EntriesOfKeysAreDifferences(left: Json, right: Json, keys: seq<string>)
    requires left.Obj? && right.Obj?
    requires forall k :: k in keys ==> k in left.fields || k in right.fields
    ensures forall e :: e in DiffKeys([], left, right, keys) ==> IsDifference(left, right, e)
    decreases left, 0, |keys|
  {
    if keys != [] {
      assert keys == Init(keys) + [Last(keys)];
      var key := Last(keys);
      EntriesOfKeysAreDifferences(left, right, Init(keys));
      EntriesOfKeyAreDifferences(left, right, key);
    }
  }

  lemma {:induction false} EntriesOfKeyAreDifferences(left: Json, right: Json, key: string)
    requires left.Obj? && right.Obj? && (key in left.fields || key in right.fields)
    ensures forall e :: e in DiffKey([], left, right, key) ==> IsDifference(left, right, e)
    decreases left, 0, 0
  {
    assert [] + [key] == [key];
    if key in left.fields && key in right.fields {
      var below := DiffMapping([], left.fields[key], right.fields[key]);
      EntriesAreDifferences(left.fields[key], right.fields[key]);
      PrefixGoesInFront([key], left.fields[key], right.fields[key]);
      forall e | e in DiffKey([], left, right, key)
        ensures IsDifference(left, right, e)
      {
        var i :| 0 <= i < |below| && e == Under([key])(below[i]);
        assert below[i] in below;
        assert e.path[0] == key && e.path[1..] == below[i].path;
      }
    } else {
      LookupKey(left, key);
      LookupKey(right, key);
    }
  }

  lemma LookupKey(j: Json, key: string)
    requires j.Obj?
    ensures Lookup(j, [key]) == if key in j.fields then Some(j.fields[key]) else None
  {
    assert [key][1..] == [];
  }

  // ---------------------------------------------------------------------------------
  // Completeness: applying the entries to the left tree gives the right one.
  // ---------------------------------------------------------------------------------

  function SetAt(j: Json, path: Path, v: Json): Json
    decreases |path|
  {
    if path == [] then v
    else if !j.Obj? then j
    else if |path| == 1 then Obj(j.fields[path[0] := v])
    else if path[0] in j.fields then Obj(j.fields[path[0] := SetAt(j.fields[path[0]], path[1..], v)])
    else j
  }

  function RemoveAt(j: Json, path: Path): Json
    decreases |path|
  {
    if path == [] || !j.Obj? then j
    else if |path| == 1 then Obj(j.fields - {path[0]})
    else if path[0] in j.fields then Obj(j.fields[path[0] := RemoveAt(j.fields[path[0]], path[1..])])
    else j
  }

  function ApplyEntry(j: Json, e: Entry): Json {
    match e.change
    case Added(now) => SetAt(j, e.path, now)
    case Removed(_) => RemoveAt(j, e.path)
    case Changed(_, now) => SetAt(j, e.path, now)
  }

  function Apply(j: Json, es: seq<Entry>): Json {
    if es == [] then j else ApplyEntry(Apply(j, Init(es)), Last(es))
  }

  lemma {:induction false} ApplyConcat(j: Json, xs: seq<Entry>, ys: seq<Entry>)
    ensures Apply(j, xs + ys) == Apply(Apply(j, xs), ys)
    decreases |ys|
  {
    if ys == [] {
      assert xs + ys == xs;
    } else {
      assert Init(xs + ys) == xs + Init(ys);
      ApplyConcat(j, xs, Init(ys));
    }
  }

  ghost predicate NoRootRemoval(es: seq<Entry>) {
    forall e :: e in es && e.change.Removed? ==> e.path != []
  }

  /** Entries below one key only touch that key. */
  lemma {:induction false} ApplyUnderKey(fields: map<string, Json>, key: string, es: seq<Entry>)
    requires key in fields && NoRootRemoval(es)
    ensures Apply(Obj(fields), Map(es, Under([key]))) == Obj(fields[key := Apply(fields[key], es)])
    decreases |es|
  {
    if es == [] {
      assert fields[key := fields[key]] == fields;
    } else {
      assert es == Init(es) + [Last(es)];
      ApplyUnderKey(fields, key, Init(es));
      var e, inner := Last(es), Apply(fields[key], Init(es));
      assert Init(Map(es, Under([key]))) == Map(Init(es), Under([key]));
      var fields' := fields[key := inner];
      assert ([key] + e.path)[1..] == e.path;
      assert ApplyEntry(Obj(fields'), Under([key])(e)) == Obj(fields'[key := ApplyEntry(inner, e)]);
      assert fields'[key := ApplyEntry(inner, e)] == fields[key := ApplyEntry(inner, e)];
    }
  }

  /** What the entries turn the left tree into: the right tree, except that a loosely equal leaf
      keeps its left value. */
  function Patched(left: Json, right: Json): Json {
    if left.Obj? && right.Obj? then
      Obj(map k | k in right.fields :: if k in left.fields then Patched(left.fields[k], right.fields[k])
          else right.fields[k])
    else if LooselyEqual(left, right) then left
    else right
  }

  lemma RootEntriesAreNotRemovals(left: Json, right: Json)
    ensures NoRootRemoval(DiffMapping([], left, right))
  {
    EntriesAreDifferences(left, right);
  }

  lemma {:induction false} ApplyingDiffPatches(left: Json, right: Json)
    ensures Apply(left, DiffMapping([], left, right)) == Patched(left, right)
    decreases left, 1, 0
  {
    hide Norm;
    if left.Obj? && right.Obj? {
      var keys := SortedKeys(left.fields.Keys + right.fields.Keys);
      SortedHasNoRepeats(keys);
      ApplyingDiffOfKeys(left, right, keys);
      assert AfterKeys(left, right, keys) == Patched(left, right).fields;
    } else if !LooselyEqual(left, right) {
      var es := DiffMapping([], left, right);
      assert Init(es) == [];
    }
  }

  /** The object once some keys have been dealt with. */
  function AfterKeys(left: Json, right: Json, keys: seq<string>): map<string, Json>
    requires left.Obj? && right.Obj?
  {
    map k | k in left.fields.Keys + right.fields.Keys && (if k in keys then k in right.fields else k in left.fields) ::
      if k !in keys then left.fields[k]
      else if k in left.fields then Patched(left.fields[k], right.fields[k])
      else right.fields[k]
  }

  lemma {:induction false} ApplyingDiffOfKeys(left: Json, right: Json, keys: seq<string>)
    requires left.Obj? && right.Obj?
    requires forall k :: k in keys ==> k in left.fields || k in right.fields
    requires NoDuplicates(keys)
    ensures Apply(left, DiffKeys([], left, right, keys)) == Obj(AfterKeys(left, right, keys))
    decreases left, 0, |keys|
  {
    if keys == [] {
      assert AfterKeys(left, right, keys) == left.fields;
    } else {
      assert keys == Init(keys) + [Last(keys)];
      var key := Last(keys);
      ApplyingDiffOfKeys(left, right, Init(keys));
      ApplyConcat(left, DiffKeys([], left, right, Init(keys)), DiffKey([], left, right, key));
      ApplyingDiffOfKey(left, right, Init(keys), key);
      assert AfterKeys(left, right, Init(keys) + [key]) == AfterKeys(left, right, keys);
    }
  }

  lemma SortedHasNoRepeats(keys: seq<string>)
    requires forall i, j :: 0 <= i < j < |keys| ==> Less(keys[i], keys[j])
    ensures NoDuplicates(keys)
  {
    forall i, j | 0 <= i < j < |keys|
      ensures keys[i] != keys[j]
    {
      LessIsIrreflexive(keys[i]);
    }
  }

  lemma OneMoreKey(left: Json, right: Json, done: seq<string>, key: string)
    requires left.Obj? && right.Obj? && (key in left.fields || key in right.fields) && key !in done
    ensures AfterKeys(left, right, done + [key])
         == if key !in right.fields then AfterKeys(left, right, done) - {key}
            else AfterKeys(left, right, done)[key :=
              if key in left.fields then Patched(left.fields[key], right.fields[key]) else right.fields[key]]
    ensures key in AfterKeys(left, right, done) <==> key in left.fields
    ensures key in left.fields ==> AfterKeys(left, right, done)[key] == left.fields[key]
  {
  }

  lemma {:induction false} ApplyingDiffOfKey(left: Json, right: Json, done: seq<string>, key: string)
    requires left.Obj? && right.Obj? && (key in left.fields || key in right.fields) && key !in done
    ensures Apply(Obj(AfterKeys(left, right, done)), DiffKey([], left, right, key))
        == Obj(AfterKeys(left, right, done + [key]))
    decreases left, 0, 0
  {
    OneMoreKey(left, right, done, key);
    var fields := AfterKeys(left, right, done);
    assert [] + [key] == [key];
    if key in left.fields && key in right.fields {
      var below := DiffMapping([], left.fields[key], right.fields[key]);
      PrefixGoesInFront([key], left.fields[key], right.fields[key]);
      RootEntriesAreNotRemovals(left.fields[key], right.fields[key]);
      ApplyUnderKey(fields, key, below);
      ApplyingDiffPatches(left.fields[key], right.fields[key]);
    } else {
      ApplySingle(Obj(fields), DiffKey([], left, right, key)[0]);
    }
  }

  lemma ApplySingle(j: Json, e: Entry)
    ensures Apply(j, [e]) == ApplyEntry(j, e)
  {
    assert Init([e]) == [];
  }

  lemma {:induction false} PatchedIsLooselyRight(left: Json, right: Json)
    ensures LooselyEqual(Patched(left, right), right)
  {
    if left.Obj? && right.Obj? {
      forall k | k in right.fields
        ensures LooselyEqual(Patched(left, right).fields[k], right.fields[k])
      {
        if k in left.fields {
          PatchedIsLooselyRight(left.fields[k], right.fields[k]);
        }
      }
      LooselyEqualObjects(Patched(left, right), right);
    }
  }

  /** No leaf of the two trees is equal in value yet of another JSON type. */
  predicate SameTypesWhereEqual(left: Json, right: Json) {
    if left.Obj? && right.Obj? then
      forall k :: k in left.fields && k in right.fields ==> SameTypesWhereEqual(left.fields[k], right.fields[k])
    else LooselyEqual(left, right) ==> left == right
  }

  lemma {:induction false} PatchedIsRightExactlyWhen(left: Json, right: Json)
    ensures Patched(left, right) == right <==> SameTypesWhereEqual(left, right)
  {
    if left.Obj? && right.Obj? {
      forall k | k in left.fields && k in right.fields
        ensures Patched(left.fields[k], right.fields[k]) == right.fields[k]
            <==> SameTypesWhereEqual(left.fields[k], right.fields[k])
      {
        PatchedIsRightExactlyWhen(left.fields[k], right.fields[k]);
      }
      if SameTypesWhereEqual(left, right) {
        assert Patched(left, right).fields == right.fields;
      } else {
        var k :| k in left.fields && k in right.fields && !SameTypesWhereEqual(left.fields[k], right.fields[k]);
        assert Patched(left, right).fields[k] != right.fields[k];
      }
    }
  }

  /** Applying the diff to the left tree gives a tree loosely equal to the right one, and the
      right tree itself exactly when no value changed its JSON type only. */
  lemma DiffIsComplete(left: Json, right: Json)
    ensures LooselyEqual(Apply(left, DiffMapping([], left, right)), right)
    ensures Apply(left, DiffMapping([], left, right)) == right <==> SameTypesWhereEqual(left, right)
  {
    ApplyingDiffPatches(left, right);
    PatchedIsLooselyRight(left, right);
    PatchedIsRightExactlyWhen(left, right);
  }
}
