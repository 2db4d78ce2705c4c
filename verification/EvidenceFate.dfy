/** The fate of one evidence file in a sweep, told from its path, its age and its size alone. */
module EvidenceFate {
  import opened Wrappers
  import opened GroupBy
  import opened Sorting
  import opened EvidenceRetention

  // ---------------------------------------------------------------------------------
  // The type of a file.
  // ---------------------------------------------------------------------------------

  /** A small letter stands for its capital as well. */
  predicate IsLetter(c: char, small: char) { c == small || ('A' <= c <= 'Z' && c - 'A' + 'a' == small) }

  predicate EndsIn(name: string, suffix: string) {
    && |suffix| <= |name|
    && forall i :: 0 <= i < |suffix| ==> IsLetter(name[|name| - |suffix| + i], suffix[i])
  }

  predicate IsDirectory(segment: string) {
    segment == "report" || segment == "logs" || segment == "monitoring" || segment == "artifacts" || segment == "temp"
  }

  predicate IsTrace(path: Path) {
    && path != []
    && (EndsIn(Last(path), ".perfetto-trace") || EndsIn(Last(path), ".perfetto") || EndsIn(Last(path), ".trace"))
  }

  /** A trace by its suffix; else of the type of the last segment that names one of the five
      directories; else unknown. */
  ghost predicate HasType(path: Path, kind: string) {
    if IsTrace(path) then kind == "trace"
    else if exists i :: 0 <= i < |path| && IsDirectory(path[i]) then
      exists i :: 0 <= i < |path| && IsDirectory(path[i]) && kind == path[i]
        && forall j :: i < j < |path| ==> !IsDirectory(path[j])
    else kind == "unknown"
  }

  lemma EndsInExactlyWhen(name: string, suffix: string)
    requires forall i :: 0 <= i < |suffix| ==> !('A' <= suffix[i] <= 'Z')
    ensures EndsWith(Lower(name), suffix) <==> EndsIn(name, suffix)
  {
    var low, from := Lower(name), |name| - |suffix|;
    if EndsWith(low, suffix) {
      forall i | 0 <= i < |suffix|
        ensures IsLetter(name[from + i], suffix[i])
      {
        assert low[from..][i] == suffix[i];
      }
    }
  }

  lemma IsTraceExactlyWhen(path: Path)
    ensures path != [] && IsTraceName(Last(path)) <==> IsTrace(path)
  {
    hide EndsWith, EndsIn;
    if path != [] {
      EndsInExactlyWhen(Last(path), ".perfetto-trace");
      EndsInExactlyWhen(Last(path), ".perfetto");
      EndsInExactlyWhen(Last(path), ".trace");
    }
  }

  lemma {:induction false} NearestDirectory(path: Path)
    ensures var kind := NearestEvidenceDir(path);
      if exists i :: 0 <= i < |path| && IsDirectory(path[i]) then
        exists i :: 0 <= i < |path| && IsDirectory(path[i]) && kind == path[i]
          && forall j :: i < j < |path| ==> !IsDirectory(path[j])
      else kind == "unknown"
  {
    if path != [] {
      assert path == Init(path) + [Last(path)];
      NearestDirectory(Init(path));
    }
  }

  lemma ClassifiedExactlyWhen(path: Path, kind: string)
    ensures Classify(path) == kind <==> HasType(path, kind)
  {
    IsTraceExactlyWhen(path);
    NearestDirectory(path);
  }

  // ---------------------------------------------------------------------------------
  // Who survives.
  // ---------------------------------------------------------------------------------

  /** Some segment of the path puts the file out of reach. */
  ghost predicate IsSheltered(path: Path) {
    exists i :: 0 <= i < |path|
      && (path[i] == "latest" || path[i] == "webhooks.json" || path[i] == "sessions.json" || path[i] == "actors.json")
  }

  /** File j is of the given type, within reach, and is not evicted before file i: it is newer, or as
      old and not earlier in the scan. */
  ghost predicate StandsBehind(files: seq<File>, kind: string, i: nat, j: nat)
    requires i < |files| && j < |files|
  {
    && HasType(files[j].path, kind) && !IsSheltered(files[j].path)
    && (files[i].mtime < files[j].mtime || (files[i].mtime == files[j].mtime && i <= j))
  }

  /** The bytes of those among the first n files, file i included. */
  ghost function BytesBehind(files: seq<File>, kind: string, i: nat, n: nat): int
    requires i < |files| && n <= |files|
  {
    if n == 0 then 0
    else BytesBehind(files, kind, i, n - 1) + if StandsBehind(files, kind, i, n - 1) then files[n - 1].size else 0
  }

  /** Where a file stands in the scan. */
  function PositionIn(files: seq<File>): File -> int { (f: File) => Position(files, f) }

  function Position(files: seq<File>, f: File): int {
    if files == [] then -1 else if Last(files) == f then |files| - 1 else Position(Init(files), f)
  }

  lemma {:induction false} PositionOf(files: seq<File>, i: nat)
    requires i < |files| && NoDuplicates(files)
    ensures Position(files, files[i]) == i
  {
    if i < |files| - 1 {
      PositionOf(Init(files), i);
    }
  }

  ghost predicate Ascends(xs: seq<File>, position: File -> int) {
    forall i, j :: 0 <= i < j < |xs| ==> position(xs[i]) < position(xs[j])
  }

  lemma {:induction false} FilterAscends(xs: seq<File>, position: File -> int, p: File -> bool)
    requires Ascends(xs, position)
    ensures Ascends(Filter(xs, p), position)
  {
    if xs != [] {
      var rest := Filter(Init(xs), p);
      FilterAscends(Init(xs), position, p);
      forall i | 0 <= i < |rest|
        ensures position(rest[i]) < position(Last(xs))
      {
        assert rest[i] in Init(xs);
      }
    }
  }

  /** The files of a type, picked one by one. */
  function IsOf(kind: string): File -> bool {
    (f: File) => !IsProtectedPath(f.path) && Classify(f.path) == kind
  }

  lemma {:induction false} OfKindIsFilter(files: seq<File>, kind: string)
    ensures OfKind(files, kind) == Filter(files, IsOf(kind))
  {
    if files != [] {
      assert files == Init(files) + [Last(files)];
      OfKindIsFilter(Init(files), kind);
    }
  }

  ghost predicate InOrder(xs: seq<File>, position: File -> int) {
    forall i, j :: 0 <= i < j < |xs| ==>
      xs[i].mtime < xs[j].mtime || (xs[i].mtime == xs[j].mtime && position(xs[i]) < position(xs[j]))
  }

  lemma {:induction false} InsertedInOrder(sorted: seq<File>, x: File, position: File -> int)
    requires InOrder(sorted, position) && forall f :: f in sorted ==> position(f) < position(x)
    ensures InOrder(InsertBy(sorted, x, Time()), position)
    ensures forall f :: f in InsertBy(sorted, x, Time()) <==> f in sorted || f == x
  {
    if sorted != [] {
      assert sorted == Init(sorted) + [Last(sorted)];
      if Time()(Last(sorted)) > Time()(x) {
        InsertedInOrder(Init(sorted), x, position);
        var before := InsertBy(Init(sorted), x, Time());
        forall i | 0 <= i < |before|
          ensures before[i].mtime < Last(sorted).mtime
               || (before[i].mtime == Last(sorted).mtime && position(before[i]) < position(Last(sorted)))
        {
          assert before[i] in before;
        }
      } else {
        forall i | 0 <= i < |sorted|
          ensures sorted[i].mtime <= x.mtime && position(sorted[i]) < position(x)
        {
          assert sorted[i] in sorted;
        }
      }
    }
  }

  lemma {:induction false} SortedInOrder(xs: seq<File>, position: File -> int)
    requires Ascends(xs, position)
    ensures InOrder(OldestFirst(xs), position)
    ensures forall f :: f in OldestFirst(xs) <==> f in xs
  {
    if xs != [] {
      assert xs == Init(xs) + [Last(xs)];
      SortedInOrder(Init(xs), position);
      forall f | f in OldestFirst(Init(xs))
        ensures position(f) < position(Last(xs))
      {
        assert f in Init(xs);
      }
      InsertedInOrder(OldestFirst(Init(xs)), Last(xs), position);
    }
  }

  function IsAhead(position: File -> int, f: File): File -> bool {
    (g: File) => g.mtime < f.mtime || (g.mtime == f.mtime && position(g) < position(f))
  }

  /** In oldest-first order, what is not ahead of a file is it and everything after it. */
  lemma BehindIsSuffix(order: seq<File>, position: File -> int, k: nat)
    requires k < |order| && InOrder(order, position)
    ensures Filter(order, Not(IsAhead(position, order[k]))) == order[k..]
  {
    PrefixIsFiltered(order, IsAhead(position, order[k]), k);
  }

  /** A file is spared exactly when it and everything after it fit. */
  lemma SparedExactlyWhenRestFits(stale: File -> bool, cap: Option<int>, order: seq<File>, k: nat)
    requires k < |order|
    ensures Cut(stale, cap, order) <= k <==> Fits(stale, cap, order[k..])
  {
    var c := Cut(stale, cap, order);
    if c <= k {
      assert order[k..] == order[c..][k - c..];
      SuffixFits(stale, cap, order[c..], k - c);
    }
  }

  lemma SuffixFits(stale: File -> bool, cap: Option<int>, xs: seq<File>, k: nat)
    requires k <= |xs| && Fits(stale, cap, xs)
    ensures Fits(stale, cap, xs[k..])
  {
    assert xs == xs[..k] + xs[k..];
    TotalConcat(xs[..k], xs[k..], ToSize());
    NotNegative(xs[..k]);
  }

  lemma {:induction false} NotNegative(xs: seq<File>)
    ensures TotalSize(xs) >= 0
  {
    if xs != [] {
      NotNegative(Init(xs));
    }
  }

  /** Adding up one by one. */
  lemma {:induction false} BytesAddUp(files: seq<File>, kind: string, i: nat, n: nat)
    requires i < |files| && n <= |files| && NoDuplicates(files)
    ensures TotalSize(Filter(Filter(files[..n], IsOf(kind)), Not(IsAhead(PositionIn(files), files[i]))))
         == BytesBehind(files, kind, i, n)
  {
    hide StandsBehind, Filter;
    var ofKind, behind := IsOf(kind), Not(IsAhead(PositionIn(files), files[i]));
    if n == 0 {
      assert files[..0] == [];
      NothingIsFiltered(ofKind);
      NothingIsFiltered(behind);
    } else {
      var before, f := files[..n - 1], files[n - 1];
      hide IsOf, IsAhead, Not;
      TakeOneMore(files, n - 1);
      BytesAddUp(files, kind, i, n - 1);
      StandsBehindExactlyWhen(files, kind, i, n - 1);
      FilterSnoc(before, f, ofKind);
      FilterSnoc(Filter(before, ofKind), f, behind);
      TotalSnoc(Filter(Filter(before, ofKind), behind), f, ToSize());
    }
  }

  lemma NothingIsFiltered(p: File -> bool)
    ensures Filter([], p) == []
  {
  }

  lemma StandsBehindExactlyWhen(files: seq<File>, kind: string, i: nat, j: nat)
    requires i < |files| && j < |files| && NoDuplicates(files)
    ensures StandsBehind(files, kind, i, j)
      <==> IsOf(kind)(files[j]) && Not(IsAhead(PositionIn(files), files[i]))(files[j])
  {
    hide IsProtectedPath, HasType, Classify, IsSheltered, Position;
    PositionOf(files, i);
    PositionOf(files, j);
    ClassifiedExactlyWhen(files[j].path, kind);
    ShelteredExactlyWhen(files[j].path);
  }

  lemma ShelteredExactlyWhen(path: Path)
    ensures IsProtectedPath(path) <==> IsSheltered(path)
  {
  }

  /** The size that a cap is compared with: of the file and of those behind it. */
  lemma RestWeighs(files: seq<File>, kind: string, i: nat, k: nat)
    requires i < |files| && NoDuplicates(files)
    requires k < |OldestFirst(OfKind(files, kind))| && OldestFirst(OfKind(files, kind))[k] == files[i]
    ensures TotalSize(OldestFirst(OfKind(files, kind))[k..]) == BytesBehind(files, kind, i, |files|)
  {
    hide OfKind, OldestFirst, IsAhead, Position;
    var ofKind, position := OfKind(files, kind), PositionIn(files);
    var behind := Not(IsAhead(position, files[i]));
    ScanAscends(files);
    OfKindIsFilter(files, kind);
    FilterAscends(files, position, IsOf(kind));
    SortedInOrder(ofKind, position);
    BehindIsSuffix(OldestFirst(ofKind), position, k);
    DroppingKeepsOrder(ofKind, behind);
    OldestFirstSorts(Filter(ofKind, behind));
    TotalPermutation(OldestFirst(Filter(ofKind, behind)), Filter(ofKind, behind), ToSize());
    BytesAddUp(files, kind, i, |files|);
    assert files[..|files|] == files;
  }

  lemma ScanAscends(files: seq<File>)
    requires NoDuplicates(files)
    ensures Ascends(files, PositionIn(files))
  {
    forall i, j | 0 <= i < j < |files|
      ensures PositionIn(files)(files[i]) < PositionIn(files)(files[j])
    {
      PositionOf(files, i);
      PositionOf(files, j);
    }
  }

  /** What no sweep may remove: a file on a sheltered path or of a protected type; and otherwise
      exactly what is within the age limit, counted in days of 24 hours, if it and the unprotected
      files of its type behind it fit the cap. */
  lemma SurvivesExactlyWhen(policy: Policy, now: int, files: seq<File>, i: nat, kind: string)
    requires i < |files| && NoDuplicates(files) && HasType(files[i].path, kind)
    ensures var rule := if kind in policy.rules then policy.rules[kind] else policy.defaultRule;
      files[i] in Survivors(policy, now, files)
      <==> || IsSheltered(files[i].path)
           || rule.isProtected
           || (&& (rule.maxAgeDays.None? || now - files[i].mtime <= rule.maxAgeDays.value * 24 * 60 * 60)
               && (rule.maxTotalBytes.None? || BytesBehind(files, kind, i, |files|) <= rule.maxTotalBytes.value))
  {
    hide IsProtectedPath, HasType, Classify, OfKind, OldestFirst, IsSheltered, BytesBehind;
    var f, rule := files[i], policy.RuleFor(kind);
    ClassifiedExactlyWhen(f.path, kind);
    ShelteredExactlyWhen(f.path);
    if !IsSheltered(f.path) && !rule.isProtected {
      var order := OldestFirst(OfKind(files, kind));
      var k := OrderHolds(files, kind, i);
      OrderIsSound(files, kind);
      SparedExactlyWhenRestFits(TooOld(rule, now), rule.maxTotalBytes, order, k);
      DoomedIsPrefix(order, Cut(TooOld(rule, now), rule.maxTotalBytes, order), k);
      OldestDecides(TooOld(rule, now), order, k);
      RestWeighs(files, kind, i, k);
    }
  }

  lemma OrderHolds(files: seq<File>, kind: string, i: nat) returns (k: nat)
    requires i < |files| && Classify(files[i].path) == kind && !IsProtectedPath(files[i].path)
    ensures k < |OldestFirst(OfKind(files, kind))| && OldestFirst(OfKind(files, kind))[k] == files[i]
  {
    hide OldestFirst, IsProtectedPath, Classify;
    OldestFirstSorts(OfKind(files, kind));
    assert files[i] in OfKind(files, kind);
    assert files[i] in multiset(OldestFirst(OfKind(files, kind)));
    k :| 0 <= k < |OldestFirst(OfKind(files, kind))| && OldestFirst(OfKind(files, kind))[k] == files[i];
  }

  lemma OrderIsSound(files: seq<File>, kind: string)
    requires NoDuplicates(files)
    ensures ByAge(OldestFirst(OfKind(files, kind))) && NoDuplicates(OldestFirst(OfKind(files, kind)))
  {
    hide OldestFirst, OfKind;
    ScannedHasNoDuplicates(files, kind);
    OldestFirstSorts(OfKind(files, kind));
    SortedHasNoDuplicates(OfKind(files, kind));
  }

  lemma DoomedIsPrefix(order: seq<File>, c: nat, k: nat)
    requires c <= |order| && k < |order| && NoDuplicates(order)
    ensures order[k] in order[..c] <==> k < c
  {
    if k < c {
      assert order[..c][k] == order[k];
    }
  }

  /** In oldest-first order nothing behind a file within the age limit is beyond it. */
  lemma OldestDecides(stale: File -> bool, order: seq<File>, k: nat)
    requires k < |order| && ByAge(order) && AgeClosed(stale)
    ensures (forall f :: f in order[k..] ==> !stale(f)) <==> !stale(order[k])
  {
    assert order[k..][0] == order[k];
    forall f | f in order[k..] && stale(f)
      ensures stale(order[k])
    {
      var j :| 0 <= j < |order[k..]| && order[k..][j] == f;
      assert order[k + j] == f;
    }
  }

  // ---------------------------------------------------------------------------------
  // What is reported.
  // ---------------------------------------------------------------------------------

  lemma ReportedAs(files: seq<File>, report: File -> Candidate, reason: Reason, f: File)
    requires forall g :: report(g) == Candidate(g, reason)
    ensures Candidate(f, reason) in Map(files, report) <==> f in files
    ensures forall c :: c in Map(files, report) ==> c.reason == reason
  {
    var reports := Map(files, report);
    if f in files {
      var i :| 0 <= i < |files| && files[i] == f;
      assert reports[i] == Candidate(f, reason);
    }
  }

  /** A file is reported for its age exactly when its rule is unprotected and it is past the limit,
      counted in days of 24 hours, and for the size cap exactly when it is picked otherwise. */
  lemma ReasonsAreExact(policy: Policy, now: int, records: seq<File>, f: File, kind: string)
    requires NoDuplicates(records) && HasType(f.path, kind)
    ensures var rule := if kind in policy.rules then policy.rules[kind] else policy.defaultRule;
      var isOld :=
        !rule.isProtected && rule.maxAgeDays.Some? && now - f.mtime > rule.maxAgeDays.value * 24 * 60 * 60;
      && (Candidate(f, Age) in Candidates(policy, now, records) <==> f in records && isOld)
      && (Candidate(f, SizeCap) in Candidates(policy, now, records)
          <==> f in PickedFiles(policy, now, records) && !isOld)
  {
    hide HasType, Classify, CapFiles, Map;
    ClassifiedExactlyWhen(f.path, kind);
    var aged, capped := Filter(records, Expired(policy, now)), CapFiles(policy, now, records);
    ReportedAs(aged, AsAge(), Age, f);
    ReportedAs(capped, AsSizeCap(), SizeCap, f);
    NothingIsPickedTwice(policy, now, records);
    var reports := Candidates(policy, now, records);
    assert reports == Map(aged, AsAge()) + Map(capped, AsSizeCap());
    assert f in aged <==> f in records && Expired(policy, now)(f);
    assert Candidate(f, Age) in reports <==> f in aged;
    assert Candidate(f, SizeCap) in reports <==> f in capped;
    PickedFilesAreDoomed(policy, now, records, f);
    DoomedAreMembers(policy.RuleFor(kind), now, Members(records, ToKind(), kind));
    if f in aged {
      NotInBoth(aged, capped, f);
    }
  }

  lemma NotInBoth(xs: seq<File>, ys: seq<File>, f: File)
    requires NoDuplicates(xs + ys) && f in xs
    ensures f !in ys
  {
    var i :| 0 <= i < |xs| && xs[i] == f;
    forall j | 0 <= j < |ys|
      ensures ys[j] != f
    {
      assert (xs + ys)[i] == f && (xs + ys)[|xs| + j] == ys[j];
    }
  }
}
