/** Retention of run evidence: a pass by age, then a pass by size cap with the oldest files
    evicted first. Times are whole seconds and sizes whole bytes. */
module EvidenceRetention {
  import opened Wrappers
  import opened GroupBy
  import opened Ordering
  import opened Sorting

  /** A file's path as its segments, the last one being the file name. */
  type Path = seq<string>

  datatype File = File(path: Path, size: nat, mtime: int)

  const SECONDS_PER_DAY := 86400

  // ---------------------------------------------------------------------------------
  // Which evidence type a file is, and what the policy says about that type.
  // ---------------------------------------------------------------------------------

  const PROTECTED_FILES := {"webhooks.json", "sessions.json", "actors.json"}
  const EVIDENCE_DIRS := {"report", "logs", "monitoring", "artifacts", "temp"}
  const TRACE_SUFFIXES := {".perfetto-trace", ".perfetto", ".trace"}

  /** Some segment is a protected file name or the `latest` directory. */
  predicate IsProtectedPath(path: Path) {
    exists i :: 0 <= i < |path| && (path[i] in PROTECTED_FILES || path[i] == "latest")
  }

  function LowerChar(c: char): char {
    if 'A' <= c <= 'Z' then c - 'A' + 'a' else c
  }

  function Lower(s: string): string {
    Map(s, LowerChar)
  }

  predicate EndsWith(s: string, suffix: string) {
    |suffix| <= |s| && s[|s| - |suffix|..] == suffix
  }

  predicate IsTraceName(name: string) {
    exists suffix :: suffix in TRACE_SUFFIXES && EndsWith(Lower(name), suffix)
  }

  /** The nearest segment, from the file name outwards, that names an evidence directory. */
  function NearestEvidenceDir(path: Path): string {
    if path == [] then "unknown"
    else if Last(path) in EVIDENCE_DIRS then Last(path)
    else NearestEvidenceDir(Init(path))
  }

  function Classify(path: Path): string {
    if path != [] && IsTraceName(Last(path)) then "trace" else NearestEvidenceDir(path)
  }

  datatype Rule = Rule(maxAgeDays: Option<int>, maxTotalBytes: Option<int>, isProtected: bool)

  datatype Policy = Policy(rules: map<string, Rule>, defaultRule: Rule) {
    function RuleFor(kind: string): Rule {
      if kind in rules then rules[kind] else defaultRule
    }
  }

  function ToKind(): File -> string { (f: File) => Classify(f.path) }
  function ToSize(): File -> int { (f: File) => f.size }

  function Scannable(): File -> bool { (f: File) => !IsProtectedPath(f.path) }

  /** The scanned files of one evidence type. */
  function OfKind(files: seq<File>, kind: string): seq<File> {
    Members(Filter(files, Scannable()), ToKind(), kind)
  }

  ghost predicate UniquePaths(files: seq<File>) {
    forall i, j :: 0 <= i < j < |files| ==> files[i].path != files[j].path
  }

  // ---------------------------------------------------------------------------------
  // Oldest first, ties in scan order.
  // ---------------------------------------------------------------------------------

  function Time(): File -> real { (f: File) => f.mtime as real }

  function OldestFirst(files: seq<File>): seq<File> { SortBy(files, Time()) }

  ghost predicate ByAge(files: seq<File>) {
    forall i, j :: 0 <= i < j < |files| ==> files[i].mtime <= files[j].mtime
  }

  lemma OldestFirstSorts(files: seq<File>)
    ensures ByAge(OldestFirst(files))
    ensures multiset(OldestFirst(files)) == multiset(files)
  {
    SortBySorts(files, Time());
    var order := OldestFirst(files);
    assert forall i, j :: 0 <= i < j < |order| ==> Time()(order[i]) <= Time()(order[j]);
  }

  /** Dropping files never reorders the rest. */
  lemma DroppingKeepsOrder(files: seq<File>, p: File -> bool)
    ensures Filter(OldestFirst(files), p) == OldestFirst(Filter(files, p))
  {
    SortThenFilter(files, Time(), p);
  }

  // ---------------------------------------------------------------------------------
  // The one-line specification: drop the shortest oldest prefix whose removal leaves only
  // files within the age limit and a total within the cap.
  // ---------------------------------------------------------------------------------

  function TooOld(rule: Rule, now: int): File -> bool {
    (f: File) => rule.maxAgeDays.Some? && now - f.mtime > rule.maxAgeDays.value * SECONDS_PER_DAY
  }

  function Not(p: File -> bool): File -> bool { (f: File) => !p(f) }

  function TotalSize(files: seq<File>): int {
    Total(files, ToSize())
  }

  predicate OverCap(cap: Option<int>, files: seq<File>) {
    cap.Some? && TotalSize(files) > cap.value
  }

  predicate Fits(stale: File -> bool, cap: Option<int>, files: seq<File>) {
    (forall f :: f in files ==> !stale(f)) && !OverCap(cap, files)
  }

  /** The length of the shortest prefix whose removal makes the rest fit. */
  function Cut(stale: File -> bool, cap: Option<int>, files: seq<File>): (k: nat)
    ensures k <= |files|
    ensures k == |files| || Fits(stale, cap, files[k..])
    ensures forall j :: 0 <= j < k ==> !Fits(stale, cap, files[j..])
  {
    if files == [] then 0
    else if Fits(stale, cap, files) then assert files[0..] == files; 0
    else
      var k := 1 + Cut(stale, cap, files[1..]);
      assert files[1..][k - 1..] == files[k..];
      assert forall j {:trigger files[j..]} :: 1 <= j < k ==> files[j..] == files[1..][j - 1..];
      assert files[0..] == files;
      k
  }

  /** The files of one type that a sweep removes, oldest first. */
  function Doomed(rule: Rule, now: int, files: seq<File>): seq<File> {
    var order := OldestFirst(files);
    if rule.isProtected then [] else order[..Cut(TooOld(rule, now), rule.maxTotalBytes, order)]
  }

  lemma CutIsUnique(stale: File -> bool, cap: Option<int>, files: seq<File>, k: nat)
    requires k <= |files|
    requires k == |files| || Fits(stale, cap, files[k..])
    requires forall j :: 0 <= j < k ==> !Fits(stale, cap, files[j..])
    ensures Cut(stale, cap, files) == k
  {
    var c := Cut(stale, cap, files);
    var fromCut, fromK := files[c..], files[k..];
  }

  // ---------------------------------------------------------------------------------
  // The two passes.
  // ---------------------------------------------------------------------------------

  /** How many files the size pass evicts from an oldest-first list. */
  function CapCut(cap: Option<int>, files: seq<File>): (k: nat)
    ensures k <= |files|
    ensures k == |files| || !OverCap(cap, files[k..])
    ensures forall j :: 0 <= j < k ==> OverCap(cap, files[j..])
  {
    if files == [] then 0
    else if !OverCap(cap, files) then assert files[0..] == files; 0
    else
      var k := 1 + CapCut(cap, files[1..]);
      assert files[1..][k - 1..] == files[k..];
      assert forall j {:trigger files[j..]} :: 1 <= j < k ==> files[j..] == files[1..][j - 1..];
      assert files[0..] == files;
      k
  }

  function AgeVictims(rule: Rule, now: int, files: seq<File>): seq<File> {
    if rule.isProtected then [] else Filter(files, TooOld(rule, now))
  }

  function CapVictims(rule: Rule, now: int, files: seq<File>): seq<File> {
    var order := OldestFirst(Filter(files, Not(TooOld(rule, now))));
    if rule.isProtected then [] else order[..CapCut(rule.maxTotalBytes, order)]
  }

  /** Whatever is older than a stale file is stale. */
  ghost predicate AgeClosed(stale: File -> bool) {
    forall f: File, g: File :: f.mtime <= g.mtime && stale(g) ==> stale(f)
  }

  /** In oldest-first order the files beyond the age limit are exactly a prefix. */
  lemma OldFilesAreAPrefix(stale: File -> bool, order: seq<File>) returns (a: nat)
    requires ByAge(order) && AgeClosed(stale)
    ensures a <= |order| && forall i :: 0 <= i < |order| ==> (stale(order[i]) <==> i < a)
    ensures Filter(order, stale) == order[..a]
    ensures Filter(order, Not(stale)) == order[a..]
  {
    hide ByAge, AgeClosed, Filter;
    a := CountStale(stale, order);
    PrefixIsFiltered(order, stale, a);
  }

  lemma {:induction false} CountStale(stale: File -> bool, order: seq<File>) returns (a: nat)
    requires ByAge(order) && AgeClosed(stale)
    ensures a <= |order| && forall i :: 0 <= i < |order| ==> (stale(order[i]) <==> i < a)
    decreases |order|
  {
    if order == [] || stale(Last(order)) {
      a := |order|;
    } else {
      a := CountStale(stale, Init(order));
    }
  }

  lemma {:induction false} PrefixIsFiltered(order: seq<File>, p: File -> bool, a: nat)
    requires a <= |order| && forall i :: 0 <= i < |order| ==> (p(order[i]) <==> i < a)
    ensures Filter(order, p) == order[..a] && Filter(order, Not(p)) == order[a..]
  {
    if a == |order| {
      FilterAll(order, p);
      FilterNone(order, Not(p));
    } else {
      PrefixIsFiltered(Init(order), p, a);
      assert Filter(order, Not(p)) == Init(order)[a..] + [Last(order)];
      InitSlices(order, a);
    }
  }

  lemma CapCutKeepsTheRestYoung(stale: File -> bool, cap: Option<int>, young: seq<File>)
    requires forall i :: 0 <= i < |young| ==> !stale(young[i])
    ensures Cut(stale, cap, young) == CapCut(cap, young)
  {
    var e := CapCut(cap, young);
    assert forall j :: 0 <= j < e ==> OverCap(cap, young[j..]);
    CutIsUnique(stale, cap, young, e);
  }

  /** A stale file at the front must go, whatever follows. */
  lemma StaleFrontIsCut(stale: File -> bool, cap: Option<int>, order: seq<File>)
    requires order != [] && stale(order[0])
    ensures Cut(stale, cap, order) == 1 + Cut(stale, cap, order[1..])
  {
    assert order[0] in order;
  }

  /** If the first `a` files are stale and the others are not, the shortest sufficient prefix is
      those `a` and what the cap evicts of the others. */
  lemma {:induction false} CutOfTwoPasses(stale: File -> bool, cap: Option<int>, order: seq<File>, a: nat)
    requires a <= |order| && forall i :: 0 <= i < |order| ==> (stale(order[i]) <==> i < a)
    ensures Cut(stale, cap, order) == a + CapCut(cap, order[a..])
    decreases a
  {
    if a == 0 {
      assert order[0..] == order;
      CapCutKeepsTheRestYoung(stale, cap, order);
    } else {
      SplitSlice(order, 1, a - 1);
      CutOfTwoPasses(stale, cap, order[1..], a - 1);
      StaleFrontIsCut(stale, cap, order);
    }
  }

  /** On a sorted list: the files beyond the age limit, then what the cap evicts of the rest,
      make up the shortest sufficient prefix. */
  lemma TwoPassesOnSortedFiles(stale: File -> bool, cap: Option<int>, order: seq<File>)
    requires ByAge(order) && AgeClosed(stale)
    ensures var young := Filter(order, Not(stale));
      order[..Cut(stale, cap, order)] == Filter(order, stale) + young[..CapCut(cap, young)]
  {
    var a := OldFilesAreAPrefix(stale, order);
    CutOfTwoPasses(stale, cap, order, a);
    SplitSlice(order, a, CapCut(cap, order[a..]));
  }

  /** Age pass and size pass together remove exactly the shortest sufficient oldest prefix. */
  lemma TwoPassesRemoveShortestPrefix(rule: Rule, now: int, files: seq<File>)
    ensures multiset(Doomed(rule, now, files))
        == multiset(AgeVictims(rule, now, files)) + multiset(CapVictims(rule, now, files))
  {
    if !rule.isProtected {
      var stale := TooOld(rule, now);
      OldestFirstSorts(files);
      TwoPassesOnSortedFiles(stale, rule.maxTotalBytes, OldestFirst(files));
      DroppingKeepsOrder(files, Not(stale));
      DroppingKeepsOrder(files, stale);
      OldestFirstSorts(Filter(files, stale));
    }
  }

  // ---------------------------------------------------------------------------------
  // Looser limits and later sweeps.
  // ---------------------------------------------------------------------------------

  predicate AtLeast(limit: Option<int>, other: Option<int>) {
    limit.None? || (other.Some? && limit.value >= other.value)
  }

  /** Every limit at least as high, and nothing newly exposed. */
  predicate Looser(rule: Rule, other: Rule) {
    && AtLeast(rule.maxAgeDays, other.maxAgeDays)
    && AtLeast(rule.maxTotalBytes, other.maxTotalBytes)
    && (other.isProtected ==> rule.isProtected)
  }

  lemma LooserCutsLess(stale: File -> bool, stale': File -> bool, cap: Option<int>, cap': Option<int>, order: seq<File>)
    requires forall f :: stale(f) ==> stale'(f)
    requires AtLeast(cap, cap')
    ensures Cut(stale, cap, order) <= Cut(stale', cap', order)
  {
    var c := Cut(stale', cap', order);
    assert Fits(stale', cap', order[c..]) ==> Fits(stale, cap, order[c..]);
  }

  /** Raising either limit, or sweeping earlier, removes an oldest-first prefix of what the
      stricter sweep removes. */
  lemma LooserRemovesLess(rule: Rule, other: Rule, now: int, now': int, files: seq<File>)
    requires Looser(rule, other) && now <= now'
    ensures Doomed(rule, now, files) <= Doomed(other, now', files)
  {
  }

  function Outside(removed: seq<File>): File -> bool { (f: File) => f !in removed }

  lemma DroppingAPrefix(order: seq<File>, k: nat)
    requires NoDuplicates(order) && k <= |order|
    ensures Filter(order, Outside(order[..k])) == order[k..]
  {
    FilterFromPrefix(order, order[..k], k);
  }

  lemma {:induction false} FilterFromPrefix(order: seq<File>, removed: seq<File>, k: nat)
    requires k <= |order|
    requires forall i :: 0 <= i < |order| ==> (order[i] in removed <==> i < k)
    ensures Filter(order, Outside(removed)) == order[k..]
    decreases |order|
  {
    if order != [] {
      assert order == Init(order) + [Last(order)];
      FilterFromPrefix(Init(order), removed, if k == |order| then k - 1 else k);
      if k < |order| {
        assert order[k..] == Init(order)[k..] + [Last(order)];
      }
    }
  }

  lemma SortedHasNoDuplicates(files: seq<File>)
    requires NoDuplicates(files)
    ensures NoDuplicates(OldestFirst(files))
  {
    var order := OldestFirst(files);
    OldestFirstSorts(files);
    forall i, j | 0 <= i < j < |order|
      ensures order[i] != order[j]
    {
      MultiplicityWithoutDuplicates(files, order[i]);
      assert order == order[..j] + order[j..];
      assert order[i] in order[..j];
      assert order[j] in order[j..];
    }
  }

  lemma CutOfSuffix(stale: File -> bool, cap: Option<int>, order: seq<File>, k: nat)
    requires k <= Cut(stale, cap, order)
    ensures Cut(stale, cap, order[k..]) == Cut(stale, cap, order) - k
  {
    var c := Cut(stale, cap, order);
    forall j | 0 <= j < c - k
      ensures !Fits(stale, cap, order[k..][j..])
    {
      SplitSlice(order, k, j);
      assert !Fits(stale, cap, order[k + j..]);
    }
    SplitSlice(order, k, c - k);
    CutIsUnique(stale, cap, order[k..], c - k);
  }

  lemma CutInTwo(stale: File -> bool, cap: Option<int>, order: seq<File>, k: nat)
    requires k <= Cut(stale, cap, order)
    ensures order[..k] + order[k..][..Cut(stale, cap, order[k..])] == order[..Cut(stale, cap, order)]
  {
    CutOfSuffix(stale, cap, order, k);
    SplitSlice(order, k, Cut(stale, cap, order) - k);
  }

  lemma SecondCutOnSortedFiles(stale: File -> bool, stale': File -> bool, cap: Option<int>, order: seq<File>)
    requires forall f :: stale(f) ==> stale'(f)
    ensures var rest := order[Cut(stale, cap, order)..];
      order[..Cut(stale, cap, order)] + rest[..Cut(stale', cap, rest)] == order[..Cut(stale', cap, order)]
  {
    LooserCutsLess(stale, stale', cap, cap, order);
    CutInTwo(stale', cap, order, Cut(stale, cap, order));
  }

  /** A second sweep, later or at the same time, removes just what one late sweep would have
      removed beyond the first. */
  lemma SecondSweepFinishesTheJob(rule: Rule, t1: int, t2: int, files: seq<File>)
    requires t1 <= t2 && NoDuplicates(files)
    ensures var left := Filter(files, Outside(Doomed(rule, t1, files)));
      Doomed(rule, t1, files) + Doomed(rule, t2, left) == Doomed(rule, t2, files)
  {
    var order := OldestFirst(files);
    if !rule.isProtected {
      SortedHasNoDuplicates(files);
      DroppingKeepsOrder(files, Outside(Doomed(rule, t1, files)));
      DroppingAPrefix(order, Cut(TooOld(rule, t1), rule.maxTotalBytes, order));
      SecondCutOnSortedFiles(TooOld(rule, t1), TooOld(rule, t2), rule.maxTotalBytes, order);
    }
  }

  // ---------------------------------------------------------------------------------
  // The sweep over all types.
  // ---------------------------------------------------------------------------------

  datatype Reason = Age | SizeCap

  datatype Candidate = Candidate(file: File, reason: Reason)

  function AsAge(): File -> Candidate { (f: File) => Candidate(f, Age) }
  function AsSizeCap(): File -> Candidate { (f: File) => Candidate(f, SizeCap) }

  function Expired(policy: Policy, now: int): File -> bool {
    (f: File) =>
      var rule := policy.RuleFor(Classify(f.path));
      !rule.isProtected && TooOld(rule, now)(f)
  }

  /** What the size pass evicts of each type. */
  function CapVictimsOf(policy: Policy, now: int, records: seq<File>): string -> seq<File> {
    (kind: string) => CapVictims(policy.RuleFor(kind), now, Members(records, ToKind(), kind))
  }

  function CapFiles(policy: Policy, now: int, records: seq<File>): seq<File> {
    var kinds := Keys(records, ToKind());
    FlatMap(kinds, CapVictimsOf(policy, now, records), |kinds|)
  }

  /** The files the sweep picks: first by age in scan order, then by cap, type after type. */
  function PickedFiles(policy: Policy, now: int, records: seq<File>): seq<File> {
    Filter(records, Expired(policy, now)) + CapFiles(policy, now, records)
  }

  function DoomedOfKind(policy: Policy, now: int, records: seq<File>, kind: string): seq<File> {
    Doomed(policy.RuleFor(kind), now, Members(records, ToKind(), kind))
  }

  lemma CapFilesOfKind(policy: Policy, now: int, records: seq<File>, kind: string)
    ensures Members(CapFiles(policy, now, records), ToKind(), kind)
         == CapVictims(policy.RuleFor(kind), now, Members(records, ToKind(), kind))
  {
    var kinds, victims := Keys(records, ToKind()), CapVictimsOf(policy, now, records);
    forall k, f | f in victims(k)
      ensures ToKind()(f) == k
    {
      CapVictimsAreMembers(policy.RuleFor(k), now, Members(records, ToKind(), k));
    }
    MembersOfFlatMap(kinds, victims, |kinds|, ToKind(), kind);
    if kind !in kinds {
      NoGroupOutsideKeys(records, ToKind(), kind);
    }
  }

  lemma CapVictimsAreMembers(rule: Rule, now: int, files: seq<File>)
    ensures forall f :: f in CapVictims(rule, now, files) ==> f in files
  {
    var young := Filter(files, Not(TooOld(rule, now)));
    OldestFirstSorts(young);
    forall f | f in OldestFirst(young)
      ensures f in files
    {
      assert f in multiset(OldestFirst(young));
    }
  }

  /** Of every evidence type the sweep picks exactly the shortest sufficient oldest prefix. */
  lemma SweepPicksShortestPrefixOfEachKind(policy: Policy, now: int, records: seq<File>, kind: string)
    ensures multiset(Members(PickedFiles(policy, now, records), ToKind(), kind))
         == multiset(DoomedOfKind(policy, now, records, kind))
  {
    var rule, ofKind := policy.RuleFor(kind), Members(records, ToKind(), kind);
    MembersConcat(Filter(records, Expired(policy, now)), CapFiles(policy, now, records), ToKind(), kind);
    CapFilesOfKind(policy, now, records, kind);
    TwoPassesRemoveShortestPrefix(rule, now, ofKind);
    MembersOfFilter(records, ToKind(), kind, Expired(policy, now),
                    if rule.isProtected then Never() else TooOld(rule, now));
    if rule.isProtected {
      FilterNone(ofKind, Never());
    }
  }

  function Never(): File -> bool { (f: File) => false }

  lemma PickedFilesAreDoomed(policy: Policy, now: int, records: seq<File>, f: File)
    ensures f in PickedFiles(policy, now, records) <==> f in DoomedOfKind(policy, now, records, Classify(f.path))
  {
    var picked := PickedFiles(policy, now, records);
    SweepPicksShortestPrefixOfEachKind(policy, now, records, Classify(f.path));
    MultiplicityInOwnGroup(picked, ToKind(), f);
    assert f in multiset(picked) <==> f in multiset(DoomedOfKind(policy, now, records, Classify(f.path)));
  }

  lemma {:induction false} MembersKeepNoDuplicates(records: seq<File>, kind: string)
    requires NoDuplicates(records)
    ensures NoDuplicates(Members(records, ToKind(), kind))
  {
    if records != [] {
      assert records == Init(records) + [Last(records)];
      MembersKeepNoDuplicates(Init(records), kind);
    }
  }

  /** No file is picked twice. */
  lemma NothingIsPickedTwice(policy: Policy, now: int, records: seq<File>)
    requires NoDuplicates(records)
    ensures NoDuplicates(PickedFiles(policy, now, records))
  {
    var picked := PickedFiles(policy, now, records);
    forall f: File | true
      ensures multiset(picked)[f] <= 1
    {
      var kind := Classify(f.path);
      SweepPicksShortestPrefixOfEachKind(policy, now, records, kind);
      MultiplicityInOwnGroup(picked, ToKind(), f);
      DoomedHasNoDuplicates(policy, now, records, kind);
      MultiplicityWithoutDuplicates(DoomedOfKind(policy, now, records, kind), f);
    }
    AtMostOnceEach(picked);
  }

  lemma DoomedHasNoDuplicates(policy: Policy, now: int, records: seq<File>, kind: string)
    requires NoDuplicates(records)
    ensures NoDuplicates(DoomedOfKind(policy, now, records, kind))
  {
    MembersKeepNoDuplicates(records, kind);
    SortedHasNoDuplicates(Members(records, ToKind(), kind));
  }

  // ---------------------------------------------------------------------------------
  // What is left on disk, and how sweeps compose.
  // ---------------------------------------------------------------------------------

  function Spared(policy: Policy, now: int, files: seq<File>): File -> bool {
    (f: File) => IsProtectedPath(f.path)
        || f !in Doomed(policy.RuleFor(Classify(f.path)), now, OfKind(files, Classify(f.path)))
  }

  /** The files that survive an applied sweep. */
  function Survivors(policy: Policy, now: int, files: seq<File>): seq<File> {
    Filter(files, Spared(policy, now, files))
  }

  /** Of one type, the survivors are what the prefix leaves. */
  lemma SurvivorsOfKind(policy: Policy, now: int, files: seq<File>, kind: string)
    ensures OfKind(Survivors(policy, now, files), kind)
         == Filter(OfKind(files, kind), Outside(Doomed(policy.RuleFor(kind), now, OfKind(files, kind))))
  {
    var spared, scanned := Spared(policy, now, files), Filter(files, Scannable());
    FilterOfFilter(files, spared, Scannable(), Both(spared, Scannable()));
    FilterOfFilter(files, Scannable(), spared, Both(spared, Scannable()));
    MembersOfFilter(scanned, ToKind(), kind, spared, Outside(Doomed(policy.RuleFor(kind), now, OfKind(files, kind))));
  }

  function Both(p: File -> bool, q: File -> bool): File -> bool { (f: File) => p(f) && q(f) }

  lemma ScannedHasNoDuplicates(files: seq<File>, kind: string)
    requires NoDuplicates(files)
    ensures NoDuplicates(OfKind(files, kind))
  {
    FilterKeepsNoDuplicates(files, Scannable());
    MembersKeepNoDuplicates(Filter(files, Scannable()), kind);
  }

  /** Sweeping at `t1` and again at `t2`, with no new files in between, leaves what a single
      sweep at `t2` leaves. */
  lemma SweepsCompose(policy: Policy, t1: int, t2: int, files: seq<File>)
    requires t1 <= t2 && NoDuplicates(files)
    ensures Survivors(policy, t2, Survivors(policy, t1, files)) == Survivors(policy, t2, files)
  {
    var left := Survivors(policy, t1, files);
    forall f | f in files
      ensures Spared(policy, t2, files)(f) == (Spared(policy, t1, files)(f) && Spared(policy, t2, left)(f))
    {
      var kind := Classify(f.path);
      SurvivorsOfKind(policy, t1, files, kind);
      ScannedHasNoDuplicates(files, kind);
      SecondSweepFinishesTheJob(policy.RuleFor(kind), t1, t2, OfKind(files, kind));
    }
    FilterOfFilter(files, Spared(policy, t1, files), Spared(policy, t2, left), Spared(policy, t2, files));
  }

  lemma NothingDoomedAgain(policy: Policy, now: int, files: seq<File>, kind: string)
    requires NoDuplicates(files)
    ensures Doomed(policy.RuleFor(kind), now, OfKind(Survivors(policy, now, files), kind)) == []
  {
    SurvivorsOfKind(policy, now, files, kind);
    ScannedHasNoDuplicates(files, kind);
    SecondSweepFinishesTheJob(policy.RuleFor(kind), now, now, OfKind(files, kind));
  }

  /** A repeat at the same time finds nothing. */
  lemma RepeatFindsNothing(policy: Policy, now: int, files: seq<File>)
    requires NoDuplicates(files)
    ensures PickedFiles(policy, now, Filter(Survivors(policy, now, files), Scannable())) == []
  {
    var records := Filter(Survivors(policy, now, files), Scannable());
    var picked := PickedFiles(policy, now, records);
    forall f: File | true
      ensures f !in picked
    {
      PickedFilesAreDoomed(policy, now, records, f);
      NothingDoomedAgain(policy, now, files, Classify(f.path));
    }
    FirstIsElement(picked);
  }

  lemma FirstIsElement(files: seq<File>)
    ensures files != [] ==> files[0] in files
  {
  }

  /** Under a policy with higher limits for every type, every picked file would also have been
      picked under the original one. */
  lemma LooserPolicyPicksSubset(policy: Policy, looser: Policy, now: int, records: seq<File>)
    requires forall kind :: Looser(looser.RuleFor(kind), policy.RuleFor(kind))
    ensures forall f :: f in PickedFiles(looser, now, records) ==> f in PickedFiles(policy, now, records)
  {
    forall f | f in PickedFiles(looser, now, records)
      ensures f in PickedFiles(policy, now, records)
    {
      var kind := Classify(f.path);
      PickedFilesAreDoomed(looser, now, records, f);
      PickedFilesAreDoomed(policy, now, records, f);
      LooserRemovesLess(looser.RuleFor(kind), policy.RuleFor(kind), now, now, Members(records, ToKind(), kind));
    }
  }

  /** Bytes scanned are bytes kept plus bytes picked. */
  lemma SweepConservesBytes(policy: Policy, now: int, files: seq<File>)
    requires NoDuplicates(files)
    ensures var records := Filter(files, Scannable());
      TotalSize(records)
      == TotalSize(Filter(Survivors(policy, now, files), Scannable())) + TotalSize(PickedFiles(policy, now, records))
  {
    var records := Filter(files, Scannable());
    var picked := PickedFiles(policy, now, records);
    var spared := Spared(policy, now, files);
    TotalSplit(records, spared, Not(spared), ToSize());
    FilterOfFilter(files, spared, Scannable(), Both(spared, Scannable()));
    FilterOfFilter(files, Scannable(), spared, Both(spared, Scannable()));
    FilterKeepsNoDuplicates(files, Scannable());
    FilterKeepsNoDuplicates(records, Not(spared));
    NothingIsPickedTwice(policy, now, records);
    forall f: File | true
      ensures f in Filter(records, Not(spared)) <==> f in picked
    {
      PickedFilesAreDoomed(policy, now, records, f);
      DoomedAreMembers(policy.RuleFor(Classify(f.path)), now, OfKind(files, Classify(f.path)));
    }
    SameElementsWithoutDuplicates(Filter(records, Not(spared)), picked);
    TotalPermutation(Filter(records, Not(spared)), picked, ToSize());
  }

  lemma DoomedAreMembers(rule: Rule, now: int, files: seq<File>)
    ensures forall f :: f in Doomed(rule, now, files) ==> f in files
  {
    OldestFirstSorts(files);
    forall f | f in OldestFirst(files)
      ensures f in files
    {
      assert f in multiset(OldestFirst(files));
    }
  }

  // ---------------------------------------------------------------------------------
  // The service: the loops as written, over the files under the runtime root.
  // ---------------------------------------------------------------------------------

  /** The same sweep as candidate records, with the reason each file was picked for. */
  function Candidates(policy: Policy, now: int, records: seq<File>): seq<Candidate> {
    Map(Filter(records, Expired(policy, now)), AsAge()) + Map(CapFiles(policy, now, records), AsSizeCap())
  }

  function ToFile(): Candidate -> File { (c: Candidate) => c.file }

  lemma CandidatesArePickedFiles(policy: Policy, now: int, records: seq<File>)
    ensures Map(Candidates(policy, now, records), ToFile()) == PickedFiles(policy, now, records)
  {
  }

  /** The eviction loop: oldest first, until the total is within the cap. */
  method EvictOldest(order: seq<File>, cap: int) returns (evicted: seq<File>)
    ensures evicted == order[..CapCut(Some(cap), order)]
  {
    var remainingTotal := TotalSize(order);
    assert order[0..] == order;
    evicted := [];
    var i := 0;
    while i < |order| && remainingTotal > cap
      invariant 0 <= i <= |order| && evicted == order[..i]
      invariant remainingTotal == TotalSize(order[i..])
      invariant forall j :: 0 <= j < i ==> OverCap(Some(cap), order[j..])
    {
      assert order[i..] == [order[i]] + order[i + 1..];
      TotalConcat([order[i]], order[i + 1..], ToSize());
      assert Init([order[i]]) == [];
      evicted := evicted + [order[i]];
      remainingTotal := remainingTotal - order[i].size;
      i := i + 1;
    }
    CapCutIsUnique(Some(cap), order, i);
  }

  lemma CapCutIsUnique(cap: Option<int>, files: seq<File>, k: nat)
    requires k <= |files|
    requires k == |files| || !OverCap(cap, files[k..])
    requires forall j :: 0 <= j < k ==> OverCap(cap, files[j..])
    ensures CapCut(cap, files) == k
  {
    var c := CapCut(cap, files);
    var fromCut, fromK := files[c..], files[k..];
  }

  function PathNotIn(paths: set<Path>): File -> bool { (f: File) => f.path !in paths }

  /** Leaving out the marked paths leaves out the files past the age limit. */
  ghost predicate MarksTooOld(rule: Rule, now: int, items: seq<File>, agePaths: set<Path>) {
    rule.isProtected || Filter(items, PathNotIn(agePaths)) == Filter(items, Not(TooOld(rule, now)))
  }

  /** The files of one type that the age pass left over, and what the cap evicts of them. */
  method CapPassOfKind(rule: Rule, now: int, items: seq<File>, agePaths: set<Path>, ghost victims: seq<File>)
    returns (evicted: seq<File>)
    requires IsPrepared(rule, now, items, agePaths, victims)
    ensures evicted == victims
  {
    if rule.isProtected || rule.maxTotalBytes == None {
      return [];
    }
    var remaining := Filter(items, PathNotIn(agePaths));
    var cap := rule.maxTotalBytes.value;
    var order := OldestFirst(remaining);
    OldestFirstSorts(remaining);
    TotalPermutation(order, remaining, ToSize());
    if TotalSize(remaining) <= cap {
      return [];
    }
    evicted := EvictOldest(order, cap);
  }

  function PathsOf(files: seq<File>): set<Path> { set f | f in files :: f.path }

  lemma OneMorePath(files: seq<File>, f: File)
    ensures PathsOf(files + [f]) == PathsOf(files) + {f.path}
  {
  }

  /** The first loop: everything past its type's age limit. */
  method AgePass(policy: Policy, now: int, records: seq<File>) returns (candidates: seq<Candidate>, agePaths: set<Path>)
    ensures candidates == Map(Filter(records, Expired(policy, now)), AsAge())
    ensures agePaths == PathsOf(Filter(records, Expired(policy, now)))
  {
    candidates, agePaths := [], {};
    for i := 0 to |records|
      invariant candidates == Map(Filter(records[..i], Expired(policy, now)), AsAge())
      invariant agePaths == PathsOf(Filter(records[..i], Expired(policy, now)))
    {
      var f := records[i];
      var rule := policy.RuleFor(Classify(f.path));
      OneMoreExpired(records, i, Expired(policy, now));
      assert Expired(policy, now)(f) == (!rule.isProtected && TooOld(rule, now)(f));
      if !rule.isProtected && rule.maxAgeDays.Some? && now - f.mtime > rule.maxAgeDays.value * SECONDS_PER_DAY {
        candidates := candidates + [Candidate(f, Age)];
        agePaths := agePaths + {f.path};
      }
    }
    assert records[..|records|] == records;
  }

  lemma OneMoreExpired(records: seq<File>, i: nat, expired: File -> bool)
    requires i < |records|
    ensures var before, after := Filter(records[..i], expired), Filter(records[..i + 1], expired);
      if expired(records[i])
      then Map(after, AsAge()) == Map(before, AsAge()) + [Candidate(records[i], Age)]
          && PathsOf(after) == PathsOf(before) + {records[i].path}
      else after == before
  {
    var before := Filter(records[..i], expired);
    TakeOneMore(records, i);
    MapSnoc(before, records[i], AsAge());
    OneMorePath(before, records[i]);
  }

  /** The second loop: the records of each type, types in order of appearance. */
  method ByType(records: seq<File>) returns (byType: map<string, seq<File>>, order: seq<string>)
    ensures order == Keys(records, ToKind())
    ensures forall k :: k in byType <==> k in order
    ensures forall k :: k in byType ==> byType[k] == Members(records, ToKind(), k)
  {
    byType, order := map[], [];
    for i := 0 to |records|
      invariant order == Keys(records[..i], ToKind())
      invariant forall k :: k in byType <==> k in order
      invariant forall k :: k in byType ==> byType[k] == Members(records[..i], ToKind(), k)
    {
      var f := records[i];
      var kind := Classify(f.path);
      assert Init(records[..i + 1]) == records[..i];
      if kind in byType {
        byType := byType[kind := byType[kind] + [f]];
      } else {
        NoGroupOutsideKeys(records[..i], ToKind(), kind);
        byType := byType[kind := [f]];
        order := order + [kind];
      }
    }
    assert records[..|records|] == records;
  }

  lemma MarksAreExact(policy: Policy, now: int, records: seq<File>, kind: string)
    requires UniquePaths(records)
    ensures MarksTooOld(policy.RuleFor(kind), now, Members(records, ToKind(), kind),
        PathsOf(Filter(records, Expired(policy, now))))
  {
    var expired, rule := Filter(records, Expired(policy, now)), policy.RuleFor(kind);
    var items := Members(records, ToKind(), kind);
    if !rule.isProtected {
      forall f | f in items
        ensures PathNotIn(PathsOf(expired))(f) == Not(TooOld(rule, now))(f)
      {
        assert forall g :: g in records && g.path == f.path ==> g == f;
        assert Expired(policy, now)(f) == TooOld(rule, now)(f);
      }
      SameFilter(items, PathNotIn(PathsOf(expired)), Not(TooOld(rule, now)));
    }
  }

  /** What the third loop may rely on for a type. */
  ghost predicate IsPrepared(rule: Rule, now: int, items: seq<File>, agePaths: set<Path>, victims: seq<File>) {
    MarksTooOld(rule, now, items, agePaths) && victims == CapVictims(rule, now, items)
  }

  lemma KindIsPrepared(policy: Policy, now: int, records: seq<File>, kind: string)
    requires UniquePaths(records)
    ensures IsPrepared(policy.RuleFor(kind), now, Members(records, ToKind(), kind),
                       PathsOf(Filter(records, Expired(policy, now))), CapVictimsOf(policy, now, records)(kind))
  {
    hide Members, Filter, CapVictims;
    MarksAreExact(policy, now, records, kind);
  }

  /** The third loop: what the size caps evict, type by type. */
  method CapPass(policy: Policy, now: int, byType: map<string, seq<File>>, order: seq<string>, agePaths: set<Path>,
                 ghost victims: string -> seq<File>)
    returns (evicted: seq<File>)
    requires forall k :: 0 <= k < |order| ==>
      order[k] in byType && IsPrepared(policy.RuleFor(order[k]), now, byType[order[k]], agePaths, victims(order[k]))
    ensures evicted == FlatMap(order, victims, |order|)
  {
    hide IsPrepared;
    evicted := [];
    for k := 0 to |order|
      invariant evicted == FlatMap(order, victims, k)
    {
      ghost var expected := victims(order[k]);
      assert FlatMap(order, victims, k + 1) == evicted + expected;
      var ofKind := CapPassOfKind(policy.RuleFor(order[k]), now, byType[order[k]], agePaths, expected);
      evicted := evicted + ofKind;
    }
  }

  method FindCandidates(policy: Policy, now: int, records: seq<File>) returns (candidates: seq<Candidate>)
    requires UniquePaths(records)
    ensures candidates == Candidates(policy, now, records)
  {
    hide IsPrepared, Members, Keys, CapVictims, Expired;
    var byAge, agePaths := AgePass(policy, now, records);
    var byType, order := ByType(records);
    forall kind | kind in order
      ensures IsPrepared(policy.RuleFor(kind), now, byType[kind], agePaths, CapVictimsOf(policy, now, records)(kind))
    {
      KindIsPrepared(policy, now, records, kind);
    }
    var evicted := CapPass(policy, now, byType, order, agePaths, CapVictimsOf(policy, now, records));
    return byAge + Map(evicted, AsSizeCap());
  }

  datatype Usage = Usage(kind: string, fileCount: int, totalBytes: int, candidateCount: int, candidateBytes: int)

  function UsageOf(policy: Policy, now: int, records: seq<File>): string -> Usage {
    (kind: string) =>
      var files, doomed := Members(records, ToKind(), kind), DoomedOfKind(policy, now, records, kind);
      Usage(kind, |files|, TotalSize(files), |doomed|, TotalSize(doomed))
  }

  function ToTotalBytes(): Usage -> int { (u: Usage) => u.totalBytes }
  function ToCandidateBytes(): Usage -> int { (u: Usage) => u.candidateBytes }

  function CountIn(files: seq<File>): string -> int { (kind: string) => |Members(files, ToKind(), kind)| }
  function BytesIn(files: seq<File>): string -> int { (kind: string) => TotalSize(Members(files, ToKind(), kind)) }

  lemma OneMoreFile(files: seq<File>, files': seq<File>, f: File)
    requires files' != [] && Init(files') == files && Last(files') == f
    ensures Keys(files', ToKind())
         == if Classify(f.path) in Keys(files, ToKind()) then Keys(files, ToKind())
             else Keys(files, ToKind()) + [Classify(f.path)]
    ensures forall k :: k != Classify(f.path) ==>
        CountIn(files')(k) == CountIn(files)(k) && BytesIn(files')(k) == BytesIn(files)(k)
    ensures CountIn(files')(Classify(f.path)) == CountIn(files)(Classify(f.path)) + 1
    ensures BytesIn(files')(Classify(f.path)) == BytesIn(files)(Classify(f.path)) + f.size
  {
    TotalSnoc(Members(files, ToKind(), Classify(f.path)), f, ToSize());
  }

  lemma NothingOfNewKind(files: seq<File>, kind: string)
    requires kind !in Keys(files, ToKind())
    ensures CountIn(files)(kind) == 0 && BytesIn(files)(kind) == 0
  {
    NoGroupOutsideKeys(files, ToKind(), kind);
  }

  /** A dictionary with these keys and these values; everything else counts as zero. */
  ghost predicate TableOf(table: map<string, int>, keys: seq<string>, value: string -> int) {
    && (forall k :: k in table <==> k in keys)
    && (forall k :: k in table ==> table[k] == value(k))
  }

  function Added(table: map<string, int>, k: string, amount: int): map<string, int> {
    table[k := (if k in table then table[k] else 0) + amount]
  }

  lemma AddToTable(table: map<string, int>, keys: seq<string>, value: string -> int, value': string -> int,
      kind: string, amount: int)
    requires TableOf(table, keys, value)
    requires forall k :: k != kind ==> value'(k) == value(k)
    requires value'(kind) == value(kind) + amount
    requires kind !in keys ==> value(kind) == 0
    ensures TableOf(Added(table, kind, amount), if kind in keys then keys else keys + [kind], value')
  {
  }

  /** Per-type totals of a list of files, in one pass. */
  method CountByKind(files: seq<File>) returns (count: map<string, int>, bytes: map<string, int>)
    ensures TableOf(count, Keys(files, ToKind()), CountIn(files))
    ensures TableOf(bytes, Keys(files, ToKind()), BytesIn(files))
  {
    count, bytes := map[], map[];
    for i := 0 to |files|
      invariant TableOf(count, Keys(files[..i], ToKind()), CountIn(files[..i]))
      invariant TableOf(bytes, Keys(files[..i], ToKind()), BytesIn(files[..i]))
    {
      count, bytes := CountFile(files[..i], files[..i + 1], files[i], count, bytes);
    }
    assert files[..|files|] == files;
  }

  /** One turn of the loop. */
  method CountFile(ghost files: seq<File>, ghost files': seq<File>, f: File, count: map<string, int>,
      bytes: map<string, int>)
    returns (count': map<string, int>, bytes': map<string, int>)
    requires files' != [] && Init(files') == files && Last(files') == f
    requires TableOf(count, Keys(files, ToKind()), CountIn(files))
        && TableOf(bytes, Keys(files, ToKind()), BytesIn(files))
    ensures TableOf(count', Keys(files', ToKind()), CountIn(files'))
        && TableOf(bytes', Keys(files', ToKind()), BytesIn(files'))
  {
    var kind := Classify(f.path);
    OneMoreFile(files, files', f);
    if kind !in Keys(files, ToKind()) {
      NothingOfNewKind(files, kind);
    }
    AddToTable(count, Keys(files, ToKind()), CountIn(files), CountIn(files'), kind, 1);
    AddToTable(bytes, Keys(files, ToKind()), BytesIn(files), BytesIn(files'), kind, f.size);
    count' := Added(count, kind, 1);
    bytes' := Added(bytes, kind, f.size);
  }

  /** The counters of the picked files, type by type. */
  lemma PickedOfKind(policy: Policy, now: int, records: seq<File>, kind: string)
    ensures var picked, doomed :=
        Members(PickedFiles(policy, now, records), ToKind(), kind), DoomedOfKind(policy, now, records, kind);
      && |picked| == |doomed| && TotalSize(picked) == TotalSize(doomed)
    ensures kind !in Keys(PickedFiles(policy, now, records), ToKind()) ==>
        DoomedOfKind(policy, now, records, kind) == []
  {
    var picked := PickedFiles(policy, now, records);
    SweepPicksShortestPrefixOfEachKind(policy, now, records, kind);
    TotalPermutation(Members(picked, ToKind(), kind), DoomedOfKind(policy, now, records, kind), ToSize());
    assert |multiset(Members(picked, ToKind(), kind))| == |multiset(DoomedOfKind(policy, now, records, kind))|;
    if kind !in Keys(picked, ToKind()) {
      NoGroupOutsideKeys(picked, ToKind(), kind);
    }
  }

  function KindsOf(records: seq<File>): set<string> { set kind | kind in Keys(records, ToKind()) }

  /** The evidence types that occur, in dictionary order. */
  function SortedKinds(records: seq<File>): seq<string> { SortedKeys(KindsOf(records)) }

  lemma SortedKindsAreDistinct(records: seq<File>)
    ensures forall i, j :: 0 <= i < j < |SortedKinds(records)| ==> SortedKinds(records)[i] != SortedKinds(records)[j]
  {
    hide SortedKeys;
    forall k: string
      ensures !Less(k, k)
    {
      LessIsIrreflexive(k);
    }
  }

  method EvidenceUsage(policy: Policy, now: int, records: seq<File>,
      candidates: seq<Candidate>) returns (usage: seq<Usage>)
    requires candidates == Candidates(policy, now, records)
    ensures usage == Map(SortedKinds(records), UsageOf(policy, now, records))
  {
    hide SortedKeys;
    var files, total := CountByKind(records);
    CandidatesArePickedFiles(policy, now, records);
    var candCount, candBytes := CountByKind(Map(candidates, ToFile()));
    var order := SortedKeys(files.Keys);
    assert files.Keys == KindsOf(records);
    forall kind | kind in order
      ensures UsageRow(files, total, candCount, candBytes)(kind) == UsageOf(policy, now, records)(kind)
    {
      PickedOfKind(policy, now, records, kind);
    }
    usage := Map(order, UsageRow(files, total, candCount, candBytes));
    SameImages(order, UsageRow(files, total, candCount, candBytes), UsageOf(policy, now, records));
  }

  lemma SameImages(kinds: seq<string>, f: string -> Usage, g: string -> Usage)
    requires forall k :: k in kinds ==> f(k) == g(k)
    ensures Map(kinds, f) == Map(kinds, g)
  {
  }

  function UsageRow(files: map<string, int>, total: map<string, int>,
                    candCount: map<string, int>, candBytes: map<string, int>): string -> Usage
  {
    (kind: string) =>
      Usage(kind,
            if kind in files then files[kind] else 0,
            if kind in total then total[kind] else 0,
            if kind in candCount then candCount[kind] else 0,
            if kind in candBytes then candBytes[kind] else 0)
  }

  /** The per-type usage adds up to the bytes scanned and to the bytes picked. */
  lemma UsageAddsUp(policy: Policy, now: int, records: seq<File>)
    ensures Total(Map(SortedKinds(records), UsageOf(policy, now, records)), ToTotalBytes()) == TotalSize(records)
    ensures Total(Map(SortedKinds(records), UsageOf(policy, now, records)), ToCandidateBytes())
         == TotalSize(PickedFiles(policy, now, records))
  {
    hide SortedKeys;
    var ks, picked := SortedKinds(records), PickedFiles(policy, now, records);
    SortedKindsAreDistinct(records);
    GroupTotalsOfImages(records, ToKind(), ToSize(), ks, UsageOf(policy, now, records), ToTotalBytes());
    GroupingConservesTotals(records, ToKind(), ToSize(), ks);
    forall k | k in ks
      ensures UsageOf(policy, now, records)(k).candidateBytes == TotalSize(Members(picked, ToKind(), k))
    {
      SweepPicksShortestPrefixOfEachKind(policy, now, records, k);
      TotalPermutation(Members(picked, ToKind(), k), DoomedOfKind(policy, now, records, k), ToSize());
    }
    GroupTotalsOfImages(picked, ToKind(), ToSize(), ks, UsageOf(policy, now, records), ToCandidateBytes());
    forall f | f in picked
      ensures Classify(f.path) in ks
    {
      PickedFilesAreDoomed(policy, now, records, f);
      DoomedAreMembers(policy.RuleFor(Classify(f.path)), now, Members(records, ToKind(), Classify(f.path)));
    }
    GroupingConservesTotals(picked, ToKind(), ToSize(), ks);
  }

  datatype RetentionResult = RetentionResult(
    scannedFiles: int,
    scannedBytes: int,
    usage: seq<Usage>,
    candidates: seq<Candidate>,
    deletedPaths: seq<Path>,
    reclaimedBytes: int)

  function ToPath(): File -> Path { (f: File) => f.path }

  class RuntimeLifecycleService {
    /** The files below the runtime's task directory, in scan order. */
    var files: seq<File>

    ghost predicate Valid()
      reads this
    {
      UniquePaths(files)
    }

    constructor (files: seq<File>)
      requires UniquePaths(files)
      ensures Valid() && this.files == files
    {
      this.files := files;
    }

    method DeleteFiles(doomed: seq<File>) returns (deleted: seq<Path>, reclaimed: int)
      requires Valid()
      requires forall f :: f in doomed ==> f in files
      modifies this
      ensures Valid()
      ensures files == Filter(old(files), Outside(doomed))
      ensures deleted == Map(doomed, ToPath())
      ensures reclaimed == TotalSize(doomed)
    {
      deleted, reclaimed := [], 0;
      ghost var before := files;
      FilterAll(before, Outside([]));
      for i := 0 to |doomed|
        invariant files == Filter(before, Outside(doomed[..i]))
        invariant deleted == Map(doomed[..i], ToPath()) && reclaimed == TotalSize(doomed[..i])
      {
        var f := doomed[i];
        RemovingOneFile(before, doomed[..i], f);
        TakeOneMore(doomed, i);
        MapSnoc(doomed[..i], f, ToPath());
        files := Filter(files, PathNotIn({f.path}));
        deleted := deleted + [f.path];
        reclaimed := reclaimed + f.size;
      }
      assert doomed[..|doomed|] == doomed;
      FilterKeepsUniquePaths(before, Outside(doomed));
    }

    /** A sweep reports exactly the specified candidates. Applied, it leaves exactly the
        survivors on disk and reclaims the candidates' bytes; as a dry run it changes nothing. */
    method EnforceEvidenceRetention(policy: Policy, apply: bool, now: int) returns (result: RetentionResult)
      requires Valid()
      modifies this
      ensures Valid()
      ensures var records := Filter(old(files), Scannable());
        && result.candidates == Candidates(policy, now, records)
        && result.scannedFiles == |records| && result.scannedBytes == TotalSize(records)
        && result.usage == Map(SortedKinds(records), UsageOf(policy, now, records))
        && result.deletedPaths == (if apply then Map(PickedFiles(policy, now, records), ToPath()) else [])
        && result.reclaimedBytes == (if apply then TotalSize(PickedFiles(policy, now, records)) else 0)
      ensures files == if apply then Survivors(policy, now, old(files)) else old(files)
    {
      var records := Filter(files, Scannable());
      FilterKeepsUniquePaths(files, Scannable());
      var candidates := FindCandidates(policy, now, records);
      var usage := EvidenceUsage(policy, now, records, candidates);
      var deleted, reclaimed := [], 0;
      if apply {
        PickedFilesAreFiles(policy, now, files);
        CandidatesArePickedFiles(policy, now, records);
        SparedAreOutside(policy, now, files);
        deleted, reclaimed := DeleteFiles(Map(candidates, ToFile()));
      }
      result := RetentionResult(|records|, TotalSize(records), usage, candidates, deleted, reclaimed);
    }
  }

  lemma {:induction false} FilterKeepsUniquePaths(files: seq<File>, p: File -> bool)
    requires UniquePaths(files)
    ensures UniquePaths(Filter(files, p))
  {
    if files != [] {
      assert files == Init(files) + [Last(files)];
      FilterKeepsUniquePaths(Init(files), p);
      forall f | f in Init(files)
        ensures f.path != Last(files).path
      {
      }
    }
  }

  /** Deleting a path removes exactly the file that has it. */
  lemma RemovingOneFile(files: seq<File>, gone: seq<File>, f: File)
    requires UniquePaths(files) && f in files
    ensures Filter(Filter(files, Outside(gone)), PathNotIn({f.path})) == Filter(files, Outside(gone + [f]))
  {
    forall g | g in files
      ensures Outside(gone + [f])(g) == (Outside(gone)(g) && PathNotIn({f.path})(g))
    {
      if g.path == f.path {
        assert g == f;
      }
    }
    FilterOfFilter(files, Outside(gone), PathNotIn({f.path}), Outside(gone + [f]));
  }

  lemma PickedFilesAreFiles(policy: Policy, now: int, files: seq<File>)
    ensures forall f :: f in PickedFiles(policy, now, Filter(files, Scannable())) ==> f in files
  {
    var records := Filter(files, Scannable());
    forall f | f in PickedFiles(policy, now, records)
      ensures f in files
    {
      var kind := Classify(f.path);
      PickedFilesAreDoomed(policy, now, records, f);
      DoomedAreMembers(policy.RuleFor(kind), now, Members(records, ToKind(), kind));
    }
  }

  lemma SparedAreOutside(policy: Policy, now: int, files: seq<File>)
    ensures Survivors(policy, now, files)
        == Filter(files, Outside(PickedFiles(policy, now, Filter(files, Scannable()))))
  {
    var records := Filter(files, Scannable());
    forall f | f in files
      ensures Spared(policy, now, files)(f) == Outside(PickedFiles(policy, now, records))(f)
    {
      var kind := Classify(f.path);
      PickedFilesAreDoomed(policy, now, records, f);
      DoomedAreMembers(policy.RuleFor(kind), now, Members(records, ToKind(), kind));
    }
    SameFilter(files, Spared(policy, now, files), Outside(PickedFiles(policy, now, records)));
  }
}
