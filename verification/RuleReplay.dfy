/** Replaying one issue query under two fingerprint rule sets and comparing the groupings. */
module RuleReplay {
  import opened Wrappers
  import opened GroupBy
  import opened FingerprintGovernance
  import opened IssueAggregation

  // ---------------------------------------------------------------------------------
  // From groups to comparable items.
  // ---------------------------------------------------------------------------------

  datatype FamilyKey = FamilyKey(issueType: string, package: string, process: string, scenario: string, title: string)

  datatype AggregatedIssue = AggregatedIssue(family: FamilyKey, fingerprint: Fp, occurrences: nat)

  /** The position of the first title, among the first `n`, with the highest count. */
  function MostCommonAt(titles: seq<string>, counts: multiset<string>, n: nat): (i: nat)
    requires 0 < n <= |titles|
    ensures i < n
    ensures forall j :: 0 <= j < i ==> counts[titles[j]] < counts[titles[i]]
    ensures forall j :: 0 <= j < n ==> counts[titles[j]] <= counts[titles[i]]
  {
    if n == 1 then 0
    else
      var i := MostCommonAt(titles, counts, n - 1);
      if counts[titles[n - 1]] > counts[titles[i]] then n - 1 else i
  }

  function EventTitle(): Event -> string { (e: Event) => e.title }

  function MostCommonTitle(g: Group): string {
    var titles := Map(g.events, EventTitle());
    if titles == [] then g.issueType else titles[MostCommonAt(titles, g.titles, |titles|)]
  }

  function ToAggregatedIssue(g: Group): AggregatedIssue {
    var c := g.fingerprint.components;
    AggregatedIssue(
      FamilyKey(g.issueType, c.package, c.process, c.scenario, MostCommonTitle(g)),
      g.fingerprint.value,
      |g.events|)
  }

  /** Replay runs the analysis without a governance service. */
  const NO_RULES: Rules := map[]

  function ItemFor(occs: seq<Occurrence>): Fp -> AggregatedIssue {
    (v: Fp) => ToAggregatedIssue(Entry(GroupFor(NO_RULES, occs, v)))
  }

  /** The aggregated issues of a query, one per group. */
  function Items(occs: seq<Occurrence>): seq<AggregatedIssue> {
    Map(GroupOrder(NO_RULES, occs), ItemFor(occs))
  }

  function ToFamily(): AggregatedIssue -> FamilyKey { (item: AggregatedIssue) => item.family }
  function ToCount(): AggregatedIssue -> int { (item: AggregatedIssue) => item.occurrences }
  function ToFingerprint(): AggregatedIssue -> Fp { (item: AggregatedIssue) => item.fingerprint }

  lemma {:induction false} NothingIsSuppressed(occs: seq<Occurrence>)
    ensures Visible(NO_RULES, occs) == occs
    ensures forall o :: GovernedKey(NO_RULES)(o) == o.fingerprint.value
  {
    forall o: Occurrence
      ensures IsVisible(NO_RULES)(o) && GovernedKey(NO_RULES)(o) == o.fingerprint.value
    {
      WalkFromIsWalk(NO_RULES, o.fingerprint.value, {});
    }
    if occs != [] {
      assert occs == Init(occs) + [Last(occs)];
      NothingIsSuppressed(Init(occs));
    }
  }

  lemma ItemCountsMembers(occs: seq<Occurrence>, v: Fp)
    ensures ItemFor(occs)(v).occurrences == |GroupMembers(NO_RULES, occs, v)|
  {
    VisibleMeansGoverned(NO_RULES);
    var i := EntryIsGroupOf(NO_RULES, GroupMembers(NO_RULES, occs, v));
    GroupRecordsItsMembers(i.fingerprint, i.issueType, GroupMembers(NO_RULES, occs, v));
  }

  /** Of equally common titles the one met first counts. */
  ghost predicate IsMostCommonTitle(ms: seq<Occurrence>, title: string) {
    var counts := multiset(Map(ms, ToTitle()));
    exists i :: 0 <= i < |ms| && ms[i].event.title == title
      && (forall j :: 0 <= j < |ms| ==> counts[ms[j].event.title] <= counts[title])
      && (forall j :: 0 <= j < i ==> counts[ms[j].event.title] < counts[title])
  }

  /** What an item shows of its group: the fingerprint all its issues share, how many there are, and
      the family they are compared in, by type, package, process and scenario of the first one and
      the most common title. */
  lemma ItemShowsItsGroup(occs: seq<Occurrence>, v: Fp)
    requires v in GroupOrder(NO_RULES, occs)
    ensures var ms, item := Members(occs, OwnKey(), v), ItemFor(occs)(v);
      && ms != []
      && item.fingerprint == v && item.occurrences == |ms|
      && item.family.issueType == ms[0].event.issueType
      && item.family.package == ms[0].fingerprint.components.package
      && item.family.process == ms[0].fingerprint.components.process
      && item.family.scenario == ms[0].fingerprint.components.scenario
      && IsMostCommonTitle(ms, item.family.title)
  {
    hide Members, Keys, Visible, GovernedKey, MostCommonAt;
    GroupsWithoutRules(occs, v);
    VisibleMeansGoverned(NO_RULES);
    var ms := GroupMembers(NO_RULES, occs, v);
    GroupIsNotEmpty(occs, v);
    assert ms[0] in ms;
    TraceTellsTheWay(NO_RULES, ms[0].fingerprint);
    GroupRecordsItsMembers(ms[0].fingerprint, ms[0].event.issueType, ms);
    TitleIsMostCommon(GroupOf(ms[0].fingerprint, ms[0].event.issueType, ms), ms);
  }

  lemma GroupIsNotEmpty(occs: seq<Occurrence>, v: Fp)
    requires v in GroupOrder(NO_RULES, occs)
    ensures GroupMembers(NO_RULES, occs, v) != []
  {
    GroupsAreNotEmpty(Visible(NO_RULES, occs), GovernedKey(NO_RULES), v);
  }

  lemma TitleIsMostCommon(g: Group, ms: seq<Occurrence>)
    requires ms != [] && g.events == Map(ms, ToEvent()) && g.titles == multiset(Map(ms, ToTitle()))
    ensures IsMostCommonTitle(ms, MostCommonTitle(g))
  {
    var titles := Map(g.events, EventTitle());
    var i := MostCommonAt(titles, g.titles, |titles|);
    assert forall j :: 0 <= j < |ms| ==> titles[j] == ms[j].event.title;
    assert ms[i].event.title == MostCommonTitle(g);
  }

  /** The occurrence counts of all items add up to the number of selected issues. */
  lemma ItemsCountEveryIssue(occs: seq<Occurrence>)
    ensures Total(Items(occs), ToCount()) == |occs|
  {
    var rows, key, ks := Visible(NO_RULES, occs), GovernedKey(NO_RULES), GroupOrder(NO_RULES, occs);
    forall v | v in ks
      ensures ToCount()(ItemFor(occs)(v)) == Total(Members(rows, key, v), One())
    {
      ItemCountsMembers(occs, v);
      TotalOfOnes(GroupMembers(NO_RULES, occs, v));
    }
    GroupTotalsOfImages(rows, key, One(), ks, ItemFor(occs), ToCount());
    GroupsPartitionVisibleIssues(NO_RULES, occs);
    NothingIsSuppressed(occs);
  }

  // ---------------------------------------------------------------------------------
  // Comparing families.
  // ---------------------------------------------------------------------------------

  datatype ChangeType = Added | Removed | Regrouped | FingerprintChanged | CountChanged | Unchanged

  function ClassifyChange(left: seq<AggregatedIssue>, right: seq<AggregatedIssue>): ChangeType {
    if left == [] && right != [] then Added
    else if left != [] && right == [] then Removed
    else if |left| != |right| then Regrouped
    else if Elements(Map(left, ToFingerprint())) != Elements(Map(right, ToFingerprint())) then FingerprintChanged
    else if Total(left, ToCount()) != Total(right, ToCount()) then CountChanged
    else Unchanged
  }

  /** A fingerprint occurs among the items. */
  predicate HasFingerprint(items: seq<AggregatedIssue>, v: Fp) {
    exists i :: 0 <= i < |items| && items[i].fingerprint == v
  }

  /** What the classes mean: added and removed families exist on one side only; a regrouped one has
      another number of groups; one with changed fingerprints has as many, but a fingerprint that
      the other side has not; one with a changed count has the same fingerprints and another
      number of occurrences; an unchanged one agrees in all of these. */
  lemma ChangeMeans(left: seq<AggregatedIssue>, right: seq<AggregatedIssue>)
    ensures var change := ClassifyChange(left, right);
      var sameGroups := |left| == |right|;
      var sameFingerprints := forall v :: HasFingerprint(left, v) <==> HasFingerprint(right, v);
      var sameCount := Total(left, ToCount()) == Total(right, ToCount());
      && (change == Added <==> left == [] && right != [])
      && (change == Removed <==> left != [] && right == [])
      && (change == Regrouped <==> left != [] && right != [] && !sameGroups)
      && (change == FingerprintChanged <==> sameGroups && !sameFingerprints)
      && (change == CountChanged <==> sameGroups && sameFingerprints && !sameCount)
      && (change == Unchanged <==> sameGroups && sameFingerprints && sameCount)
  {
    var ls, rs := Map(left, ToFingerprint()), Map(right, ToFingerprint());
    forall v: Fp
      ensures HasFingerprint(left, v) <==> v in Elements(ls)
      ensures HasFingerprint(right, v) <==> v in Elements(rs)
    {
      FingerprintIsElement(left, v);
      FingerprintIsElement(right, v);
    }
    assert Elements(ls) == Elements(rs) <==> forall v :: v in Elements(ls) <==> v in Elements(rs);
  }

  lemma FingerprintIsElement(items: seq<AggregatedIssue>, v: Fp)
    ensures HasFingerprint(items, v) <==> v in Elements(Map(items, ToFingerprint()))
  {
    var vs := Map(items, ToFingerprint());
    if HasFingerprint(items, v) {
      var i :| 0 <= i < |items| && items[i].fingerprint == v;
      assert vs[i] == v && v in vs;
    }
  }

  datatype Family = Family(
    key: FamilyKey,
    change: ChangeType,
    leftGroups: nat,
    rightGroups: nat,
    leftOccurrences: int,
    rightOccurrences: int)

  function FamilyOf(key: FamilyKey, left: seq<AggregatedIssue>, right: seq<AggregatedIssue>): Family {
    Family(key, ClassifyChange(left, right), |left|, |right|, Total(left, ToCount()), Total(right, ToCount()))
  }

  function ToKey(): Family -> FamilyKey { (f: Family) => f.key }
  function LeftCount(): Family -> int { (f: Family) => f.leftOccurrences }
  function RightCount(): Family -> int { (f: Family) => f.rightOccurrences }

  /** A family holds exactly the items of its key, and at least one. */
  ghost predicate IsFamily(baseline: seq<AggregatedIssue>, candidate: seq<AggregatedIssue>, f: Family) {
    && f == FamilyOf(f.key, Members(baseline, ToFamily(), f.key), Members(candidate, ToFamily(), f.key))
    && f.leftGroups + f.rightGroups > 0
  }

  /** What a family of a comparison shows: how many items of its key, and how many occurrences, there
      are on either side, and the class that tells the two sides apart. */
  lemma FamilyShowsBothSides(baseline: seq<AggregatedIssue>, candidate: seq<AggregatedIssue>, f: Family)
    requires IsFamily(baseline, candidate, f)
    ensures var left, right := Members(baseline, ToFamily(), f.key), Members(candidate, ToFamily(), f.key);
      var sameFingerprints := forall v :: HasFingerprint(left, v) <==> HasFingerprint(right, v);
      && f.leftGroups == |left| && f.rightGroups == |right|
      && f.leftOccurrences == Total(left, ToCount()) && f.rightOccurrences == Total(right, ToCount())
      && (f.change == Added <==> f.leftGroups == 0)
      && (f.change == Removed <==> f.rightGroups == 0)
      && (f.change == Regrouped <==> f.leftGroups > 0 && f.rightGroups > 0 && f.leftGroups != f.rightGroups)
      && (f.change == FingerprintChanged <==> f.leftGroups == f.rightGroups && !sameFingerprints)
      && (f.change == CountChanged <==>
            f.leftGroups == f.rightGroups && sameFingerprints && f.leftOccurrences != f.rightOccurrences)
  {
    ChangeMeans(Members(baseline, ToFamily(), f.key), Members(candidate, ToFamily(), f.key));
  }

  ghost predicate DistinctKeys(families: seq<Family>) {
    forall i, j :: 0 <= i < j < |families| ==> families[i].key != families[j].key
  }

  /** A comparison has one family per key of either side. */
  ghost predicate Compares(baseline: seq<AggregatedIssue>, candidate: seq<AggregatedIssue>, families: seq<Family>) {
    && DistinctKeys(families)
    && (forall x :: x in baseline || x in candidate ==> x.family in Map(families, ToKey()))
    && (forall f :: f in families ==> IsFamily(baseline, candidate, f))
  }

  method FamilyMap(items: seq<AggregatedIssue>) returns (families: map<FamilyKey, seq<AggregatedIssue>>)
    ensures forall k :: k in families <==> Members(items, ToFamily(), k) != []
    ensures forall k :: k in families ==> families[k] == Members(items, ToFamily(), k)
  {
    families := map[];
    for i := 0 to |items|
      invariant forall k :: k in families <==> Members(items[..i], ToFamily(), k) != []
      invariant forall k :: k in families ==> families[k] == Members(items[..i], ToFamily(), k)
    {
      var key := items[i].family;
      assert Init(items[..i + 1]) == items[..i];
      var sofar := if key in families then families[key] else [];
      families := families[key := sofar + [items[i]]];
    }
    assert items[..|items|] == items;
  }

  method CompareFamilies(baseline: seq<AggregatedIssue>,
      candidate: seq<AggregatedIssue>) returns (families: seq<Family>)
    ensures Compares(baseline, candidate, families)
  {
    hide IsFamily, FamilyOf;
    var left := FamilyMap(baseline);
    var right := FamilyMap(candidate);
    families := [];
    var pending := left.Keys + right.Keys;
    while pending != {}
      invariant pending <= left.Keys + right.Keys
      invariant forall f :: f in families ==> f.key !in pending
      invariant forall k :: k in left.Keys + right.Keys && k !in pending ==> k in Map(families, ToKey())
      invariant DistinctKeys(families)
      invariant forall f :: f in families ==> IsFamily(baseline, candidate, f)
      decreases pending
    {
      var key :| key in pending;
      var leftItems := if key in left then left[key] else [];
      var rightItems := if key in right then right[key] else [];
      var family := FamilyOf(key, leftItems, rightItems);
      NewFamily(baseline, candidate, key);
      MapSnoc(families, family, ToKey());
      families := families + [family];
      pending := pending - {key};
    }
    forall x | x in baseline || x in candidate
      ensures x.family in Map(families, ToKey())
    {
      assert x in baseline ==> x in Members(baseline, ToFamily(), x.family);
      assert x in candidate ==> x in Members(candidate, ToFamily(), x.family);
    }
  }

  lemma NewFamily(baseline: seq<AggregatedIssue>, candidate: seq<AggregatedIssue>, key: FamilyKey)
    requires Members(baseline, ToFamily(), key) != [] || Members(candidate, ToFamily(), key) != []
    ensures var f := FamilyOf(key, Members(baseline, ToFamily(), key), Members(candidate, ToFamily(), key));
      f.key == key && IsFamily(baseline, candidate, f)
  {
  }

  method SummarizeBuckets(grouped: map<Fp, AggregateBucket>, order: seq<Fp>, ghost spec: Fp -> AggregatedIssue)
    returns (items: seq<AggregatedIssue>)
    requires forall v :: v in order ==> v in grouped && spec(v) == ToAggregatedIssue(grouped[v].View())
    ensures items == Map(order, spec)
  {
    items := [];
    for i := 0 to |order|
      invariant items == Map(order[..i], spec)
    {
      items := items + [ToAggregatedIssue(grouped[order[i]].View())];
    }
  }

  method QueryAggregatedIssues(q: Query, cfg: RuleConfig, repo: Repository, runs: seq<Run>)
    returns (items: seq<AggregatedIssue>)
    ensures items == Items(Occurrences(q, cfg, repo, runs))
  {
    var grouped, order := CollectGroups(q, cfg, null, repo, runs);
    ghost var occs := Occurrences(q, cfg, repo, runs);
    TabulatedItems(GroupTable(order, Contents(grouped)), occs);
    items := SummarizeBuckets(grouped, order, ItemFor(occs));
  }

  lemma TabulatedItems(t: GroupTable, occs: seq<Occurrence>)
    requires Tabulates(t, GroupSpec(NO_RULES, occs))
    ensures forall v :: v in t.order ==> v in t.groups && ItemFor(occs)(v) == ToAggregatedIssue(t.groups[v])
  {
    forall v | v in t.groups
      ensures ItemFor(occs)(v) == ToAggregatedIssue(t.groups[v])
    {
      assert GroupSpec(NO_RULES, occs)(v) == Some(t.groups[v]);
    }
  }

  /** The replay itself: both groupings, then the comparison. */
  method ReplayTopIssues(q: Query, baseline: RuleConfig, candidate: RuleConfig, repo: Repository, runs: seq<Run>)
    returns (families: seq<Family>)
    ensures Compares(Items(Occurrences(q, baseline, repo, runs)), Items(Occurrences(q, candidate, repo, runs)),
        families)
  {
    var baselineItems := QueryAggregatedIssues(q, baseline, repo, runs);
    var candidateItems := QueryAggregatedIssues(q, candidate, repo, runs);
    families := CompareFamilies(baselineItems, candidateItems);
  }

  lemma {:induction false} FamilyTotals(baseline: seq<AggregatedIssue>, candidate: seq<AggregatedIssue>,
      families: seq<Family>)
    requires forall f :: f in families ==>
      f == FamilyOf(f.key, Members(baseline, ToFamily(), f.key), Members(candidate, ToFamily(), f.key))
    ensures Total(families, LeftCount()) == GroupTotals(baseline, ToFamily(), ToCount(), Map(families, ToKey()))
    ensures Total(families, RightCount()) == GroupTotals(candidate, ToFamily(), ToCount(), Map(families, ToKey()))
  {
    if families != [] {
      assert families == Init(families) + [Last(families)];
      FamilyTotals(baseline, candidate, Init(families));
      MapSnoc(Init(families), Last(families), ToKey());
      assert Init(Map(families, ToKey())) == Map(Init(families), ToKey());
      assert Last(families) in families;
    }
  }

  /** The families account for every occurrence on either side. */
  lemma FamiliesConserveOccurrences(baseline: seq<AggregatedIssue>, candidate: seq<AggregatedIssue>,
      families: seq<Family>)
    requires Compares(baseline, candidate, families)
    ensures Total(families, LeftCount()) == Total(baseline, ToCount())
    ensures Total(families, RightCount()) == Total(candidate, ToCount())
  {
    FamilyTotals(baseline, candidate, families);
    GroupingConservesTotals(baseline, ToFamily(), ToCount(), Map(families, ToKey()));
    GroupingConservesTotals(candidate, ToFamily(), ToCount(), Map(families, ToKey()));
  }

  // ---------------------------------------------------------------------------------
  // Two rule sets on the same issues.
  // ---------------------------------------------------------------------------------

  /** The candidate rules: another version label and another ignore set. */
  function WithIgnore(cfg: RuleConfig, version: string, ignore: set<string>): RuleConfig {
    cfg.(version := version, ignoreRawKeyTypes := ignore)
  }

  function BlankRawKey(ignore: set<string>, c: Components): Components {
    if c.issueType in ignore then c.(rawKey := "") else c
  }

  function RefitFingerprint(cfg: RuleConfig, c: Components): IssueFingerprint {
    var c' := BlankRawKey(cfg.ignoreRawKeyTypes, c);
    IssueFingerprint("ifp_" + cfg.digest(c'), cfg.version, c', None)
  }

  /** The same occurrence, fingerprinted under a rule set that ignores at least as much. */
  function Refit(cfg: RuleConfig): Occurrence -> Occurrence {
    (o: Occurrence) => o.(fingerprint := RefitFingerprint(cfg, o.fingerprint.components))
  }

  lemma {:induction false} RefitIssues(q: Query, cfg: RuleConfig, cfg': RuleConfig, run: Run, task: Option<Task>,
                                       inst: Instance, acc: seq<Occurrence>, n: nat)
    requires n <= |inst.issues|
    requires cfg' == WithIgnore(cfg, cfg'.version, cfg'.ignoreRawKeyTypes)
    requires cfg.ignoreRawKeyTypes <= cfg'.ignoreRawKeyTypes
    ensures IssueOccurrences(q, cfg', run, task, inst, Map(acc, Refit(cfg')), n)
         == Map(IssueOccurrences(q, cfg, run, task, inst, acc, n), Refit(cfg'))
  {
    if n > 0 {
      RefitIssues(q, cfg, cfg', run, task, inst, acc, n - 1);
      MapSnoc(IssueOccurrences(q, cfg, run, task, inst, acc, n - 1),
              Occur(cfg, run, task, inst, inst.issues[n - 1]), Refit(cfg'));
    }
  }

  lemma {:induction false} RefitInstances(q: Query, cfg: RuleConfig, cfg': RuleConfig, run: Run, task: Option<Task>,
                                          insts: seq<Instance>, acc: seq<Occurrence>, n: nat)
    requires n <= |insts|
    requires cfg' == WithIgnore(cfg, cfg'.version, cfg'.ignoreRawKeyTypes)
    requires cfg.ignoreRawKeyTypes <= cfg'.ignoreRawKeyTypes
    ensures InstanceOccurrences(q, cfg', run, task, insts, Map(acc, Refit(cfg')), n)
         == Map(InstanceOccurrences(q, cfg, run, task, insts, acc, n), Refit(cfg'))
  {
    if n > 0 {
      RefitInstances(q, cfg, cfg', run, task, insts, acc, n - 1);
      RefitIssues(q, cfg, cfg', run, task, insts[n - 1],
                  InstanceOccurrences(q, cfg, run, task, insts, acc, n - 1), |insts[n - 1].issues|);
    }
  }

  lemma {:induction false} RefitRuns(q: Query, cfg: RuleConfig, cfg': RuleConfig, repo: Repository, runs: seq<Run>,
      n: nat)
    requires n <= |runs|
    requires cfg' == WithIgnore(cfg, cfg'.version, cfg'.ignoreRawKeyTypes)
    requires cfg.ignoreRawKeyTypes <= cfg'.ignoreRawKeyTypes
    ensures RunOccurrences(q, cfg', repo, runs, n) == Map(RunOccurrences(q, cfg, repo, runs, n), Refit(cfg'))
  {
    if n > 0 {
      RefitRuns(q, cfg, cfg', repo, runs, n - 1);
      var run := runs[n - 1];
      var insts := repo.ListByRun(run.id);
      RefitInstances(q, cfg, cfg', run, repo.GetTask(run.taskId), insts, RunOccurrences(q, cfg, repo, runs, n - 1),
          |insts|);
    }
  }

  function OwnKey(): Occurrence -> Fp { (o: Occurrence) => o.fingerprint.value }

  /** The fingerprint an occurrence gets under the other rule set. */
  function RefitKey(cfg: RuleConfig): Occurrence -> Fp {
    (o: Occurrence) => RefitFingerprint(cfg, o.fingerprint.components).value
  }

  /** Every occurrence carries the fingerprint its rule set generates. */
  ghost predicate FingerprintedBy(cfg: RuleConfig, occs: seq<Occurrence>) {
    forall o :: o in occs ==>
      && o.fingerprint.value == "ifp_" + cfg.digest(o.fingerprint.components)
      && BlankRawKey(cfg.ignoreRawKeyTypes, o.fingerprint.components) == o.fingerprint.components
  }

  lemma {:induction false} IssuesAreFingerprinted(q: Query, cfg: RuleConfig, run: Run, task: Option<Task>,
      inst: Instance, acc: seq<Occurrence>, n: nat)
    requires n <= |inst.issues| && FingerprintedBy(cfg, acc)
    ensures FingerprintedBy(cfg, IssueOccurrences(q, cfg, run, task, inst, acc, n))
  {
    if n > 0 {
      IssuesAreFingerprinted(q, cfg, run, task, inst, acc, n - 1);
    }
  }

  lemma {:induction false} InstancesAreFingerprinted(q: Query, cfg: RuleConfig, run: Run, task: Option<Task>,
      insts: seq<Instance>, acc: seq<Occurrence>, n: nat)
    requires n <= |insts| && FingerprintedBy(cfg, acc)
    ensures FingerprintedBy(cfg, InstanceOccurrences(q, cfg, run, task, insts, acc, n))
  {
    if n > 0 {
      InstancesAreFingerprinted(q, cfg, run, task, insts, acc, n - 1);
      IssuesAreFingerprinted(q, cfg, run, task, insts[n - 1],
                             InstanceOccurrences(q, cfg, run, task, insts, acc, n - 1), |insts[n - 1].issues|);
    }
  }

  lemma {:induction false} RunsAreFingerprinted(q: Query, cfg: RuleConfig, repo: Repository, runs: seq<Run>, n: nat)
    requires n <= |runs|
    ensures FingerprintedBy(cfg, RunOccurrences(q, cfg, repo, runs, n))
  {
    if n > 0 {
      RunsAreFingerprinted(q, cfg, repo, runs, n - 1);
      var run := runs[n - 1];
      var insts := repo.ListByRun(run.id);
      InstancesAreFingerprinted(q, cfg, run, repo.GetTask(run.taskId), insts,
          RunOccurrences(q, cfg, repo, runs, n - 1), |insts|);
    }
  }

  /** The candidate's key is a function of the baseline's: the candidate can only coarsen. */
  lemma LargerIgnoreSetCoarsens(cfg: RuleConfig, cfg': RuleConfig, occs: seq<Occurrence>)
    requires Injective(cfg.digest) && FingerprintedBy(cfg, occs)
    ensures Coarsens(occs, OwnKey(), RefitKey(cfg'))
  {
    forall x, y | x in occs && y in occs && OwnKey()(x) == OwnKey()(y)
      ensures RefitKey(cfg')(x) == RefitKey(cfg')(y)
    {
      SamePrefix(cfg.digest(x.fingerprint.components), cfg.digest(y.fingerprint.components));
      assert x.fingerprint.components == y.fingerprint.components;
    }
  }

  lemma GroupsWithoutRules(occs: seq<Occurrence>, v: Fp)
    ensures GroupMembers(NO_RULES, occs, v) == Members(occs, OwnKey(), v)
    ensures GroupOrder(NO_RULES, occs) == Keys(occs, OwnKey())
  {
    NothingIsSuppressed(occs);
    assert Map(occs, Itself()) == occs && Map(Members(occs, OwnKey(), v), Itself()) == Members(occs, OwnKey(), v);
    GroupsOfImages(occs, Itself(), GovernedKey(NO_RULES), OwnKey(), v);
  }

  function Itself(): Occurrence -> Occurrence { (o: Occurrence) => o }

  /** The baseline occurrences that the candidate rules put in group `v`. */
  function Within(cfg: RuleConfig, occs: seq<Occurrence>, v: Fp): seq<Occurrence> {
    Members(occs, RefitKey(cfg), v)
  }

  ghost predicate Enlarges(cfg: RuleConfig, cfg': RuleConfig) {
    && cfg' == WithIgnore(cfg, cfg'.version, cfg'.ignoreRawKeyTypes)
    && cfg.ignoreRawKeyTypes <= cfg'.ignoreRawKeyTypes
    && Injective(cfg.digest)
  }

  /** Ignoring the raw key of more issue types only coarsens the grouping: a candidate group is
      the disjoint union of whole baseline groups, and there are never more groups than before. */
  lemma EnlargingIgnoreSetOnlyCoarsens(q: Query, cfg: RuleConfig, cfg': RuleConfig, repo: Repository,
      runs: seq<Run>, v: Fp)
    requires Enlarges(cfg, cfg')
    ensures var left, right := Occurrences(q, cfg, repo, runs), Occurrences(q, cfg', repo, runs);
      var parts := Keys(Within(cfg', left, v), OwnKey());
      && |GroupOrder(NO_RULES, right)| <= |GroupOrder(NO_RULES, left)|
      && GroupMembers(NO_RULES, right, v) == Map(Within(cfg', left, v), Refit(cfg'))
      && (forall u :: u in parts ==> GroupMembers(NO_RULES, left, u) == Members(Within(cfg', left, v), OwnKey(), u))
      && GroupTotals(left, OwnKey(), One(), parts) == |GroupMembers(NO_RULES, right, v)|
      && (forall u, v' :: u in parts && u in Keys(Within(cfg', left, v'), OwnKey()) ==> v' == v)
  {
    var left, right := Occurrences(q, cfg, repo, runs), Occurrences(q, cfg', repo, runs);
    RunsAreFingerprinted(q, cfg, repo, runs, |runs|);
    RefitRuns(q, cfg, cfg', repo, runs, |runs|);
    LargerIgnoreSetCoarsens(cfg, cfg', left);
    GroupsWithoutRules(right, v);
    GroupsWithoutRules(left, v);
    GroupsOfImages(left, Refit(cfg'), OwnKey(), RefitKey(cfg'), v);
    CoarserKeyHasFewerGroups(left, OwnKey(), RefitKey(cfg'));
    CoarseGroupIsUnionOfFineGroups(left, OwnKey(), RefitKey(cfg'), v);
    forall u | true
      ensures GroupMembers(NO_RULES, left, u) == Members(left, OwnKey(), u)
    {
      GroupsWithoutRules(left, u);
    }
  }

  lemma {:induction false} IssuesAreSelectedAlike(q: Query, cfg: RuleConfig, cfg': RuleConfig, run: Run,
      task: Option<Task>, inst: Instance, acc: seq<Occurrence>, acc': seq<Occurrence>, n: nat)
    requires n <= |inst.issues| && |acc'| == |acc|
    ensures |IssueOccurrences(q, cfg', run, task, inst, acc', n)| == |IssueOccurrences(q, cfg, run, task, inst, acc, n)|
  {
    if n > 0 {
      IssuesAreSelectedAlike(q, cfg, cfg', run, task, inst, acc, acc', n - 1);
    }
  }

  lemma {:induction false} InstancesAreSelectedAlike(q: Query, cfg: RuleConfig, cfg': RuleConfig, run: Run,
      task: Option<Task>, insts: seq<Instance>, acc: seq<Occurrence>, acc': seq<Occurrence>, n: nat)
    requires n <= |insts| && |acc'| == |acc|
    ensures |InstanceOccurrences(q, cfg', run, task, insts, acc', n)|
         == |InstanceOccurrences(q, cfg, run, task, insts, acc, n)|
  {
    if n > 0 {
      InstancesAreSelectedAlike(q, cfg, cfg', run, task, insts, acc, acc', n - 1);
      var before := InstanceOccurrences(q, cfg, run, task, insts, acc, n - 1);
      var before' := InstanceOccurrences(q, cfg', run, task, insts, acc', n - 1);
      IssuesAreSelectedAlike(q, cfg, cfg', run, task, insts[n - 1], before, before', |insts[n - 1].issues|);
    }
  }

  /** Which issues are selected does not depend on the rule set. */
  lemma {:induction false} RunsAreSelectedAlike(q: Query, cfg: RuleConfig, cfg': RuleConfig, repo: Repository,
      runs: seq<Run>, n: nat)
    requires n <= |runs|
    ensures |RunOccurrences(q, cfg', repo, runs, n)| == |RunOccurrences(q, cfg, repo, runs, n)|
  {
    if n > 0 {
      RunsAreSelectedAlike(q, cfg, cfg', repo, runs, n - 1);
      var run := runs[n - 1];
      var insts := repo.ListByRun(run.id);
      InstancesAreSelectedAlike(q, cfg, cfg', run, repo.GetTask(run.taskId), insts,
        RunOccurrences(q, cfg, repo, runs, n - 1), RunOccurrences(q, cfg', repo, runs, n - 1), |insts|);
    }
  }

  /** Whatever the two rule sets, a comparison accounts for every selected issue on both sides. */
  lemma ReplayConservesOccurrences(q: Query, cfg: RuleConfig, cfg': RuleConfig, repo: Repository, runs: seq<Run>,
      families: seq<Family>)
    requires Compares(Items(Occurrences(q, cfg, repo, runs)), Items(Occurrences(q, cfg', repo, runs)), families)
    ensures Total(families, LeftCount()) == Total(families, RightCount()) == |Occurrences(q, cfg, repo, runs)|
  {
    var left, right := Occurrences(q, cfg, repo, runs), Occurrences(q, cfg', repo, runs);
    RunsAreSelectedAlike(q, cfg, cfg', repo, runs, |runs|);
    FamiliesConserveOccurrences(Items(left), Items(right), families);
    ItemsCountEveryIssue(left);
    ItemsCountEveryIssue(right);
  }

  /** The item made of a list of members, for a group without governance. */
  lemma ItemOfMembers(ms: seq<Occurrence>)
    requires ms != []
    requires forall m :: m in ms ==> Governed(NO_RULES, m.fingerprint).Some?
    ensures var g := Entry(GroupFrom(NO_RULES, ms));
      && g.fingerprint == ms[0].fingerprint && g.issueType == ms[0].event.issueType
      && g.events == Map(ms, ToEvent()) && g.titles == multiset(Map(ms, ToTitle()))
  {
    assert ms[0] in ms;
    WithoutRulesNothingChanges(ms[0].fingerprint);
    GroupRecordsItsMembers(ms[0].fingerprint, ms[0].event.issueType, ms);
  }

  lemma ItemDependsOnParts(g: Group, g': Group)
    requires g.issueType == g'.issueType && g.events == g'.events && g.titles == g'.titles
    requires g.fingerprint.components == g'.fingerprint.components && g.fingerprint.value == g'.fingerprint.value
    ensures ToAggregatedIssue(g) == ToAggregatedIssue(g')
  {
  }

  lemma RelabelledParts(cfg: RuleConfig, ms: seq<Occurrence>)
    requires FingerprintedBy(cfg, ms)
    ensures forall cfg': RuleConfig {:trigger Refit(cfg')} ::
      cfg' == WithIgnore(cfg, cfg'.version, cfg.ignoreRawKeyTypes) ==>
        var ms' := Map(ms, Refit(cfg'));
        && Map(ms', ToEvent()) == Map(ms, ToEvent()) && Map(ms', ToTitle()) == Map(ms, ToTitle())
        && (ms != [] ==>
              && ms'[0].event == ms[0].event
              && ms'[0].fingerprint.components == ms[0].fingerprint.components
              && ms'[0].fingerprint.value == ms[0].fingerprint.value)
  {
    assert ms != [] ==> ms[0] in ms;
  }

  lemma RelabelledMembersMakeTheSameItem(cfg: RuleConfig, cfg': RuleConfig, ms: seq<Occurrence>)
    requires cfg' == WithIgnore(cfg, cfg'.version, cfg.ignoreRawKeyTypes) && FingerprintedBy(cfg, ms)
    requires forall m :: m in ms ==> Governed(NO_RULES, m.fingerprint).Some?
    requires forall m :: m in Map(ms, Refit(cfg')) ==> Governed(NO_RULES, m.fingerprint).Some?
    ensures ToAggregatedIssue(Entry(GroupFrom(NO_RULES, Map(ms, Refit(cfg')))))
         == ToAggregatedIssue(Entry(GroupFrom(NO_RULES, ms)))
  {
    var ms' := Map(ms, Refit(cfg'));
    if ms != [] {
      RelabelledParts(cfg, ms);
      ItemOfMembers(ms);
      ItemOfMembers(ms');
      ItemDependsOnParts(Entry(GroupFrom(NO_RULES, ms')), Entry(GroupFrom(NO_RULES, ms)));
    }
  }

  lemma RelabelledItem(cfg: RuleConfig, cfg': RuleConfig, occs: seq<Occurrence>, v: Fp)
    requires cfg' == WithIgnore(cfg, cfg'.version, cfg.ignoreRawKeyTypes) && FingerprintedBy(cfg, occs)
    ensures ItemFor(Map(occs, Refit(cfg')))(v) == ItemFor(occs)(v)
    ensures GroupOrder(NO_RULES, Map(occs, Refit(cfg'))) == GroupOrder(NO_RULES, occs)
  {
    VisibleMeansGoverned(NO_RULES);
    var occs' := Map(occs, Refit(cfg'));
    GroupsWithoutRules(occs, v);
    GroupsWithoutRules(occs', v);
    GroupsOfImages(occs, Refit(cfg'), OwnKey(), OwnKey(), v);
    RelabelledMembersMakeTheSameItem(cfg, cfg', GroupMembers(NO_RULES, occs, v));
  }

  lemma SameIgnoreSetSameItems(q: Query, cfg: RuleConfig, cfg': RuleConfig, repo: Repository, runs: seq<Run>)
    requires cfg' == WithIgnore(cfg, cfg'.version, cfg.ignoreRawKeyTypes)
    ensures Items(Occurrences(q, cfg', repo, runs)) == Items(Occurrences(q, cfg, repo, runs))
  {
    var left := Occurrences(q, cfg, repo, runs);
    RunsAreFingerprinted(q, cfg, repo, runs, |runs|);
    RefitRuns(q, cfg, cfg', repo, runs, |runs|);
    RelabelledItem(cfg, cfg', left, "");
    var order := GroupOrder(NO_RULES, left);
    forall i | 0 <= i < |order|
      ensures ItemFor(Map(left, Refit(cfg')))(order[i]) == ItemFor(left)(order[i])
    {
      RelabelledItem(cfg, cfg', left, order[i]);
    }
    SameImages(order, ItemFor(Map(left, Refit(cfg'))), ItemFor(left));
  }

  lemma SameImages<T(!new), U(!new)>(xs: seq<T>, f: T -> U, g: T -> U)
    requires forall i :: 0 <= i < |xs| ==> f(xs[i]) == g(xs[i])
    ensures Map(xs, f) == Map(xs, g)
  {
  }

  lemma ComparedWithItself(items: seq<AggregatedIssue>, families: seq<Family>)
    requires Compares(items, items, families)
    ensures forall f :: f in families ==> f.change == Unchanged
  {
  }

  /** Two rule sets that ignore the same issue types differ in nothing but their label: every
      compared family is unchanged. */
  lemma SameIgnoreSetChangesNothing(q: Query, cfg: RuleConfig, cfg': RuleConfig, repo: Repository, runs: seq<Run>,
      families: seq<Family>)
    requires cfg' == WithIgnore(cfg, cfg'.version, cfg.ignoreRawKeyTypes)
    requires Compares(Items(Occurrences(q, cfg, repo, runs)), Items(Occurrences(q, cfg', repo, runs)), families)
    ensures forall f :: f in families ==> f.change == Unchanged
  {
    SameIgnoreSetSameItems(q, cfg, cfg', repo, runs);
    ComparedWithItself(Items(Occurrences(q, cfg, repo, runs)), families);
  }
}
