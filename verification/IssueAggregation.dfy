/** Collecting issues of past runs into groups with one governed fingerprint each. */
module IssueAggregation {
  import opened Wrappers
  import opened GroupBy
  import opened FingerprintGovernance

  type Time = nat

  /** The earliest representable time; stands in for a missing creation time. */
  const MIN_TIME: Time := 0

  datatype Severity = Low | Medium | High | Critical

  datatype Issue = Issue(
    id: string,
    issueType: string,
    severity: Severity,
    title: string,
    summary: string,
    process: string,
    rawKey: string,
    package: string,
    detectedAt: Option<Time>)

  datatype Instance = Instance(
    deviceId: string,
    targetPackage: string,
    template: Option<string>,
    issues: seq<Issue>)

  datatype Run = Run(id: string, taskId: string, status: string, createdAt: Option<Time>)

  datatype Task = Task(template: string, package: string, versionKey: string)

  datatype Repository = Repository(tasks: map<string, Task>, instances: map<string, seq<Instance>>) {
    function GetTask(taskId: string): Option<Task> {
      if taskId in tasks then Some(tasks[taskId]) else None
    }

    function ListByRun(runId: string): seq<Instance> {
      if runId in instances then instances[runId] else []
    }
  }

  datatype Query = Query(
    taskId: string,
    runStatus: string,
    template: string,
    version: string,
    package: string,
    deviceId: string,
    issueType: string,
    createdFrom: Option<Time>,
    createdTo: Option<Time>)

  /** The fingerprint rules, with the text normaliser and the hash as parameters. */
  datatype RuleConfig = RuleConfig(
    version: string,
    ignoreRawKeyTypes: set<string>,
    normalize: string -> string,
    digest: Components -> string)

  datatype Event = Event(
    id: string,
    runId: string,
    deviceId: string,
    package: string,
    scenario: string,
    issueType: string,
    severity: Severity,
    title: string,
    detectedAt: Option<Time>)

  /** One matching issue, ready to be grouped. */
  datatype Occurrence = Occurrence(
    event: Event,
    fingerprint: IssueFingerprint,
    versionKey: string)

  // ---------------------------------------------------------------------------------
  // Which issues a query selects, and their generated fingerprints.
  // ---------------------------------------------------------------------------------

  function TaskTemplate(task: Option<Task>): string { if task.None? then "" else task.value.template }
  function TaskPackage(task: Option<Task>): string { if task.None? then "" else task.value.package }
  function TaskVersion(task: Option<Task>): string { if task.None? then "" else task.value.versionKey }

  function ResolvePackage(issue: Issue, inst: Instance, task: Option<Task>): string {
    if issue.package != "" then issue.package
    else if inst.targetPackage != "" then inst.targetPackage
    else TaskPackage(task)
  }

  function ScenarioName(inst: Instance, task: Option<Task>): string {
    if inst.template.Some? then inst.template.value else TaskTemplate(task)
  }

  function BuildComponents(cfg: RuleConfig, issue: Issue, inst: Instance, task: Option<Task>): Components {
    Components(
      issue.issueType,
      ResolvePackage(issue, inst, task),
      cfg.normalize(issue.process),
      cfg.normalize(ScenarioName(inst, task)),
      cfg.normalize(issue.title),
      if issue.issueType in cfg.ignoreRawKeyTypes then "" else cfg.normalize(issue.rawKey))
  }

  function BuildFingerprint(cfg: RuleConfig, issue: Issue, inst: Instance, task: Option<Task>): (fp: IssueFingerprint)
    ensures fp.value != ""
  {
    var components := BuildComponents(cfg, issue, inst, task);
    var value := "ifp_" + cfg.digest(components);
    assert value[0] == 'i';
    IssueFingerprint(value, cfg.version, components, None)
  }

  ghost predicate Injective(digest: Components -> string) {
    forall c, c' :: digest(c) == digest(c') ==> c == c'
  }

  lemma SamePrefix(a: string, b: string)
    requires "ifp_" + a == "ifp_" + b
    ensures a == b
  {
    assert a == ("ifp_" + a)[4..] && b == ("ifp_" + b)[4..];
  }

  function DisplayTitle(issue: Issue): string {
    if issue.title != "" then issue.title
    else if issue.summary != "" then issue.summary
    else issue.issueType
  }

  function Occur(cfg: RuleConfig, run: Run, task: Option<Task>, inst: Instance, issue: Issue): (o: Occurrence)
    ensures o.fingerprint.value != ""
  {
    Occurrence(
      Event(issue.id, run.id, inst.deviceId, ResolvePackage(issue, inst, task), ScenarioName(inst, task),
            issue.issueType, issue.severity, DisplayTitle(issue), issue.detectedAt),
      BuildFingerprint(cfg, issue, inst, task),
      TaskVersion(task))
  }

  /** The filters on the run itself ... */
  predicate RunMatches(q: Query, run: Run) {
    var created := if run.createdAt.Some? then run.createdAt.value else MIN_TIME;
    && (q.taskId != "" ==> run.taskId == q.taskId)
    && (q.runStatus != "" ==> run.status == q.runStatus)
    && (q.createdFrom.Some? ==> q.createdFrom.value <= created)
    && (q.createdTo.Some? ==> created <= q.createdTo.value)
  }

  /** ... and on its task. */
  predicate TaskMatches(q: Query, task: Option<Task>) {
    && (q.template != "" ==> TaskTemplate(task) == q.template)
    && (q.version != "" ==> TaskVersion(task) == q.version)
    && (q.package != "" ==> TaskPackage(task) == q.package)
  }

  predicate InstanceMatches(q: Query, inst: Instance) {
    q.deviceId != "" ==> inst.deviceId == q.deviceId
  }

  predicate IssueMatches(q: Query, issue: Issue) {
    q.issueType != "" ==> issue.issueType == q.issueType
  }

  function WithIssue(q: Query, cfg: RuleConfig, run: Run, task: Option<Task>, inst: Instance,
                     acc: seq<Occurrence>, issue: Issue): seq<Occurrence>
  {
    if IssueMatches(q, issue) then acc + [Occur(cfg, run, task, inst, issue)] else acc
  }

  /** `acc` followed by the matching ones among the first `n` issues of an instance. */
  function IssueOccurrences(q: Query, cfg: RuleConfig, run: Run, task: Option<Task>, inst: Instance,
                            acc: seq<Occurrence>, n: nat): seq<Occurrence>
    requires n <= |inst.issues|
  {
    if n == 0 then acc
    else
      WithIssue(q, cfg, run, task, inst, IssueOccurrences(q, cfg, run, task, inst, acc, n - 1), inst.issues[n - 1])
  }

  /** ... among the first `n` instances of a run ... */
  function InstanceOccurrences(q: Query, cfg: RuleConfig, run: Run, task: Option<Task>, insts: seq<Instance>,
                               acc: seq<Occurrence>, n: nat): seq<Occurrence>
    requires n <= |insts|
  {
    if n == 0 then acc
    else
      var prev := InstanceOccurrences(q, cfg, run, task, insts, acc, n - 1);
      var inst := insts[n - 1];
      if InstanceMatches(q, inst) then IssueOccurrences(q, cfg, run, task, inst, prev, |inst.issues|) else prev
  }

  /** ... and among the first `n` runs. */
  function RunOccurrences(q: Query, cfg: RuleConfig, repo: Repository, runs: seq<Run>, n: nat): seq<Occurrence>
    requires n <= |runs|
  {
    if n == 0 then []
    else
      var prev, run := RunOccurrences(q, cfg, repo, runs, n - 1), runs[n - 1];
      var task, insts := repo.GetTask(run.taskId), repo.ListByRun(run.id);
      if RunMatches(q, run) && TaskMatches(q, task)
      then InstanceOccurrences(q, cfg, run, task, insts, prev, |insts|)
      else prev
  }

  /** Every issue the query selects, in scan order: filter first, group later. */
  function Occurrences(q: Query, cfg: RuleConfig, repo: Repository, runs: seq<Run>): seq<Occurrence> {
    RunOccurrences(q, cfg, repo, runs, |runs|)
  }

  // ---------------------------------------------------------------------------------
  // Groups, declaratively.
  // ---------------------------------------------------------------------------------

  function GovernedKey(rules: Rules): Occurrence -> Fp {
    (o: Occurrence) => match Bounded(FullWalk(rules, o.fingerprint.value)) case None => "" case Some(v) => v
  }

  function IsVisible(rules: Rules): Occurrence -> bool {
    (o: Occurrence) => Bounded(FullWalk(rules, o.fingerprint.value)).Some?
  }

  function Visible(rules: Rules, occs: seq<Occurrence>): seq<Occurrence> {
    Filter(occs, IsVisible(rules))
  }

  function GroupMembers(rules: Rules, occs: seq<Occurrence>, v: Fp): seq<Occurrence> {
    Members(Visible(rules, occs), GovernedKey(rules), v)
  }

  function GroupOrder(rules: Rules, occs: seq<Occurrence>): seq<Fp> {
    Keys(Visible(rules, occs), GovernedKey(rules))
  }

  function MinTime(a: Option<Time>, b: Option<Time>): Option<Time> {
    if a == None then b else if b == None then a else if b.value < a.value then b else a
  }

  function MaxTime(a: Option<Time>, b: Option<Time>): Option<Time> {
    if a == None then b else if b == None then a else if b.value > a.value then b else a
  }

  function FirstSeen(ms: seq<Occurrence>): Option<Time> {
    if ms == [] then None else MinTime(FirstSeen(Init(ms)), Last(ms).event.detectedAt)
  }

  function LastSeen(ms: seq<Occurrence>): Option<Time> {
    if ms == [] then None else MaxTime(LastSeen(Init(ms)), Last(ms).event.detectedAt)
  }

  datatype Group = Group(
    fingerprint: IssueFingerprint,
    issueType: string,
    events: seq<Event>,
    titles: multiset<string>,
    severities: multiset<Severity>,
    runIds: set<string>,
    devices: set<string>,
    scenarios: set<string>,
    versions: set<string>,
    packages: set<string>,
    firstSeen: Option<Time>,
    lastSeen: Option<Time>)

  function ToEvent(): Occurrence -> Event { (o: Occurrence) => o.event }
  function ToTitle(): Occurrence -> string { (o: Occurrence) => o.event.title }
  function ToSeverity(): Occurrence -> Severity { (o: Occurrence) => o.event.severity }

  function ToRunId(): Occurrence -> string { (o: Occurrence) => o.event.runId }
  function ToDevice(): Occurrence -> string { (o: Occurrence) => o.event.deviceId }
  function ToScenario(): Occurrence -> string { (o: Occurrence) => o.event.scenario }
  function ToVersion(): Occurrence -> string { (o: Occurrence) => o.versionKey }
  function ToPackage(): Occurrence -> string { (o: Occurrence) => o.event.package }

  function EmptyGroup(fingerprint: IssueFingerprint, issueType: string): Group {
    Group(fingerprint, issueType, [], multiset{}, multiset{}, {}, {}, {}, {}, {}, None, None)
  }

  /** A group with one more member. */
  function Extended(g: Group, o: Occurrence): Group {
    Group(g.fingerprint, g.issueType, g.events + [o.event],
          g.titles + multiset{o.event.title}, g.severities + multiset{o.event.severity},
          g.runIds + {o.event.runId}, g.devices + {o.event.deviceId}, g.scenarios + {o.event.scenario},
          if o.versionKey != "" then g.versions + {o.versionKey} else g.versions,
          if o.event.package != "" then g.packages + {o.event.package} else g.packages,
          MinTime(g.firstSeen, o.event.detectedAt), MaxTime(g.lastSeen, o.event.detectedAt))
  }

  function GroupOf(fingerprint: IssueFingerprint, issueType: string, ms: seq<Occurrence>): Group {
    if ms == [] then EmptyGroup(fingerprint, issueType)
    else Extended(GroupOf(fingerprint, issueType, Init(ms)), Last(ms))
  }

  /** Read as a whole, a group records its members: the events in order, the counters as
      multisets, the seen times as extremes ... */
  lemma {:induction false} GroupRecordsItsMembers(fingerprint: IssueFingerprint, issueType: string, ms: seq<Occurrence>)
    ensures var g := GroupOf(fingerprint, issueType, ms);
      && g.fingerprint == fingerprint && g.issueType == issueType
      && g.events == Map(ms, ToEvent())
      && g.titles == multiset(Map(ms, ToTitle()))
      && g.severities == multiset(Map(ms, ToSeverity()))
      && g.firstSeen == FirstSeen(ms)
      && g.lastSeen == LastSeen(ms)
  {
    if ms != [] {
      var rest, o := Init(ms), Last(ms);
      assert ms == rest + [o];
      GroupRecordsItsMembers(fingerprint, issueType, rest);
      MapSnoc(rest, o, ToEvent());
      MapSnoc(rest, o, ToTitle());
      MapSnoc(rest, o, ToSeverity());
    }
  }

  /** ... and the affected runs, devices, scenarios, versions and packages as sets. */
  lemma {:induction false} GroupSpansItsMembers(fingerprint: IssueFingerprint, issueType: string, ms: seq<Occurrence>)
    ensures var g := GroupOf(fingerprint, issueType, ms);
      && g.runIds == Elements(Map(ms, ToRunId()))
      && g.devices == Elements(Map(ms, ToDevice()))
      && g.scenarios == Elements(Map(ms, ToScenario()))
      && g.versions == Elements(Map(ms, ToVersion())) - {""}
      && g.packages == Elements(Map(ms, ToPackage())) - {""}
  {
    if ms != [] {
      var rest, o := Init(ms), Last(ms);
      assert ms == rest + [o];
      GroupSpansItsMembers(fingerprint, issueType, rest);
      MapSnoc(rest, o, ToRunId());
      MapSnoc(rest, o, ToDevice());
      MapSnoc(rest, o, ToScenario());
      MapSnoc(rest, o, ToVersion());
      MapSnoc(rest, o, ToPackage());
      WithoutBlank(Elements(Map(rest, ToVersion())), o.versionKey);
      WithoutBlank(Elements(Map(rest, ToPackage())), o.event.package);
    }
  }

  lemma WithoutBlank(names: set<string>, name: string)
    ensures names + {name} - {""} == if name != "" then (names - {""}) + {name} else names - {""}
  {
  }

  /** The group a list of visible occurrences makes: its identity is that of its first member. */
  function GroupFrom(rules: Rules, ms: seq<Occurrence>): Option<Group>
    requires forall m :: m in ms ==> Governed(rules, m.fingerprint).Some?
  {
    if ms == [] then None
    else
      assert ms[0] in ms;
      Some(GroupOf(Governed(rules, ms[0].fingerprint).value, ms[0].event.issueType, ms))
  }

  /** The group for one governed fingerprint, if any visible issue has it. */
  function GroupFor(rules: Rules, occs: seq<Occurrence>, v: Fp): Option<Group> {
    VisibleMeansGoverned(rules);
    GroupFrom(rules, GroupMembers(rules, occs, v))
  }

  lemma VisibleMeansGoverned(rules: Rules)
    ensures forall o: Occurrence {:trigger IsVisible(rules)(o)} {:trigger Governed(rules, o.fingerprint)} ::
      && (IsVisible(rules)(o) <==> Governed(rules, o.fingerprint).Some?)
      && (IsVisible(rules)(o) ==> Governed(rules, o.fingerprint).value.value == GovernedKey(rules)(o))
  {
    forall o: Occurrence
      ensures IsVisible(rules)(o) <==> Governed(rules, o.fingerprint).Some?
      ensures IsVisible(rules)(o) ==> Governed(rules, o.fingerprint).value.value == GovernedKey(rules)(o)
    {
      GovernedValue(rules, o.fingerprint);
    }
  }

  lemma {:induction false} SeenTimesAreExtremes(ms: seq<Occurrence>)
    ensures FirstSeen(ms) == None <==> forall o :: o in ms ==> o.event.detectedAt == None
    ensures LastSeen(ms) == None <==> forall o :: o in ms ==> o.event.detectedAt == None
    ensures FirstSeen(ms).Some? ==>
      && (exists o :: o in ms && o.event.detectedAt == FirstSeen(ms))
      && (forall o :: o in ms && o.event.detectedAt.Some? ==> FirstSeen(ms).value <= o.event.detectedAt.value)
    ensures LastSeen(ms).Some? ==>
      && (exists o :: o in ms && o.event.detectedAt == LastSeen(ms))
      && (forall o :: o in ms && o.event.detectedAt.Some? ==> o.event.detectedAt.value <= LastSeen(ms).value)
  {
    if ms != [] {
      assert ms == Init(ms) + [Last(ms)];
      SeenTimesAreExtremes(Init(ms));
      assert Last(ms) in ms;
    }
  }

  /** Every selected issue that is not suppressed is in exactly one group, and the group sizes
      add up to the number of such issues. */
  lemma GroupsPartitionVisibleIssues(rules: Rules, occs: seq<Occurrence>)
    ensures forall o :: o in occs && IsVisible(rules)(o) ==>
      forall v :: o in GroupMembers(rules, occs, v) <==> v == GovernedKey(rules)(o)
    ensures forall o :: o in occs && IsVisible(rules)(o) ==> GovernedKey(rules)(o) in GroupOrder(rules, occs)
    ensures GroupTotals(Visible(rules, occs), GovernedKey(rules), One(), GroupOrder(rules, occs))
         == |Visible(rules, occs)|
  {
    GroupingConservesTotals(Visible(rules, occs), GovernedKey(rules), One(), GroupOrder(rules, occs));
    TotalOfOnes(Visible(rules, occs));
  }

  // ---------------------------------------------------------------------------------
  // The one-pass implementation over mutable buckets.
  // ---------------------------------------------------------------------------------

  lemma GroupOfMore(fingerprint: IssueFingerprint, issueType: string, ms: seq<Occurrence>, o: Occurrence)
    ensures GroupOf(fingerprint, issueType, ms + [o]) == Extended(GroupOf(fingerprint, issueType, ms), o)
  {
    assert Init(ms + [o]) == ms;
  }

  lemma GroupFromMore(rules: Rules, ms: seq<Occurrence>, o: Occurrence)
    requires forall m :: m in ms + [o] ==> Governed(rules, m.fingerprint).Some?
    ensures forall m :: m in ms ==> m in ms + [o]
    ensures GroupFrom(rules, ms + [o]) == Some(Extended(
      if ms != [] then GroupFrom(rules, ms).value
      else EmptyGroup(Governed(rules, o.fingerprint).value, o.event.issueType), o))
  {
    var first := (ms + [o])[0];
    assert first in ms + [o];
    GroupOfMore(Governed(rules, first.fingerprint).value, first.event.issueType, ms, o);
  }

  lemma OneMoreMember(rules: Rules, occs: seq<Occurrence>, o: Occurrence)
    ensures !IsVisible(rules)(o) ==> Visible(rules, occs + [o]) == Visible(rules, occs)
    ensures IsVisible(rules)(o) ==>
      var v, order := GovernedKey(rules)(o), GroupOrder(rules, occs);
      && GroupOrder(rules, occs + [o]) == (if v in order then order else order + [v])
      && (v in order <==> GroupMembers(rules, occs, v) != [])
      && (forall u :: u != v ==> GroupMembers(rules, occs + [o], u) == GroupMembers(rules, occs, u))
      && GroupMembers(rules, occs + [o], v) == GroupMembers(rules, occs, v) + [o]
  {
    hide Filter, Keys, Members, IsVisible, GovernedKey;
    FilterSnoc(occs, o, IsVisible(rules));
    OneMoreInGroup(Visible(rules, occs), o, GovernedKey(rules));
  }

  /** What one more issue does to the groups: nothing if it is suppressed, otherwise it extends
      the group of its governed fingerprint, which it may open. */
  lemma OneMoreIssue(rules: Rules, occs: seq<Occurrence>, o: Occurrence)
    ensures !IsVisible(rules)(o) ==>
      && GroupOrder(rules, occs + [o]) == GroupOrder(rules, occs)
      && forall v :: GroupFor(rules, occs + [o], v) == GroupFor(rules, occs, v)
    ensures IsVisible(rules)(o) ==>
      var v, order := GovernedKey(rules)(o), GroupOrder(rules, occs);
      && Governed(rules, o.fingerprint).Some?
      && GroupOrder(rules, occs + [o]) == (if v in order then order else order + [v])
      && (v in order <==> GroupFor(rules, occs, v).Some?)
      && (forall u :: u != v ==> GroupFor(rules, occs + [o], u) == GroupFor(rules, occs, u))
      && GroupFor(rules, occs + [o], v) == Some(Extended(
           if v in order then GroupFor(rules, occs, v).value
           else EmptyGroup(Governed(rules, o.fingerprint).value, o.event.issueType), o))
  {
    hide Extended, EmptyGroup, Members, Filter, Keys;
    VisibleMeansGoverned(rules);
    OneMoreMember(rules, occs, o);
    if IsVisible(rules)(o) {
      GroupFromMore(rules, GroupMembers(rules, occs, GovernedKey(rules)(o)), o);
    }
  }

  class AggregateBucket {
    const fingerprint: IssueFingerprint
    const issueType: string
    var events: seq<Event>
    var titleCounter: multiset<string>
    var severityCounter: multiset<Severity>
    var runIds: set<string>
    var devices: set<string>
    var scenarios: set<string>
    var versions: set<string>
    var packages: set<string>
    var firstSeenAt: Option<Time>
    var lastSeenAt: Option<Time>

    function View(): Group
      reads this
    {
      Group(fingerprint, issueType, events, titleCounter, severityCounter,
            runIds, devices, scenarios, versions, packages, firstSeenAt, lastSeenAt)
    }

    constructor (fingerprint: IssueFingerprint, issueType: string)
      ensures View() == EmptyGroup(fingerprint, issueType)
      ensures this.fingerprint == fingerprint && this.issueType == issueType
    {
      this.fingerprint, this.issueType := fingerprint, issueType;
      events, titleCounter, severityCounter := [], multiset{}, multiset{};
      runIds, devices, scenarios, versions, packages := {}, {}, {}, {}, {};
      firstSeenAt, lastSeenAt := None, None;
    }

    method Add(o: Occurrence)
      modifies this
      ensures View() == Extended(old(View()), o)
    {
      Count(o);
      Spread(o);
      Touch(o.event.detectedAt);
    }

    method Count(o: Occurrence)
      modifies `events, `titleCounter, `severityCounter
      ensures events == old(events) + [o.event]
      ensures titleCounter == old(titleCounter) + multiset{o.event.title}
      ensures severityCounter == old(severityCounter) + multiset{o.event.severity}
    {
      events := events + [o.event];
      titleCounter := titleCounter + multiset{o.event.title};
      severityCounter := severityCounter + multiset{o.event.severity};
    }

    method Spread(o: Occurrence)
      modifies `runIds, `devices, `scenarios, `versions, `packages
      ensures runIds == old(runIds) + {o.event.runId}
      ensures devices == old(devices) + {o.event.deviceId}
      ensures scenarios == old(scenarios) + {o.event.scenario}
      ensures packages == if o.event.package != "" then old(packages) + {o.event.package} else old(packages)
      ensures versions == if o.versionKey != "" then old(versions) + {o.versionKey} else old(versions)
    {
      runIds := runIds + {o.event.runId};
      devices := devices + {o.event.deviceId};
      scenarios := scenarios + {o.event.scenario};
      if o.event.package != "" {
        packages := packages + {o.event.package};
      }
      if o.versionKey != "" {
        versions := versions + {o.versionKey};
      }
    }

    method Touch(detectedAt: Option<Time>)
      modifies `firstSeenAt, `lastSeenAt
      ensures firstSeenAt == MinTime(old(firstSeenAt), detectedAt)
      ensures lastSeenAt == MaxTime(old(lastSeenAt), detectedAt)
    {
      if firstSeenAt == None || (detectedAt.Some? && detectedAt.value < firstSeenAt.value) {
        firstSeenAt := detectedAt;
      }
      if lastSeenAt == None || (detectedAt.Some? && detectedAt.value > lastSeenAt.value) {
        lastSeenAt := detectedAt;
      }
    }
  }

  ghost function Contents(grouped: map<Fp, AggregateBucket>): map<Fp, Group>
    reads grouped.Values
  {
    map v | v in grouped :: grouped[v].View()
  }

  /** `grouped` maps different keys to different buckets, all of them in the pool. */
  ghost predicate Owns(pool: set<AggregateBucket>, grouped: map<Fp, AggregateBucket>) {
    && (forall v :: v in grouped ==> grouped[v] in pool)
    && (forall u, v :: u in grouped && v in grouped && u != v ==> grouped[u] != grouped[v])
  }

  lemma UpdateTwice(groups: map<Fp, Group>, v: Fp, g: Group, g': Group)
    ensures groups[v := g][v := g'] == groups[v := g']
  {
  }

  method SetDefault(grouped: map<Fp, AggregateBucket>, v: Fp, fingerprint: IssueFingerprint, issueType: string,
                    ghost pool: set<AggregateBucket>)
    returns (grouped': map<Fp, AggregateBucket>, ghost pool': set<AggregateBucket>)
    requires Owns(pool, grouped)
    ensures Owns(pool', grouped') && pool <= pool' && fresh(pool' - pool)
    ensures v in grouped'
    ensures Contents(grouped')
        == if v in grouped then Contents(grouped) else Contents(grouped)[v := EmptyGroup(fingerprint, issueType)]
  {
    grouped', pool' := grouped, pool;
    if v !in grouped {
      var bucket := new AggregateBucket(fingerprint, issueType);
      grouped', pool' := grouped[v := bucket], pool + {bucket};
    }
  }

  method UpdateBucket(grouped: map<Fp, AggregateBucket>, v: Fp, o: Occurrence, ghost pool: set<AggregateBucket>)
    requires Owns(pool, grouped) && v in grouped
    modifies grouped[v]
    ensures Contents(grouped) == old(Contents(grouped))[v := Extended(old(Contents(grouped))[v], o)]
  {
    hide AggregateBucket.View, Extended;
    ghost var before := Contents(grouped);
    grouped[v].Add(o);
    assert Contents(grouped).Keys == before.Keys;
    assert Contents(grouped)[v] == Extended(before[v], o);
  }

  /** `setdefault` followed by the updates of one bucket. */
  method AddToBucket(grouped: map<Fp, AggregateBucket>, v: Fp, fingerprint: IssueFingerprint, o: Occurrence,
                     ghost pool: set<AggregateBucket>)
    returns (grouped': map<Fp, AggregateBucket>, ghost pool': set<AggregateBucket>)
    requires Owns(pool, grouped)
    modifies pool
    ensures Owns(pool', grouped') && pool <= pool' && fresh(pool' - pool)
    ensures Contents(grouped') == old(Contents(grouped))[v := Extended(
      if v in grouped then old(Contents(grouped))[v] else EmptyGroup(fingerprint, o.event.issueType), o)]
  {
    hide Extended, EmptyGroup;
    ghost var before := Contents(grouped);
    ghost var empty := EmptyGroup(fingerprint, o.event.issueType);
    grouped', pool' := SetDefault(grouped, v, fingerprint, o.event.issueType, pool);
    UpdateBucket(grouped', v, o, pool');
    if v !in before {
      UpdateTwice(before, v, empty, Extended(empty, o));
    }
  }

  /** How fingerprints are governed, as a value. */
  type Governor = IssueFingerprint -> Option<IssueFingerprint>

  function Governing(rules: Rules): Governor {
    (fp: IssueFingerprint) => Governed(rules, fp)
  }

  /** An insertion-ordered dictionary of groups. */
  datatype GroupTable = GroupTable(order: seq<Fp>, groups: map<Fp, Group>)

  /** What one more issue does to the dictionary. */
  function TableStep(govern: Governor, t: GroupTable, o: Occurrence): GroupTable {
    match govern(o.fingerprint)
    case None => t
    case Some(g) =>
      if g.value in t.groups then
        t.(groups := t.groups[g.value := Extended(t.groups[g.value], o)])
      else
        GroupTable(t.order + [g.value], t.groups[g.value := Extended(EmptyGroup(g, o.event.issueType), o)])
  }

  function TableOf(govern: Governor, occs: seq<Occurrence>): GroupTable {
    if occs == [] then GroupTable([], map[]) else TableStep(govern, TableOf(govern, Init(occs)), Last(occs))
  }

  lemma TableOfMore(govern: Governor, occs: seq<Occurrence>, o: Occurrence)
    ensures TableOf(govern, occs + [o]) == TableStep(govern, TableOf(govern, occs), o)
  {
    assert Init(occs + [o]) == occs;
  }

  function GroupSpec(rules: Rules, occs: seq<Occurrence>): Fp -> Option<Group> {
    (v: Fp) => GroupFor(rules, occs, v)
  }

  /** A dictionary with these keys and exactly these entries. */
  ghost predicate Tabulates(t: GroupTable, spec: Fp -> Option<Group>) {
    && (forall v :: v in t.groups <==> v in t.order)
    && (forall v :: v in t.groups ==> spec(v) == Some(t.groups[v]))
    && (forall v :: v !in t.groups ==> spec(v) == None)
  }

  lemma TabulatesAfterUpdate(t: GroupTable, spec: Fp -> Option<Group>, spec': Fp -> Option<Group>, v: Fp, g: Group)
    requires Tabulates(t, spec)
    requires forall u :: u != v ==> spec'(u) == spec(u)
    requires spec'(v) == Some(g)
    ensures Tabulates(GroupTable(if v in t.order then t.order else t.order + [v], t.groups[v := g]), spec')
  {
  }

  /** Running the pass issue by issue computes the declarative filter-then-group-by. */
  lemma {:induction false} TableIsGroupBy(rules: Rules, occs: seq<Occurrence>)
    ensures TableOf(Governing(rules), occs).order == GroupOrder(rules, occs)
    ensures Tabulates(TableOf(Governing(rules), occs), GroupSpec(rules, occs))
  {
    if occs != [] {
      var rest, o := Init(occs), Last(occs);
      assert occs == rest + [o];
      TableIsGroupBy(rules, rest);
      TableStepIsGroupBy(rules, rest, o);
    }
  }

  lemma TableStepIsGroupBy(rules: Rules, occs: seq<Occurrence>, o: Occurrence)
    requires TableOf(Governing(rules), occs).order == GroupOrder(rules, occs)
    requires Tabulates(TableOf(Governing(rules), occs), GroupSpec(rules, occs))
    ensures var t := TableStep(Governing(rules), TableOf(Governing(rules), occs), o);
      && t.order == GroupOrder(rules, occs + [o])
      && Tabulates(t, GroupSpec(rules, occs + [o]))
  {
    hide Extended, EmptyGroup, GroupFor, TableOf, GroupOrder;
    var t := TableOf(Governing(rules), occs);
    GovernedValue(rules, o.fingerprint);
    OneMoreIssue(rules, occs, o);
    if IsVisible(rules)(o) {
      var v := Governed(rules, o.fingerprint).value.value;
      assert GroupSpec(rules, occs)(v) == GroupFor(rules, occs, v);
      TabulatesAfterUpdate(t, GroupSpec(rules, occs), GroupSpec(rules, occs + [o]),
                           v, GroupFor(rules, occs + [o], v).value);
    }
  }

  lemma WithoutRulesNothingChanges(fp: IssueFingerprint)
    ensures Governed(map[], fp) == Some(fp)
  {
    WalkFromIsWalk(map[], fp.value, {});
  }

  /** `govern` is what the governance service does; without a service nothing changes. */
  ghost predicate Applies(governance: IssueFingerprintGovernanceService?, govern: Governor)
    reads governance
  {
    govern == Governing(if governance == null then map[] else governance.rules)
  }

  /** Govern one issue and put it where it belongs. */
  method Land(grouped: map<Fp, AggregateBucket>, order: seq<Fp>, governance: IssueFingerprintGovernanceService?,
              o: Occurrence, ghost govern: Governor, ghost pool: set<AggregateBucket>)
    returns (grouped': map<Fp, AggregateBucket>, order': seq<Fp>, ghost pool': set<AggregateBucket>)
    requires Applies(governance, govern)
    requires o.fingerprint.value != ""
    requires Owns(pool, grouped)
    modifies pool
    ensures Owns(pool', grouped') && pool <= pool' && fresh(pool' - pool)
    ensures GroupTable(order', Contents(grouped')) == TableStep(govern, GroupTable(order, old(Contents(grouped))), o)
  {
    WithoutRulesNothingChanges(o.fingerprint);
    var governed := Some(o.fingerprint);
    if governance != null {
      var r := governance.ResolveFingerprint(o.fingerprint);
      governed := r.value;
    }
    if governed == None {
      return grouped, order, pool;
    }
    var v := governed.value.value;
    grouped', pool' := AddToBucket(grouped, v, governed.value, o, pool);
    order' := if v in grouped then order else order + [v];
  }

  /** One issue of the scan. */
  method ScanIssue(q: Query, cfg: RuleConfig, governance: IssueFingerprintGovernanceService?,
                   run: Run, task: Option<Task>, inst: Instance, issue: Issue,
                   grouped0: map<Fp, AggregateBucket>, order0: seq<Fp>,
                   ghost govern: Governor, ghost occs: seq<Occurrence>, ghost pool0: set<AggregateBucket>)
    returns (grouped: map<Fp, AggregateBucket>, order: seq<Fp>, ghost pool: set<AggregateBucket>)
    requires Applies(governance, govern) && Owns(pool0, grouped0)
    requires GroupTable(order0, Contents(grouped0)) == TableOf(govern, occs)
    modifies pool0
    ensures Owns(pool, grouped) && pool0 <= pool && fresh(pool - pool0)
    ensures GroupTable(order, Contents(grouped)) == TableOf(govern, WithIssue(q, cfg, run, task, inst, occs, issue))
  {
    grouped, order, pool := grouped0, order0, pool0;
    if IssueMatches(q, issue) {
      var o := Occur(cfg, run, task, inst, issue);
      TableOfMore(govern, occs, o);
      grouped, order, pool := Land(grouped, order, governance, o, govern, pool);
    }
  }

  /** The innermost loop of the scan: the issues of one instance. */
  method ScanInstance(q: Query, cfg: RuleConfig, governance: IssueFingerprintGovernanceService?,
                      run: Run, task: Option<Task>, inst: Instance,
                      grouped0: map<Fp, AggregateBucket>, order0: seq<Fp>,
                      ghost govern: Governor, ghost occs: seq<Occurrence>, ghost pool0: set<AggregateBucket>)
    returns (grouped: map<Fp, AggregateBucket>, order: seq<Fp>, ghost pool: set<AggregateBucket>)
    requires Applies(governance, govern) && Owns(pool0, grouped0)
    requires GroupTable(order0, Contents(grouped0)) == TableOf(govern, occs)
    modifies pool0
    ensures Owns(pool, grouped) && pool0 <= pool && fresh(pool - pool0)
    ensures GroupTable(order, Contents(grouped))
         == TableOf(govern, IssueOccurrences(q, cfg, run, task, inst, occs, |inst.issues|))
  {
    hide TableOf, WithIssue;
    grouped, order, pool := grouped0, order0, pool0;
    for i := 0 to |inst.issues|
      invariant Owns(pool, grouped) && pool0 <= pool && fresh(pool - pool0) && Applies(governance, govern)
      invariant GroupTable(order, Contents(grouped))
          == TableOf(govern, IssueOccurrences(q, cfg, run, task, inst, occs, i))
    {
      ghost var seen := IssueOccurrences(q, cfg, run, task, inst, occs, i);
      grouped, order, pool := ScanIssue(q, cfg, governance, run, task, inst, inst.issues[i], grouped, order, govern,
          seen, pool);
    }
  }

  /** The middle loop of the scan: the instances of one run. */
  method ScanRun(q: Query, cfg: RuleConfig, governance: IssueFingerprintGovernanceService?,
                 run: Run, task: Option<Task>, insts: seq<Instance>,
                 grouped0: map<Fp, AggregateBucket>, order0: seq<Fp>,
                 ghost govern: Governor, ghost occs: seq<Occurrence>, ghost pool0: set<AggregateBucket>)
    returns (grouped: map<Fp, AggregateBucket>, order: seq<Fp>, ghost pool: set<AggregateBucket>)
    requires Applies(governance, govern) && Owns(pool0, grouped0)
    requires GroupTable(order0, Contents(grouped0)) == TableOf(govern, occs)
    modifies pool0
    ensures Owns(pool, grouped) && pool0 <= pool && fresh(pool - pool0)
    ensures GroupTable(order, Contents(grouped))
         == TableOf(govern, InstanceOccurrences(q, cfg, run, task, insts, occs, |insts|))
  {
    hide TableOf, IssueOccurrences;
    grouped, order, pool := grouped0, order0, pool0;
    for j := 0 to |insts|
      invariant Owns(pool, grouped) && pool0 <= pool && fresh(pool - pool0) && Applies(governance, govern)
      invariant GroupTable(order, Contents(grouped))
          == TableOf(govern, InstanceOccurrences(q, cfg, run, task, insts, occs, j))
    {
      ghost var seen := InstanceOccurrences(q, cfg, run, task, insts, occs, j);
      if InstanceMatches(q, insts[j]) {
        grouped, order, pool := ScanInstance(q, cfg, governance, run, task, insts[j], grouped, order, govern, seen,
            pool);
      }
    }
  }

  /** One pass over all runs. The buckets it returns are the groups of the selected issues, in
      order of first appearance, whatever the cache of task lookups holds on the way. */
  method CollectGroups(q: Query, cfg: RuleConfig, governance: IssueFingerprintGovernanceService?,
                       repo: Repository, runs: seq<Run>)
    returns (grouped: map<Fp, AggregateBucket>, order: seq<Fp>)
    ensures var rules := if governance == null then map[] else governance.rules;
      var occs := Occurrences(q, cfg, repo, runs);
      && order == GroupOrder(rules, occs)
      && Tabulates(GroupTable(order, Contents(grouped)), GroupSpec(rules, occs))
  {
    ghost var rules := if governance == null then map[] else governance.rules;
    ghost var govern := Governing(rules);
    ghost var pool := {};
    grouped, order := map[], [];
    var taskCache: map<string, Option<Task>> := map[];
    for k := 0 to |runs|
      invariant Owns(pool, grouped) && fresh(pool) && Applies(governance, govern)
      invariant GroupTable(order, Contents(grouped)) == TableOf(govern, RunOccurrences(q, cfg, repo, runs, k))
      invariant forall id :: id in taskCache ==> taskCache[id] == repo.GetTask(id)
    {
      var run := runs[k];
      if !RunMatches(q, run) {
        continue;
      }
      if run.taskId !in taskCache {
        taskCache := taskCache[run.taskId := repo.GetTask(run.taskId)];
      }
      var task := taskCache[run.taskId];
      if !TaskMatches(q, task) {
        continue;
      }
      ghost var seen := RunOccurrences(q, cfg, repo, runs, k);
      grouped, order, pool := ScanRun(q, cfg, governance, run, task, repo.ListByRun(run.id), grouped, order, govern,
          seen, pool);
    }
    TableIsGroupBy(rules, Occurrences(q, cfg, repo, runs));
  }

  // ---------------------------------------------------------------------------------
  // Aliasing one fingerprint to another merges their groups and nothing else.
  // ---------------------------------------------------------------------------------

  ghost predicate AliasesShortEnough(rules: Rules, a: Fp, occs: seq<Occurrence>) {
    forall o :: o in occs && FullWalk(rules, o.fingerprint.value).Last() == a ==>
      FullWalk(rules, o.fingerprint.value).Hops() < MAX_HOPS
  }

  lemma AliasRedirectsKeys(rules: Rules, a: Fp, b: Fp, rule: Rule, occs: seq<Occurrence>)
    requires a !in rules && b !in rules && a != b && b != ""
    requires rule.action == Alias && rule.canonical == b
    requires AliasesShortEnough(rules, a, occs)
    ensures Visible(rules[a := rule], occs) == Visible(rules, occs)
    ensures Redirects(Visible(rules, occs), GovernedKey(rules), GovernedKey(rules[a := rule]), a, b)
  {
    forall o | o in occs
      ensures IsVisible(rules[a := rule])(o) == IsVisible(rules)(o)
      ensures IsVisible(rules)(o) ==>
        GovernedKey(rules[a := rule])(o) == if GovernedKey(rules)(o) == a then b else GovernedKey(rules)(o)
    {
      AliasRedirectsExactlyShortWalks(rules, a, b, rule, o.fingerprint.value);
    }
    SameFilter(occs, IsVisible(rules), IsVisible(rules[a := rule]));
  }

  /** A fingerprint that does not end at `a` is governed exactly as before, trace included. */
  lemma AliasLeavesOthersGoverned(rules: Rules, a: Fp, b: Fp, rule: Rule, fp: IssueFingerprint)
    requires a !in rules && b !in rules && a != b && b != ""
    requires rule.action == Alias && rule.canonical == b
    requires FullWalk(rules, fp.value).Last() != a
    ensures Governed(rules[a := rule], fp) == Governed(rules, fp)
  {
    var w := FullWalk(rules, fp.value);
    AliasExtendsWalks(rules, a, b, rule, fp.value);
    AppliedNodesHaveRules(rules, fp.value);
    var nodes := Applied(rules, w);
    assert Applied(rules[a := rule], w) == nodes;
    assert forall x :: x in nodes ==> x != a;
    assert RulesAt(rules[a := rule], nodes) == RulesAt(rules, nodes);
  }

  /** `z` holds exactly what `x` and `y` hold together. */
  ghost predicate Merges(x: Group, y: Group, z: Group) {
    && multiset(z.events) == multiset(x.events) + multiset(y.events)
    && z.titles == x.titles + y.titles
    && z.severities == x.severities + y.severities
    && z.runIds == x.runIds + y.runIds
    && z.devices == x.devices + y.devices
    && z.scenarios == x.scenarios + y.scenarios
    && z.versions == x.versions + y.versions
    && z.packages == x.packages + y.packages
    && z.firstSeen == MinTime(x.firstSeen, y.firstSeen)
    && z.lastSeen == MaxTime(x.lastSeen, y.lastSeen)
  }

  lemma MergesIsSymmetric(x: Group, y: Group, z: Group)
    requires Merges(x, y, z)
    ensures Merges(y, x, z)
  {
  }

  lemma ExtendingKeepsMerge(x: Group, y: Group, z: Group, o: Occurrence)
    requires Merges(x, y, z)
    ensures Merges(Extended(x, o), y, Extended(z, o))
  {
    var x', z' := Extended(x, o), Extended(z, o);
    assert multiset(z'.events) == multiset(x'.events) + multiset(y.events);
    assert z'.versions == x'.versions + y.versions;
    assert z'.packages == x'.packages + y.packages;
  }

  /** The identity carried by a group: whose fingerprint, and which issue type. */
  datatype Identity = Identity(fingerprint: IssueFingerprint, issueType: string)

  function KeyedGroup(rows: seq<Occurrence>, key: Occurrence -> Fp, k: Fp, i: Identity): Group {
    GroupOf(i.fingerprint, i.issueType, Members(rows, key, k))
  }

  lemma KeyedGroupOfMore(rows: seq<Occurrence>, key: Occurrence -> Fp, k: Fp, i: Identity)
    requires rows != []
    ensures KeyedGroup(rows, key, k, i)
         == if key(Last(rows)) == k then Extended(KeyedGroup(Init(rows), key, k, i), Last(rows))
            else KeyedGroup(Init(rows), key, k, i)
  {
    GroupOfMore(i.fingerprint, i.issueType, Members(Init(rows), key, k), Last(rows));
  }

  lemma {:induction false} RedirectMergesParts(
    rows: seq<Occurrence>, key: Occurrence -> Fp, key': Occurrence -> Fp, a: Fp, b: Fp,
    ix: Identity, iy: Identity, iz: Identity)
    requires Redirects(rows, key, key', a, b) && a != b
    ensures Merges(KeyedGroup(rows, key, a, ix), KeyedGroup(rows, key, b, iy), KeyedGroup(rows, key', b, iz))
    decreases |rows|
  {
    if rows != [] {
      assert rows == Init(rows) + [Last(rows)];
      RedirectMergesParts(Init(rows), key, key', a, b, ix, iy, iz);
      KeyedGroupOfMore(rows, key, a, ix);
      KeyedGroupOfMore(rows, key, b, iy);
      KeyedGroupOfMore(rows, key', b, iz);
      MergeStep(KeyedGroup(Init(rows), key, a, ix), KeyedGroup(Init(rows), key, b, iy),
                KeyedGroup(Init(rows), key', b, iz), Last(rows));
    }
  }

  lemma MergeStep(x: Group, y: Group, z: Group, o: Occurrence)
    requires Merges(x, y, z)
    ensures Merges(Extended(x, o), y, Extended(z, o))
    ensures Merges(x, Extended(y, o), Extended(z, o))
  {
    ExtendingKeepsMerge(x, y, z, o);
    MergesIsSymmetric(x, y, z);
    ExtendingKeepsMerge(y, x, z, o);
    MergesIsSymmetric(Extended(y, o), x, Extended(z, o));
  }

  /** No group stands for a group with no members. */
  function Entry(g: Option<Group>): Group {
    match g
    case Some(group) => group
    case None => EmptyGroup(IssueFingerprint("", "", Components("", "", "", "", "", ""), None), "")
  }

  lemma EntryIsGroupOf(rules: Rules, ms: seq<Occurrence>) returns (i: Identity)
    requires forall m :: m in ms ==> Governed(rules, m.fingerprint).Some?
    ensures Entry(GroupFrom(rules, ms)) == GroupOf(i.fingerprint, i.issueType, ms)
  {
    var g := Entry(GroupFrom(rules, ms));
    i := Identity(g.fingerprint, g.issueType);
    if ms != [] {
      assert ms[0] in ms;
      i := Identity(Governed(rules, ms[0].fingerprint).value, ms[0].event.issueType);
    }
  }

  lemma AliasMovesMembers(rules: Rules, a: Fp, b: Fp, rule: Rule, occs: seq<Occurrence>)
    requires a !in rules && b !in rules && a != b && b != ""
    requires rule.action == Alias && rule.canonical == b
    requires AliasesShortEnough(rules, a, occs)
    ensures Merges(Entry(GroupFor(rules, occs, a)), Entry(GroupFor(rules, occs, b)),
        Entry(GroupFor(rules[a := rule], occs, b)))
  {
    var rules' := rules[a := rule];
    AliasRedirectsKeys(rules, a, b, rule, occs);
    VisibleMeansGoverned(rules);
    VisibleMeansGoverned(rules');
    var ix := EntryIsGroupOf(rules, GroupMembers(rules, occs, a));
    var iy := EntryIsGroupOf(rules, GroupMembers(rules, occs, b));
    var iz := EntryIsGroupOf(rules', GroupMembers(rules', occs, b));
    RedirectMergesParts(Visible(rules, occs), GovernedKey(rules), GovernedKey(rules'), a, b, ix, iy, iz);
  }

  /** A group is made from its members and the governed fingerprint of the first one. */
  lemma SameGroup(rules: Rules, rules': Rules, occs: seq<Occurrence>, v: Fp)
    requires GroupMembers(rules', occs, v) == GroupMembers(rules, occs, v)
    requires forall m :: m in GroupMembers(rules, occs, v) ==>
        Governed(rules', m.fingerprint) == Governed(rules, m.fingerprint)
    ensures GroupFor(rules', occs, v) == GroupFor(rules, occs, v)
  {
    var ms := GroupMembers(rules, occs, v);
    assert ms != [] ==> ms[0] in ms;
  }

  lemma AliasLeavesOtherGroups(rules: Rules, a: Fp, b: Fp, rule: Rule, occs: seq<Occurrence>, v: Fp)
    requires a !in rules && b !in rules && a != b && b != ""
    requires rule.action == Alias && rule.canonical == b
    requires AliasesShortEnough(rules, a, occs)
    ensures v == a ==> GroupFor(rules[a := rule], occs, v) == None
    ensures v != a && v != b ==> GroupFor(rules[a := rule], occs, v) == GroupFor(rules, occs, v)
  {
    hide GroupFrom, Governed;
    var rules' := rules[a := rule];
    AliasRedirectsKeys(rules, a, b, rule, occs);
    RedirectMergesGroups(Visible(rules, occs), GovernedKey(rules), GovernedKey(rules'), a, b, ToEvent());
    if v == a {
      EmptyGroupIsNone(rules', occs, a);
    } else if v != b {
      forall m | m in GroupMembers(rules, occs, v)
        ensures Governed(rules', m.fingerprint) == Governed(rules, m.fingerprint)
      {
        MembersEndElsewhere(rules, a, b, occs, v, m);
        AliasLeavesOthersGoverned(rules, a, b, rule, m.fingerprint);
      }
      SameGroup(rules, rules', occs, v);
    }
  }

  lemma EmptyGroupIsNone(rules: Rules, occs: seq<Occurrence>, v: Fp)
    requires GroupMembers(rules, occs, v) == []
    ensures GroupFor(rules, occs, v) == None
  {
  }

  /** With aliases short enough, a member of another group did not walk to `a`. */
  lemma MembersEndElsewhere(rules: Rules, a: Fp, b: Fp, occs: seq<Occurrence>, v: Fp, m: Occurrence)
    requires a !in rules && AliasesShortEnough(rules, a, occs) && v != a
    requires m in GroupMembers(rules, occs, v)
    ensures FullWalk(rules, m.fingerprint.value).Last() != a
  {
    assert m in Visible(rules, occs) && m in occs && GovernedKey(rules)(m) == v;
    GovernedValue(rules, m.fingerprint);
  }

  /** Aliasing `a` to `b`, neither of which has a rule, moves the whole of group `a` into group
      `b`. Every other group stays exactly as it was. */
  lemma AliasMergesGroups(rules: Rules, a: Fp, b: Fp, rule: Rule, occs: seq<Occurrence>)
    requires a !in rules && b !in rules && a != b && b != ""
    requires rule.action == Alias && rule.canonical == b
    requires AliasesShortEnough(rules, a, occs)
    ensures var rules' := rules[a := rule];
      && Merges(Entry(GroupFor(rules, occs, a)), Entry(GroupFor(rules, occs, b)), Entry(GroupFor(rules', occs, b)))
      && GroupFor(rules', occs, a) == None
      && forall v :: v != a && v != b ==> GroupFor(rules', occs, v) == GroupFor(rules, occs, v)
  {
    AliasMovesMembers(rules, a, b, rule, occs);
    forall v | true
      ensures v == a ==> GroupFor(rules[a := rule], occs, v) == None
      ensures v != a && v != b ==> GroupFor(rules[a := rule], occs, v) == GroupFor(rules, occs, v)
    {
      AliasLeavesOtherGroups(rules, a, b, rule, occs, v);
    }
  }
}
