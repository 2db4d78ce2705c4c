/** The admission case of a baseline: gathered from reports and gates, edited by reviewers, and
    kept as a file with an audit trail, a revision counter and an outbox of contract events. */
module AdmissionCase {
  import opened Wrappers
  import opened GroupBy

  datatype Status = Open | Assigned | Reviewing | PendingConfirmation | ApprovedWithRisk | Approved | Rejected

  datatype Person = Person(id: string, name: string)

  datatype Role = Assignee | FinalReviewer

  /** `from` is None for the empty text of a case's first entry. */
  datatype LifecycleEvent = LifecycleEvent(action: string, from: Option<Status>, to: Status, changedBy: string)

  datatype RoleEntry = RoleEntry(role: Role, from: Person, to: Person, changedBy: string)

  datatype Key = Key(caseId: string, baseline: string, reportId: string)

  datatype Team = Team(assignee: Person, reviewer: Person)

  /** What a refresh gathers: the decision and the override of the quality gate, everything else
      the contract shows, and everything else. */
  datatype Gathered = Gathered(decision: string, override: Option<string>, trace: string, rest: string)

  /** The summary published for CI. */
  datatype Contract = Contract(key: Key, revision: int, status: Status, team: Team, decision: string, trace: string)

  datatype Case = Case(
    key: Key,
    status: Status,
    revision: int,
    team: Team,
    updatedBy: string,
    gathered: Gathered,
    lifecycle: seq<LifecycleEvent>,
    roles: seq<RoleEntry>,
    contract: Contract)

  datatype Event = Event(baseline: string, contract: Contract)

  /** The case files by path, the index from baselines to case ids, the published events. */
  datatype State = State(files: map<string, Case>, index: map<string, string>, outbox: seq<Event>)

  datatype Error = MissingKey | NoBaseline | UnsupportedStatus | UnsupportedTransition(from: Status, to: Status)

  datatype Answer = Answer(state: State, result: Result<Case, Error>)

  // ---------------------------------------------------------------------------------
  // The lifecycle.
  // ---------------------------------------------------------------------------------

  /** The status a text stands for; None for an unsupported one. */
  function NormalizeStatus(text: string): Option<Status> {
    match text
    case "" => Some(Open)
    case "new" => Some(Open)
    case "open" => Some(Open)
    case "assigned" => Some(Assigned)
    case "reviewing" => Some(Reviewing)
    case "confirmed" => Some(PendingConfirmation)
    case "pending_confirmation" => Some(PendingConfirmation)
    case "approved_with_risk" => Some(ApprovedWithRisk)
    case "approved" => Some(Approved)
    case "rejected" => Some(Rejected)
    case _ => None
  }

  function AllowedTransitions(from: Status): set<Status> {
    match from
    case Open => {Open, Assigned, Reviewing, PendingConfirmation, Rejected}
    case Assigned => {Assigned, Reviewing, PendingConfirmation, ApprovedWithRisk, Approved, Rejected}
    case Reviewing => {Reviewing, PendingConfirmation, ApprovedWithRisk, Approved, Rejected, Assigned}
    case PendingConfirmation => {PendingConfirmation, ApprovedWithRisk, Approved, Rejected, Reviewing}
    case ApprovedWithRisk => {ApprovedWithRisk, Approved, Rejected, Reviewing}
    case Approved => {Approved, Reviewing, Rejected}
    case Rejected => {Rejected, Reviewing, PendingConfirmation}
  }

  // ---------------------------------------------------------------------------------
  // The store.
  // ---------------------------------------------------------------------------------

  function Safe(text: string): string {
    if text == "" then "" else [if text[0] == '/' then '_' else text[0]] + Safe(text[1..])
  }

  /** The directory of a case. */
  function CasePath(caseId: string): string { Safe(caseId) }

  function ReportOrUnknown(reportId: string): string { if reportId == "" then "unknown" else reportId }

  const PREFIX := "admission_case:"

  function Join(prefix: string, baseline: string, report: string): string {
    prefix + baseline + ":" + report
  }

  function CaseId(baseline: string, reportId: string): string {
    Join(PREFIX, baseline, ReportOrUnknown(reportId))
  }

  /** Reading a case back forgets its override. */
  function Loaded(c: Case): Case { c.(gathered := c.gathered.(override := None)) }

  function LoadRaw(files: map<string, Case>, caseId: string): Option<Case> {
    if CasePath(caseId) in files then Some(files[CasePath(caseId)]) else None
  }

  function LoadCaseForBaseline(s: State, baseline: string): Option<Case> {
    if baseline in s.index && LoadRaw(s.files, s.index[baseline]).Some?
    then Some(Loaded(LoadRaw(s.files, s.index[baseline]).value))
    else None
  }

  function WriteCase(s: State, c: Case): State {
    s.(files := s.files[CasePath(c.key.caseId) := c], index := s.index[c.key.baseline := c.key.caseId])
  }

  /** The payloads agree in everything but the revision and the contract. */
  predicate SameFingerprint(a: Case, b: Case) {
    a.(revision := b.revision, contract := b.contract) == b
  }

  // ---------------------------------------------------------------------------------
  // Persisting and publishing.
  // ---------------------------------------------------------------------------------

  function ContractOf(c: Case, revision: int): Contract {
    Contract(c.key, revision, c.status, c.team, c.gathered.decision, c.gathered.trace)
  }

  function AtLeastOne(n: int): int { if n < 1 then 1 else n }

  function RevisionBefore(previous: Option<Case>): int { if previous.Some? then previous.value.revision else 0 }

  /** Where the payload to compare with is looked up. */
  function PreviousId(candidate: Case, previous: Option<Case>): string {
    if previous.Some? && previous.value.key.caseId != "" then previous.value.key.caseId else candidate.key.caseId
  }

  predicate PayloadChanged(files: map<string, Case>, candidate: Case, previous: Option<Case>) {
    var raw := LoadRaw(files, PreviousId(candidate, previous));
    raw.None? || !SameFingerprint(raw.value, candidate)
  }

  function Persisted(files: map<string, Case>, candidate: Case, previous: Option<Case>): Case {
    var before := RevisionBefore(previous);
    var revision := AtLeastOne(if PayloadChanged(files, candidate, previous) then before + 1 else before);
    candidate.(revision := revision, contract := ContractOf(candidate, revision))
  }

  predicate IsFinal(decision: string) { decision == "pass" || decision == "conditional_pass" || decision == "fail" }

  function Published(outbox: seq<Event>, c: Case, previous: Option<Case>): seq<Event> {
    if !IsFinal(c.gathered.decision) || (previous.Some? && previous.value.contract == c.contract) then outbox
    else outbox + [Event(c.key.baseline, c.contract)]
  }

  function Persist(s: State, candidate: Case, previous: Option<Case>): State {
    var c := Persisted(s.files, candidate, previous);
    WriteCase(s, c).(outbox := Published(s.outbox, c, previous))
  }

  // ---------------------------------------------------------------------------------
  // Refreshing a case.
  // ---------------------------------------------------------------------------------

  /** What the report, gate and audit services answer for a baseline. */
  datatype Inputs = Inputs(reportId: string, updatedBy: string, gathered: Gathered)

  const NOBODY := Person("", "")

  function Refreshed(baseline: string, inputs: Inputs, previous: Option<Case>): Case {
    var key := Key(CaseId(baseline, inputs.reportId), baseline, inputs.reportId);
    var blank := Case(key, Open, 1, Team(NOBODY, NOBODY), inputs.updatedBy, inputs.gathered, [], [],
                      Contract(key, 1, Open, Team(NOBODY, NOBODY), inputs.gathered.decision, inputs.gathered.trace));
    match previous
    case None => blank
    case Some(p) => blank.(status := p.status, team := p.team, lifecycle := p.lifecycle, roles := p.roles)
  }

  function RefreshCase(s: State, baseline: string, inputs: Option<Inputs>): Answer {
    if baseline == "" then Answer(s, Err(MissingKey))
    else if inputs.None? then Answer(s, Err(NoBaseline))
    else
      var previous := LoadCaseForBaseline(s, baseline);
      var candidate := Refreshed(baseline, inputs.value, previous);
      Answer(Persist(s, candidate, previous), Ok(Persisted(s.files, candidate, previous)))
  }

  // ---------------------------------------------------------------------------------
  // Updating the collaboration on a case.
  // ---------------------------------------------------------------------------------

  /** The arguments of an update; None where an argument is left out. */
  datatype Change = Change(
    status: Option<string>,
    assigneeId: Option<string>,
    assigneeName: Option<string>,
    reviewerId: Option<string>,
    reviewerName: Option<string>,
    action: string,
    changedBy: string)

  function NextStatus(current: Status, status: Option<string>): Option<Status> {
    if status.None? then Some(current) else NormalizeStatus(status.value)
  }

  function GivenOr(given: Option<string>, current: string): string {
    if given.Some? then given.value else current
  }

  function NextTeam(team: Team, change: Change): Team {
    Team(Person(GivenOr(change.assigneeId, team.assignee.id), GivenOr(change.assigneeName, team.assignee.name)),
         Person(GivenOr(change.reviewerId, team.reviewer.id), GivenOr(change.reviewerName, team.reviewer.name)))
  }

  function OrSystem(actor: string): string { if actor == "" then "system" else actor }

  function OrSync(action: string): string { if action == "" then "sync" else action }

  function Actor(changedBy: string, updatedBy: string): string {
    if changedBy != "" then changedBy else OrSystem(updatedBy)
  }

  function WithInitialEvent(events: seq<LifecycleEvent>, current: Status, updatedBy: string): seq<LifecycleEvent> {
    if events == [] then [LifecycleEvent("case_initialized", None, current, OrSystem(updatedBy))] else events
  }

  function WithTransition(events: seq<LifecycleEvent>, current: Status, next: Status, action: string,
      actor: string): seq<LifecycleEvent> {
    if current != next then events + [LifecycleEvent(action, Some(current), next, actor)] else events
  }

  function WithRoleChange(entries: seq<RoleEntry>, role: Role, from: Person, to: Person,
      actor: string): seq<RoleEntry> {
    if from != to then entries + [RoleEntry(role, from, to, actor)] else entries
  }

  function Revised(current: Case, next: Status, change: Change): Case {
    var actor := Actor(change.changedBy, current.updatedBy);
    var team := NextTeam(current.team, change);
    current.(
      status := next,
      team := team,
      updatedBy := actor,
      lifecycle := WithTransition(WithInitialEvent(current.lifecycle, current.status, current.updatedBy),
                                  current.status, next, OrSync(change.action), actor),
      roles := WithRoleChange(WithRoleChange(current.roles, Assignee, current.team.assignee, team.assignee, actor),
                              FinalReviewer, current.team.reviewer, team.reviewer, actor))
  }

  /** Update a case already at hand. */
  function UpdateCurrent(s: State, current: Case, change: Change): Answer {
    match NextStatus(current.status, change.status)
    case None => Answer(s, Err(UnsupportedStatus))
    case Some(next) =>
      if next !in AllowedTransitions(current.status) then Answer(s, Err(UnsupportedTransition(current.status, next)))
      else
        var candidate := Revised(current, next, change);
        Answer(Persist(s, candidate, Some(current)), Ok(Persisted(s.files, candidate, Some(current))))
  }

  /** A case that is not stored yet is first refreshed, and stays so even when the update is
      refused. */
  function UpdateCase(s: State, baseline: string, inputs: Option<Inputs>, change: Change): Answer {
    if baseline == "" then Answer(s, Err(MissingKey))
    else
      match LoadCaseForBaseline(s, baseline)
      case Some(current) => UpdateCurrent(s, current, change)
      case None =>
        match RefreshCase(s, baseline, inputs).result
        case Err(e) => Answer(s, Err(e))
        case Ok(current) => UpdateCurrent(RefreshCase(s, baseline, inputs).state, current, change)
  }

  // ---------------------------------------------------------------------------------
  // Runs.
  // ---------------------------------------------------------------------------------

  datatype Command =
    | Refresh(baseline: string, inputs: Option<Inputs>)
    | Collaborate(baseline: string, inputs: Option<Inputs>, change: Change)

  function Execute(s: State, cmd: Command): Answer {
    match cmd
    case Refresh(baseline, inputs) => RefreshCase(s, baseline, inputs)
    case Collaborate(baseline, inputs, change) => UpdateCase(s, baseline, inputs, change)
  }

  function Run(s: State, cmds: seq<Command>): State {
    if cmds == [] then s else Execute(Run(s, Init(cmds)), Last(cmds)).state
  }

  const EMPTY := State(map[], map[], [])

  // ---------------------------------------------------------------------------------
  // The audit logs replay to the state.
  // ---------------------------------------------------------------------------------

  /** Replay of a lifecycle log: every entry starts where the one before it ended, the first from
      nothing to open, the others along an allowed transition to another status. */
  ghost predicate LifecycleReplaysTo(events: seq<LifecycleEvent>, status: Status)
    decreases |events|
  {
    if events == [] then status == Open
    else
      var e := Last(events);
      && e.to == status
      && match e.from
         case None => |events| == 1 && status == Open
         case Some(from) =>
           |events| > 1 && status in AllowedTransitions(from) - {from} && LifecycleReplaysTo(Init(events), from)
  }

  /** The holder of a role according to the role log. */
  function Holder(entries: seq<RoleEntry>, role: Role): Person {
    if entries == [] then NOBODY
    else if Last(entries).role == role then Last(entries).to
    else Holder(Init(entries), role)
  }

  /** Every entry of the role log takes the role from its holder and gives it to someone else. */
  ghost predicate RoleChangesLink(entries: seq<RoleEntry>) {
    entries != [] ==>
      var e := Last(entries);
      e.from == Holder(Init(entries), e.role) && e.to != e.from && RoleChangesLink(Init(entries))
  }

  ghost predicate AuditReplays(c: Case) {
    && LifecycleReplaysTo(c.lifecycle, c.status)
    && RoleChangesLink(c.roles)
    && Holder(c.roles, Assignee) == c.team.assignee
    && Holder(c.roles, FinalReviewer) == c.team.reviewer
  }

  ghost predicate CaseInv(c: Case) {
    && AuditReplays(c)
    && c.revision >= 1
    && c.contract == ContractOf(c, c.revision)
  }

  ghost predicate FilesInv(files: map<string, Case>) {
    forall p :: p in files ==> CaseInv(files[p]) && CasePath(files[p].key.caseId) == p
  }

  lemma LifecycleStep(events: seq<LifecycleEvent>, current: Status, next: Status, updatedBy: string, action: string,
      actor: string)
    requires LifecycleReplaysTo(events, current) && next in AllowedTransitions(current)
    ensures LifecycleReplaysTo(WithTransition(WithInitialEvent(events, current, updatedBy), current, next,
                                              action, actor), next)
  {
  }

  lemma RoleStep(entries: seq<RoleEntry>, role: Role, from: Person, to: Person, actor: string)
    requires RoleChangesLink(entries) && Holder(entries, role) == from
    ensures var entries' := WithRoleChange(entries, role, from, to, actor);
      && RoleChangesLink(entries') && Holder(entries', role) == to
      && forall r :: r != role ==> Holder(entries', r) == Holder(entries, r)
  {
    if from != to {
      var e := RoleEntry(role, from, to, actor);
      assert Init(entries + [e]) == entries && Last(entries + [e]) == e;
    }
  }

  lemma RevisedReplays(current: Case, next: Status, change: Change)
    requires AuditReplays(current) && next in AllowedTransitions(current.status)
    ensures AuditReplays(Revised(current, next, change))
  {
    var actor := Actor(change.changedBy, current.updatedBy);
    var team := NextTeam(current.team, change);
    LifecycleStep(current.lifecycle, current.status, next, current.updatedBy, OrSync(change.action), actor);
    RoleStep(current.roles, Assignee, current.team.assignee, team.assignee, actor);
    RoleStep(WithRoleChange(current.roles, Assignee, current.team.assignee, team.assignee, actor),
             FinalReviewer, current.team.reviewer, team.reviewer, actor);
  }

  lemma RefreshedReplays(baseline: string, inputs: Inputs, previous: Option<Case>)
    requires previous.Some? ==> AuditReplays(previous.value)
    ensures AuditReplays(Refreshed(baseline, inputs, previous))
  {
  }

  lemma PersistKeepsFiles(s: State, candidate: Case, previous: Option<Case>)
    requires FilesInv(s.files) && AuditReplays(candidate)
    ensures FilesInv(Persist(s, candidate, previous).files) && CaseInv(Persisted(s.files, candidate, previous))
  {
  }

  lemma RefreshKeepsFiles(s: State, baseline: string, inputs: Option<Inputs>)
    requires FilesInv(s.files)
    ensures FilesInv(RefreshCase(s, baseline, inputs).state.files)
    ensures RefreshCase(s, baseline, inputs).result.Ok? ==> CaseInv(RefreshCase(s, baseline, inputs).result.value)
  {
    if baseline != "" && inputs.Some? {
      var previous := LoadCaseForBaseline(s, baseline);
      RefreshedReplays(baseline, inputs.value, previous);
      PersistKeepsFiles(s, Refreshed(baseline, inputs.value, previous), previous);
    }
  }

  lemma UpdateKeepsFiles(s: State, current: Case, change: Change)
    requires FilesInv(s.files) && AuditReplays(current)
    ensures FilesInv(UpdateCurrent(s, current, change).state.files)
  {
    var next := NextStatus(current.status, change.status);
    if next.Some? && next.value in AllowedTransitions(current.status) {
      RevisedReplays(current, next.value, change);
      PersistKeepsFiles(s, Revised(current, next.value, change), Some(current));
    }
  }

  lemma StepKeepsFiles(s: State, cmd: Command)
    requires FilesInv(s.files)
    ensures FilesInv(Execute(s, cmd).state.files)
  {
    RefreshKeepsFiles(s, cmd.baseline, cmd.inputs);
    if cmd.Collaborate? && cmd.baseline != "" {
      var stored, got := LoadCaseForBaseline(s, cmd.baseline), RefreshCase(s, cmd.baseline, cmd.inputs);
      if stored.Some? {
        UpdateKeepsFiles(s, stored.value, cmd.change);
      } else if got.result.Ok? {
        UpdateKeepsFiles(got.state, got.result.value, cmd.change);
      }
    }
  }

  /** After any run of refreshes and updates, the lifecycle log of every stored case replays to
      its status and the role log to its assignee and reviewer. */
  lemma AuditLogsReplayToState(cmds: seq<Command>, path: string)
    requires path in Run(EMPTY, cmds).files
    ensures AuditReplays(Run(EMPTY, cmds).files[path])
  {
    RunKeepsFiles(cmds);
  }

  lemma {:induction false} RunKeepsFiles(cmds: seq<Command>)
    ensures FilesInv(Run(EMPTY, cmds).files)
  {
    if cmds != [] {
      RunKeepsFiles(Init(cmds));
      StepKeepsFiles(Run(EMPTY, Init(cmds)), Last(cmds));
    }
  }

  // ---------------------------------------------------------------------------------
  // Refreshes and updates keep out of each other's way.
  // ---------------------------------------------------------------------------------

  /** A refresh takes over what was gathered and leaves status, team and logs alone. An update
      leaves what was gathered alone, up to the override, and sets status and team to what was
      asked for, keeping what was not; its log entries are new, the earlier ones stay. */
  lemma RefreshAndUpdateKeepApart(s: State, cmd: Command)
    requires Execute(s, cmd).result.Ok? && LoadCaseForBaseline(s, cmd.baseline).Some?
    ensures var before, after := LoadCaseForBaseline(s, cmd.baseline).value, Execute(s, cmd).result.value;
      match cmd
      case Refresh(_, inputs) =>
        && after.gathered == inputs.value.gathered && after.key.reportId == inputs.value.reportId
        && after.status == before.status && after.team == before.team
        && after.lifecycle == before.lifecycle && after.roles == before.roles
      case Collaborate(_, _, change) =>
        && after.gathered == before.gathered && after.key == before.key
        && Some(after.status) == NextStatus(before.status, change.status) && after.team == NextTeam(before.team, change)
        && before.lifecycle <= after.lifecycle && before.roles <= after.roles
  {
  }

  // ---------------------------------------------------------------------------------
  // Revisions and published events.
  // ---------------------------------------------------------------------------------

  /** The stored case of a baseline. */
  function Stored(s: State, baseline: string): Case
    requires baseline in s.index && CasePath(s.index[baseline]) in s.files
  {
    s.files[CasePath(s.index[baseline])]
  }

  /** Every accepted command on a stored case raises its revision by one if the payload changed
      and leaves it alone otherwise. */
  lemma RevisionCountsPayloadChanges(s: State, cmd: Command)
    requires FilesInv(s.files) && LoadCaseForBaseline(s, cmd.baseline).Some?
    requires Stored(s, cmd.baseline).key.caseId != ""
    requires Execute(s, cmd).result.Ok?
    ensures var before, after := Stored(s, cmd.baseline), Execute(s, cmd).result.value;
      after.revision == before.revision + if SameFingerprint(before, after) then 0 else 1
  {
  }

  /** No two baselines share a directory: each path has an owner, and the ids a command may write
      lie on paths of its baseline. */
  predicate WritesOwnPaths(owner: string -> string, cmd: Command) {
    cmd.inputs.Some? ==> owner(CasePath(CaseId(cmd.baseline, cmd.inputs.value.reportId))) == cmd.baseline
  }

  ghost predicate StoreInv(owner: string -> string, files: map<string, Case>, index: map<string, string>) {
    && FilesInv(files)
    && (forall p :: p in files ==> owner(p) == files[p].key.baseline && owner(p) in index)
    && (forall k :: k in index ==>
          var p := CasePath(index[k]);
          p in files && owner(p) == k && files[p].key.caseId == index[k] != "")
  }

  /** The published revisions of a baseline rise strictly, up to the stored one at most. */
  ghost predicate OutboxInv(files: map<string, Case>, index: map<string, string>, outbox: seq<Event>) {
    && (forall e :: e in outbox ==>
          && e.baseline in index && CasePath(index[e.baseline]) in files
          && e.contract.revision <= files[CasePath(index[e.baseline])].revision)
    && RevisionsRise(outbox)
  }

  ghost predicate RevisionsRise(outbox: seq<Event>) {
    forall i, j :: 0 <= i < j < |outbox| && outbox[i].baseline == outbox[j].baseline ==>
      outbox[i].contract.revision < outbox[j].contract.revision
  }

  ghost predicate Inv(owner: string -> string, s: State) {
    StoreInv(owner, s.files, s.index) && OutboxInv(s.files, s.index, s.outbox)
  }

  /** `previous` is the stored case of the baseline, up to the override lost in loading. */
  ghost predicate Matches(s: State, baseline: string, previous: Option<Case>) {
    match previous
    case None => baseline !in s.index
    case Some(p) =>
      && baseline in s.index && CasePath(s.index[baseline]) in s.files
      && Loaded(Stored(s, baseline)) == Loaded(p)
  }

  /** A case at hand that is the stored one of its baseline. */
  ghost predicate OwnCase(owner: string -> string, s: State, baseline: string, c: Case) {
    && c.key.baseline == baseline
    && c.key.caseId != "" && owner(CasePath(c.key.caseId)) == baseline
    && AuditReplays(c) && Matches(s, baseline, Some(c))
  }

  /** What persisting does to the stored case: the revision grows with the payload, and the
      contract changes only when the revision does. */
  lemma PersistedRevision(owner: string -> string, s: State, candidate: Case, previous: Option<Case>)
    requires StoreInv(owner, s.files, s.index) && Matches(s, candidate.key.baseline, previous)
    requires owner(CasePath(candidate.key.caseId)) == candidate.key.baseline
    ensures var c := Persisted(s.files, candidate, previous);
      match previous
      case None => c.revision == 1
      case Some(p) => (c.revision == p.revision && c.contract == p.contract) || c.revision == p.revision + 1
  {
    var c := Persisted(s.files, candidate, previous);
    if previous.Some? {
      var stored := Stored(s, candidate.key.baseline);
      assert CaseInv(stored);
      assert previous.value.revision == stored.revision && previous.value.contract == stored.contract
          && previous.value.key == stored.key;
    }
  }

  lemma WriteKeepsStore(owner: string -> string, files: map<string, Case>, index: map<string, string>, c: Case)
    requires StoreInv(owner, files, index) && CaseInv(c) && c.key.caseId != ""
    requires owner(CasePath(c.key.caseId)) == c.key.baseline
    ensures StoreInv(owner, files[CasePath(c.key.caseId) := c], index[c.key.baseline := c.key.caseId])
  {
  }

  /** A write for one baseline leaves the stored cases of the others. */
  lemma OthersAreKept(owner: string -> string, files: map<string, Case>, index: map<string, string>, c: Case, k: string)
    requires StoreInv(owner, files, index) && k in index && k != c.key.baseline
    requires owner(CasePath(c.key.caseId)) == c.key.baseline
    ensures CasePath(index[k]) in files && CasePath(index[k]) != CasePath(c.key.caseId)
  {
  }

  lemma WriteKeepsOutbox(owner: string -> string, files: map<string, Case>, index: map<string, string>,
      outbox: seq<Event>, c: Case)
    requires StoreInv(owner, files, index) && OutboxInv(files, index, outbox)
    requires owner(CasePath(c.key.caseId)) == c.key.baseline
    requires c.key.baseline in index ==> files[CasePath(index[c.key.baseline])].revision <= c.revision
    ensures OutboxInv(files[CasePath(c.key.caseId) := c], index[c.key.baseline := c.key.caseId], outbox)
  {
    forall e | e in outbox && e.baseline != c.key.baseline
      ensures CasePath(index[e.baseline]) != CasePath(c.key.caseId)
    {
      OthersAreKept(owner, files, index, c, e.baseline);
    }
  }

  /** A new event has a higher revision than the earlier ones of its baseline. */
  lemma PublishKeepsOutbox(files: map<string, Case>, index: map<string, string>, outbox: seq<Event>, c: Case,
      before: int)
    requires OutboxInv(files, index, outbox)
    requires c.key.baseline in index && CasePath(index[c.key.baseline]) in files
        && files[CasePath(index[c.key.baseline])] == c
    requires c.contract.revision == c.revision && before < c.revision
    requires forall e :: e in outbox && e.baseline == c.key.baseline ==> e.contract.revision <= before
    ensures OutboxInv(files, index, outbox + [Event(c.key.baseline, c.contract)])
  {
    AppendedRevisionsRise(outbox, Event(c.key.baseline, c.contract));
  }

  lemma WriteKeepsInv(owner: string -> string, s: State, c: Case, previous: Option<Case>)
    requires Inv(owner, s)
    requires if c.key.baseline in s.index
      then previous.Some? && Stored(s, c.key.baseline).revision == previous.value.revision
      else previous.None?
    requires CaseInv(c) && c.key.caseId != "" && owner(CasePath(c.key.caseId)) == c.key.baseline
    requires c.revision == RevisionBefore(previous) + 1
          || (previous.Some? && c.revision == previous.value.revision && c.contract == previous.value.contract)
    ensures Inv(owner, WriteCase(s, c).(outbox := Published(s.outbox, c, previous)))
  {
    var k, files, index := c.key.baseline, s.files[CasePath(c.key.caseId) := c],
        s.index[c.key.baseline := c.key.caseId];
    assert StoreInv(owner, files, index) by {
      WriteKeepsStore(owner, s.files, s.index, c);
    }
    assert OutboxInv(files, index, s.outbox) by {
      WriteKeepsOutbox(owner, s.files, s.index, s.outbox, c);
    }
    if Published(s.outbox, c, previous) != s.outbox {
      assert Published(s.outbox, c, previous) == s.outbox + [Event(k, c.contract)];
      PublishKeepsOutbox(files, index, s.outbox, c, RevisionBefore(previous));
    }
  }

  lemma PersistKeepsInv(owner: string -> string, s: State, candidate: Case, previous: Option<Case>)
    requires Inv(owner, s) && Matches(s, candidate.key.baseline, previous)
    requires AuditReplays(candidate) && candidate.key.caseId != ""
    requires owner(CasePath(candidate.key.caseId)) == candidate.key.baseline
    ensures Inv(owner, Persist(s, candidate, previous))
    ensures OwnCase(owner, Persist(s, candidate, previous), candidate.key.baseline,
        Persisted(s.files, candidate, previous))
  {
    PersistedIsSound(s.files, candidate, previous);
    PersistedRevision(owner, s, candidate, previous);
    if previous.Some? {
      assert Loaded(Stored(s, candidate.key.baseline)).revision == previous.value.revision;
    }
    WriteKeepsInv(owner, s, Persisted(s.files, candidate, previous), previous);
  }

  lemma PersistedIsSound(files: map<string, Case>, candidate: Case, previous: Option<Case>)
    requires AuditReplays(candidate)
    ensures CaseInv(Persisted(files, candidate, previous)) && Persisted(files, candidate, previous).key == candidate.key
  {
  }

  lemma AppendedRevisionsRise(outbox: seq<Event>, event: Event)
    requires RevisionsRise(outbox)
    requires forall e :: e in outbox && e.baseline == event.baseline ==> e.contract.revision < event.contract.revision
    ensures RevisionsRise(outbox + [event])
  {
    assert forall i :: 0 <= i < |outbox| ==> outbox[i] in outbox;
  }

  lemma RefreshKeepsInv(owner: string -> string, s: State, baseline: string, inputs: Option<Inputs>)
    requires Inv(owner, s) && WritesOwnPaths(owner, Refresh(baseline, inputs))
    ensures var got := RefreshCase(s, baseline, inputs);
      Inv(owner, got.state) && (got.result.Ok? ==> OwnCase(owner, got.state, baseline, got.result.value))
  {
    if baseline != "" && inputs.Some? {
      var previous := LoadCaseForBaseline(s, baseline);
      var candidate := Refreshed(baseline, inputs.value, previous);
      assert previous.Some? ==> AuditReplays(previous.value);
      RefreshedReplays(baseline, inputs.value, previous);
      assert candidate.key.caseId[0] == 'a';
      PersistKeepsInv(owner, s, candidate, previous);
    }
  }

  lemma UpdateKeepsInv(owner: string -> string, s: State, baseline: string, current: Case, change: Change)
    requires Inv(owner, s) && OwnCase(owner, s, baseline, current)
    ensures Inv(owner, UpdateCurrent(s, current, change).state)
  {
    var next := NextStatus(current.status, change.status);
    if next.Some? && next.value in AllowedTransitions(current.status) {
      RevisedReplays(current, next.value, change);
      PersistKeepsInv(owner, s, Revised(current, next.value, change), Some(current));
    }
  }

  lemma StoredIsOwn(owner: string -> string, s: State, baseline: string)
    requires StoreInv(owner, s.files, s.index) && LoadCaseForBaseline(s, baseline).Some?
    ensures OwnCase(owner, s, baseline, LoadCaseForBaseline(s, baseline).value)
  {
    assert CaseInv(Stored(s, baseline));
  }

  lemma StepKeepsInv(owner: string -> string, s: State, cmd: Command)
    requires Inv(owner, s) && WritesOwnPaths(owner, cmd)
    ensures Inv(owner, Execute(s, cmd).state)
  {
    RefreshKeepsInv(owner, s, cmd.baseline, cmd.inputs);
    if cmd.Collaborate? && cmd.baseline != "" {
      var stored, got := LoadCaseForBaseline(s, cmd.baseline), RefreshCase(s, cmd.baseline, cmd.inputs);
      if stored.Some? {
        StoredIsOwn(owner, s, cmd.baseline);
        UpdateKeepsInv(owner, s, cmd.baseline, stored.value, cmd.change);
      } else if got.result.Ok? {
        UpdateKeepsInv(owner, got.state, cmd.baseline, got.result.value, cmd.change);
      }
    }
  }

  ghost predicate AllWriteOwnPaths(owner: string -> string, cmds: seq<Command>) {
    cmds != [] ==> AllWriteOwnPaths(owner, Init(cmds)) && WritesOwnPaths(owner, Last(cmds))
  }

  lemma {:induction false} RunKeepsInv(owner: string -> string, s: State, cmds: seq<Command>)
    requires Inv(owner, s) && AllWriteOwnPaths(owner, cmds)
    ensures Inv(owner, Run(s, cmds))
  {
    if cmds != [] {
      RunKeepsInv(owner, s, Init(cmds));
      StepKeepsInv(owner, Run(s, Init(cmds)), Last(cmds));
    }
  }

  /** Where no two baselines share a path, the contract events of a baseline carry strictly
      increasing revisions, none above the stored one. */
  lemma PublishedRevisionsIncrease(owner: string -> string, cmds: seq<Command>, i: nat, j: nat)
    requires AllWriteOwnPaths(owner, cmds)
    requires i < j < |Run(EMPTY, cmds).outbox|
    requires Run(EMPTY, cmds).outbox[i].baseline == Run(EMPTY, cmds).outbox[j].baseline
    ensures var s := Run(EMPTY, cmds); var baseline := s.outbox[j].baseline;
      && s.outbox[i].contract.revision < s.outbox[j].contract.revision
      && baseline in s.index && CasePath(s.index[baseline]) in s.files
      && s.outbox[j].contract.revision <= Stored(s, baseline).revision
  {
    RunKeepsInv(owner, EMPTY, cmds);
    var s := Run(EMPTY, cmds);
    assert s.outbox[j] in s.outbox;
  }

  lemma PersistNeverLowers(owner: string -> string, s: State, candidate: Case, previous: Option<Case>, baseline: string)
    requires StoreInv(owner, s.files, s.index) && Matches(s, candidate.key.baseline, previous)
    requires AuditReplays(candidate) && candidate.key.caseId != ""
        && owner(CasePath(candidate.key.caseId)) == candidate.key.baseline
    requires baseline in s.index
    ensures NoLower(s, Persist(s, candidate, previous), baseline)
  {
    var c := Persisted(s.files, candidate, previous);
    assert c.key == candidate.key;
    assert CasePath(s.index[baseline]) in s.files;
    if baseline == candidate.key.baseline {
      assert Stored(s, baseline).revision <= c.revision by {
        PersistedRevision(owner, s, candidate, previous);
        assert Loaded(Stored(s, baseline)).revision == previous.value.revision;
      }
    } else {
      OthersAreKept(owner, s.files, s.index, c, baseline);
    }
    assert NoLower(s, WriteCase(s, c), baseline);
  }

  ghost predicate NoLower(s: State, s': State, baseline: string) {
    && baseline in s.index && CasePath(s.index[baseline]) in s.files
    && baseline in s'.index && CasePath(s'.index[baseline]) in s'.files
    && Stored(s, baseline).revision <= Stored(s', baseline).revision
  }

  lemma RefreshNeverLowers(owner: string -> string, s: State, b: string, inputs: Option<Inputs>, baseline: string)
    requires Inv(owner, s) && WritesOwnPaths(owner, Refresh(b, inputs)) && baseline in s.index
    ensures NoLower(s, RefreshCase(s, b, inputs).state, baseline)
  {
    if b != "" && inputs.Some? {
      var previous := LoadCaseForBaseline(s, b);
      var candidate := Refreshed(b, inputs.value, previous);
      assert previous.Some? ==> CaseInv(Stored(s, b)) && AuditReplays(previous.value);
      RefreshedReplays(b, inputs.value, previous);
      assert candidate.key.caseId[0] == 'a';
      PersistNeverLowers(owner, s, candidate, previous, baseline);
    }
  }

  lemma UpdateNeverLowers(owner: string -> string, s: State, b: string, current: Case, change: Change, baseline: string)
    requires Inv(owner, s) && OwnCase(owner, s, b, current) && baseline in s.index
    ensures NoLower(s, UpdateCurrent(s, current, change).state, baseline)
  {
    var next := NextStatus(current.status, change.status);
    if next.Some? && next.value in AllowedTransitions(current.status) {
      RevisedReplays(current, next.value, change);
      PersistNeverLowers(owner, s, Revised(current, next.value, change), Some(current), baseline);
    }
  }

  lemma StepNeverLowers(owner: string -> string, s: State, cmd: Command, baseline: string)
    requires Inv(owner, s) && WritesOwnPaths(owner, cmd) && baseline in s.index
    ensures NoLower(s, Execute(s, cmd).state, baseline)
  {
    RefreshNeverLowers(owner, s, cmd.baseline, cmd.inputs, baseline);
    if cmd.Collaborate? && cmd.baseline != "" {
      var stored, got := LoadCaseForBaseline(s, cmd.baseline), RefreshCase(s, cmd.baseline, cmd.inputs);
      if stored.Some? {
        StoredIsOwn(owner, s, cmd.baseline);
        UpdateNeverLowers(owner, s, cmd.baseline, stored.value, cmd.change, baseline);
      } else if got.result.Ok? {
        RefreshKeepsInv(owner, s, cmd.baseline, cmd.inputs);
        UpdateNeverLowers(owner, got.state, cmd.baseline, got.result.value, cmd.change, baseline);
      }
    }
  }

  /** Where no two baselines share a path, the revision of a baseline's case never falls, whatever
      commands follow. */
  lemma {:induction false} RevisionNeverFalls(owner: string -> string, s: State, cmds: seq<Command>, baseline: string)
    requires Inv(owner, s) && AllWriteOwnPaths(owner, cmds) && baseline in s.index
    ensures NoLower(s, Run(s, cmds), baseline)
  {
    if cmds != [] {
      RevisionNeverFalls(owner, s, Init(cmds), baseline);
      RunKeepsInv(owner, s, Init(cmds));
      StepNeverLowers(owner, Run(s, Init(cmds)), Last(cmds), baseline);
    }
  }

  // ---------------------------------------------------------------------------------
  // Repeating a command.
  // ---------------------------------------------------------------------------------

  /** A second refresh with the same inputs changes nothing and publishes nothing. */
  lemma SecondRefreshChangesNothing(s: State, baseline: string, inputs: Option<Inputs>)
    ensures var first := RefreshCase(s, baseline, inputs);
      RefreshCase(first.state, baseline, inputs) == first
  {
    if baseline != "" && inputs.Some? {
      var previous := LoadCaseForBaseline(s, baseline);
      var candidate := Refreshed(baseline, inputs.value, previous);
      var c, s' := Persisted(s.files, candidate, previous), Persist(s, candidate, previous);
      var again := Refreshed(baseline, inputs.value, Some(Loaded(c)));
      assert LoadCaseForBaseline(s', baseline) == Some(Loaded(c));
      assert SameFingerprint(c, again) && Persisted(s'.files, again, Some(Loaded(c))) == c;
    }
  }

  /** An update that asks for what the case already says. */
  predicate AsksForNothing(c: Case, change: Change) {
    && NextStatus(c.status, change.status) == Some(c.status)
    && NextTeam(c.team, change) == c.team
    && Actor(change.changedBy, c.updatedBy) == c.updatedBy
  }

  /** Such an update leaves everything alone exactly when the case has a lifecycle log already
      and was stored without an override; otherwise it raises the revision. */
  lemma IdleUpdateChangesNothingExactlyWhen(s: State, baseline: string, inputs: Option<Inputs>, change: Change)
    requires baseline != "" && baseline in s.index && CasePath(s.index[baseline]) in s.files
    requires var c := Stored(s, baseline);
      CaseInv(c) && c.key.baseline == baseline && c.key.caseId == s.index[baseline] != ""
    requires AsksForNothing(Stored(s, baseline), change)
    ensures var c, answer := Stored(s, baseline), UpdateCase(s, baseline, inputs, change);
      && answer.result.Ok?
      && (answer.state == s <==> c.lifecycle != [] && c.gathered.override == None)
      && (answer.result.value.revision == c.revision <==> c.lifecycle != [] && c.gathered.override == None)
  {
  }

  // ---------------------------------------------------------------------------------
  // Baselines that share a directory.
  // ---------------------------------------------------------------------------------

  /** A refresh of one baseline disturbs the stored case of another exactly when the two case
      ids have the same path. */
  lemma RefreshDisturbsExactlyWhen(s: State, baseline: string, inputs: Inputs, other: string)
    requires baseline != "" && other != baseline
    requires other in s.index && CasePath(s.index[other]) in s.files && Stored(s, other).key.baseline == other
    ensures var s' := RefreshCase(s, baseline, Some(inputs)).state;
      LoadCaseForBaseline(s', other) == LoadCaseForBaseline(s, other)
      <==> CasePath(CaseId(baseline, inputs.reportId)) != CasePath(s.index[other])
  {
  }

  lemma {:induction false} SafeConcat(a: string, b: string)
    ensures Safe(a + b) == Safe(a) + Safe(b)
  {
    if a == "" {
      assert a + b == b;
    } else {
      assert (a + b)[0] == a[0] && (a + b)[1..] == a[1..] + b;
      SafeConcat(a[1..], b);
    }
  }

  lemma SafeJoin(prefix: string, baseline: string, report: string)
    ensures Safe(Join(prefix, baseline, report)) == Safe(prefix) + (Safe(baseline) + Safe(":" + report))
  {
    SafeConcat(baseline, ":" + report);
    SafeConcat(prefix, baseline + (":" + report));
    assert Join(prefix, baseline, report) == prefix + (baseline + (":" + report));
  }

  lemma SlashIsUnderscore(x: string, y: string)
    ensures Safe(x + "/" + y) == Safe(x + "_" + y)
  {
    SafeConcat(x + "/", y);
    SafeConcat(x, "/");
    SafeConcat(x + "_", y);
    SafeConcat(x, "_");
    assert Safe("/") == "_" && Safe("_") == "_";
  }

  /** Baselines that differ only in '/' against '_' share their directories: after refreshing one
      and then the other with the same report, the first one's case is the second one's. */
  lemma BaselinesCanShareADirectory(s: State, x: string, y: string, inputs: Inputs)
    ensures var a, b := x + "/" + y, x + "_" + y;
      var s' := RefreshCase(RefreshCase(s, a, Some(inputs)).state, b, Some(inputs)).state;
      a != b && LoadCaseForBaseline(s', a).Some? && LoadCaseForBaseline(s', a).value.key.baseline == b
  {
    var a, b := x + "/" + y, x + "_" + y;
    assert a[|x|] != b[|x|];
    assert CasePath(CaseId(a, inputs.reportId)) == CasePath(CaseId(b, inputs.reportId)) by {
      SlashIsUnderscore(x, y);
      SafeJoin(PREFIX, a, ReportOrUnknown(inputs.reportId));
      SafeJoin(PREFIX, b, ReportOrUnknown(inputs.reportId));
    }
    var s1 := RefreshCase(s, a, Some(inputs)).state;
    RefreshWrites(s, a, inputs);
    RefreshWrites(s1, b, inputs);
  }

  lemma RefreshWrites(s: State, baseline: string, inputs: Inputs)
    requires baseline != ""
    ensures var id := CaseId(baseline, inputs.reportId);
      var s' := RefreshCase(s, baseline, Some(inputs)).state;
      && s'.index == s.index[baseline := id]
      && CasePath(id) in s'.files && s'.files[CasePath(id)].key.baseline == baseline
  {
  }

  function UpToColon(text: string): string {
    if text == "" || text[0] == ':' then "" else [text[0]] + UpToColon(text[1..])
  }

  /** The owner of a path, when no baseline holds a '/' or ':'. */
  function PlainOwner(path: string): string {
    if |path| < |PREFIX| then "" else UpToColon(path[|PREFIX|..])
  }

  predicate IsPlain(baseline: string) { forall i :: 0 <= i < |baseline| ==> baseline[i] != '/' && baseline[i] != ':' }

  lemma {:induction false} SafeKeepsLength(text: string)
    ensures |Safe(text)| == |text|
  {
    if text != "" {
      SafeKeepsLength(text[1..]);
    }
  }

  lemma {:induction false} PlainIsSafe(baseline: string, rest: string)
    requires IsPlain(baseline) && rest != "" && rest[0] == ':'
    ensures Safe(baseline) == baseline && UpToColon(baseline + rest) == baseline
  {
    if baseline == "" {
      assert baseline + rest == rest;
    } else {
      PlainIsSafe(baseline[1..], rest);
      assert (baseline + rest)[1..] == baseline[1..] + rest;
      assert baseline == [baseline[0]] + baseline[1..];
    }
  }

  lemma PlainPath(prefix: string, baseline: string, report: string)
    requires IsPlain(baseline)
    ensures var path := Safe(Join(prefix, baseline, report));
      |path| >= |prefix| && UpToColon(path[|prefix|..]) == baseline
  {
    SafeJoin(prefix, baseline, report);
    SafeKeepsLength(prefix);
    SafeConcat(":", report);
    assert Safe(":" + report)[0] == ':';
    PlainIsSafe(baseline, Safe(":" + report));
    assert (Safe(prefix) + (baseline + Safe(":" + report)))[|prefix|..] == baseline + Safe(":" + report);
  }

  /** Commands on plain baselines never share a directory, whatever the report ids. */
  lemma PlainBaselinesWriteOwnPaths(cmd: Command)
    requires IsPlain(cmd.baseline)
    ensures WritesOwnPaths(PlainOwner, cmd)
  {
    if cmd.inputs.Some? {
      PlainPath(PREFIX, cmd.baseline, ReportOrUnknown(cmd.inputs.value.reportId));
    }
  }

  // ---------------------------------------------------------------------------------
  // The service over its files.
  // ---------------------------------------------------------------------------------

  class AdmissionCaseService {
    var files: map<string, Case>
    var index: map<string, string>
    var outbox: seq<Event>

    ghost function View(): State
      reads this
    {
      State(files, index, outbox)
    }

    ghost predicate Valid()
      reads this
    {
      FilesInv(files)
    }

    constructor ()
      ensures View() == EMPTY && Valid()
    {
      files, index, outbox := map[], map[], [];
    }

    method GetCase(baseline: string, inputs: Option<Inputs>) returns (r: Result<Case, Error>)
      requires Valid()
      modifies this
      ensures Answer(View(), r) == RefreshCase(old(View()), baseline, inputs)
      ensures Valid() && (r.Ok? ==> CaseInv(r.value))
    {
      RefreshKeepsFiles(View(), baseline, inputs);
      if baseline == "" {
        return Err(MissingKey);
      }
      if inputs.None? {
        return Err(NoBaseline);
      }
      var previous := LoadForBaseline(baseline);
      var candidate := Refreshed(baseline, inputs.value, previous);
      var persisted := PersistCase(candidate, previous);
      r := Ok(persisted);
    }

    method UpdateCaseCollaboration(baseline: string, inputs: Option<Inputs>,
        change: Change) returns (r: Result<Case, Error>)
      requires Valid()
      modifies this
      ensures Answer(View(), r) == UpdateCase(old(View()), baseline, inputs, change)
      ensures Valid()
    {
      if baseline == "" {
        return Err(MissingKey);
      }
      var previous := LoadForBaseline(baseline);
      var current;
      if previous.Some? {
        current := previous.value;
        StoredReplays(View(), baseline);
      } else {
        var got := GetCase(baseline, inputs);
        if got.Err? {
          return got;
        }
        current := got.value;
      }
      r := UpdateCurrentCase(current, change);
    }

    method UpdateCurrentCase(current: Case, change: Change) returns (r: Result<Case, Error>)
      requires Valid() && AuditReplays(current)
      modifies this
      ensures Answer(View(), r) == UpdateCurrent(old(View()), current, change) && Valid()
    {
      UpdateKeepsFiles(View(), current, change);
      var next := NextStatus(current.status, change.status);
      if next.None? {
        return Err(UnsupportedStatus);
      }
      if next.value !in AllowedTransitions(current.status) {
        return Err(UnsupportedTransition(current.status, next.value));
      }
      var candidate := Revise(current, next.value, change);
      var persisted := PersistCase(candidate, Some(current));
      r := Ok(persisted);
    }

    /** The revised case, its logs extended entry by entry. */
    method Revise(current: Case, next: Status, change: Change) returns (candidate: Case)
      ensures candidate == Revised(current, next, change)
    {
      var team := NextTeam(current.team, change);
      var actor := Actor(change.changedBy, current.updatedBy);
      var events, entries := current.lifecycle, current.roles;
      if events == [] {
        events := events + [LifecycleEvent("case_initialized", None, current.status, OrSystem(current.updatedBy))];
      }
      if current.status != next {
        events := events + [LifecycleEvent(OrSync(change.action), Some(current.status), next, actor)];
      }
      if current.team.assignee != team.assignee {
        entries := entries + [RoleEntry(Assignee, current.team.assignee, team.assignee, actor)];
      }
      if current.team.reviewer != team.reviewer {
        entries := entries + [RoleEntry(FinalReviewer, current.team.reviewer, team.reviewer, actor)];
      }
      candidate := current.(status := next, team := team, updatedBy := actor, lifecycle := events, roles := entries);
    }

    method LoadForBaseline(baseline: string) returns (c: Option<Case>)
      ensures c == LoadCaseForBaseline(View(), baseline)
    {
      c := None;
      if baseline in index {
        var raw := LoadRaw(files, index[baseline]);
        if raw.Some? {
          c := Some(Loaded(raw.value));
        }
      }
    }

    method PersistCase(candidate: Case, previous: Option<Case>) returns (persisted: Case)
      modifies this
      ensures View() == Persist(old(View()), candidate, previous)
      ensures persisted == Persisted(old(files), candidate, previous)
    {
      var before := RevisionBefore(previous);
      var revision := AtLeastOne(before);
      var raw := LoadRaw(files, PreviousId(candidate, previous));
      if raw.None? || !SameFingerprint(raw.value, candidate) {
        revision := AtLeastOne(before + 1);
      }
      persisted := candidate.(revision := revision, contract := ContractOf(candidate, revision));
      files := files[CasePath(persisted.key.caseId) := persisted];
      index := index[persisted.key.baseline := persisted.key.caseId];
      PublishCaseContractEvent(persisted, previous);
    }

    method PublishCaseContractEvent(c: Case, previous: Option<Case>)
      modifies this`outbox
      ensures outbox == Published(old(outbox), c, previous)
    {
      if !IsFinal(c.gathered.decision) {
        return;
      }
      if previous.Some? && previous.value.contract == c.contract {
        return;
      }
      outbox := outbox + [Event(c.key.baseline, c.contract)];
    }
  }

  lemma StoredReplays(s: State, baseline: string)
    requires FilesInv(s.files) && LoadCaseForBaseline(s, baseline).Some?
    ensures AuditReplays(LoadCaseForBaseline(s, baseline).value)
  {
  }
}
