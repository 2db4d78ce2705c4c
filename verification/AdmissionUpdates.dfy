/** What an update of an admission case accepts and sets, and what is published of a case: told in
    the words of the request and without the tables of the service. */
module AdmissionUpdates {
  import opened Wrappers
  import opened GroupBy
  import opened AdmissionCase

  // ---------------------------------------------------------------------------------
  // Which updates are accepted.
  // ---------------------------------------------------------------------------------

  /** The texts that ask for a status. */
  predicate Names(text: string, status: Status) {
    match status
    case Open => text == "open" || text == "new" || text == ""
    case Assigned => text == "assigned"
    case Reviewing => text == "reviewing"
    case PendingConfirmation => text == "pending_confirmation" || text == "confirmed"
    case ApprovedWithRisk => text == "approved_with_risk"
    case Approved => text == "approved"
    case Rejected => text == "rejected"
  }

  /** Who may come to a status: only an open case stays open; reviewing and rejected are open to all;
      approval, with risk or without, is out of reach for open and rejected cases, and what is
      approved is not confirmed again, nor approved with risk after being approved without. */
  predicate MayBecome(from: Status, to: Status) {
    match to
    case Open => from == Open
    case Assigned => from == Open || from == Assigned || from == Reviewing
    case Reviewing => true
    case PendingConfirmation => from != ApprovedWithRisk && from != Approved
    case ApprovedWithRisk => from != Open && from != Rejected && from != Approved
    case Approved => from != Open && from != Rejected
    case Rejected => true
  }

  lemma NamesExactlyWhen(text: string, status: Status)
    ensures NormalizeStatus(text) == Some(status) <==> Names(text, status)
  {
  }

  lemma AllowedExactlyWhen(from: Status, to: Status)
    ensures to in AllowedTransitions(from) <==> MayBecome(from, to)
  {
  }

  /** An update is accepted exactly when it asks for no status, or for one by its name that the case
      may come to; the case then has that status. A refused one changes nothing. */
  lemma UpdateAcceptedExactlyWhen(s: State, current: Case, change: Change)
    ensures var answer := UpdateCurrent(s, current, change);
      && (answer.result.Ok? <==>
            change.status.None? || exists to :: Names(change.status.value, to) && MayBecome(current.status, to))
      && (answer.result.Err? ==> answer.state == s)
      && (answer.result.Ok? && change.status.None? ==> answer.result.value.status == current.status)
      && (answer.result.Ok? && change.status.Some? ==> Names(change.status.value, answer.result.value.status))
  {
    hide NormalizeStatus, AllowedTransitions, Names, MayBecome, Persist;
    forall to: Status
      ensures to in AllowedTransitions(current.status) <==> MayBecome(current.status, to)
      ensures change.status.Some? ==>
          (NormalizeStatus(change.status.value) == Some(to) <==> Names(change.status.value, to))
    {
      AllowedExactlyWhen(current.status, to);
      if change.status.Some? {
        NamesExactlyWhen(change.status.value, to);
      }
    }
    StaysPossible(current.status);
  }

  lemma StaysPossible(status: Status)
    ensures MayBecome(status, status)
  {
  }

  /** No single command takes an open case to an approved one, with risk or without. */
  lemma OpenIsNeverApprovedAtOnce(s: State, cmd: Command)
    requires LoadCaseForBaseline(s, cmd.baseline).Some? && LoadCaseForBaseline(s, cmd.baseline).value.status == Open
    requires Execute(s, cmd).result.Ok?
    ensures Execute(s, cmd).result.value.status != Approved && Execute(s, cmd).result.value.status != ApprovedWithRisk
  {
    hide NormalizeStatus, PayloadChanged, CasePath;
  }

  // ---------------------------------------------------------------------------------
  // What an accepted update sets.
  // ---------------------------------------------------------------------------------

  function Given(asked: Option<string>, current: string): string {
    match asked
    case Some(text) => text
    case None => current
  }

  /** Every argument sets its own field and no other: id and name of the assignee, id and name of the
      reviewer. Whoever asked is the last editor; if nobody, the one before, and otherwise the
      system. What was gathered and the key stay. */
  lemma UpdateSetsWhatIsAsked(s: State, current: Case, change: Change)
    requires UpdateCurrent(s, current, change).result.Ok?
    ensures var c := UpdateCurrent(s, current, change).result.value;
      && c.team.assignee.id == Given(change.assigneeId, current.team.assignee.id)
      && c.team.assignee.name == Given(change.assigneeName, current.team.assignee.name)
      && c.team.reviewer.id == Given(change.reviewerId, current.team.reviewer.id)
      && c.team.reviewer.name == Given(change.reviewerName, current.team.reviewer.name)
      && c.updatedBy
         == (if change.changedBy != "" then change.changedBy
             else if current.updatedBy != "" then current.updatedBy
             else "system")
      && c.key == current.key && c.gathered == current.gathered
  {
    hide PayloadChanged, NormalizeStatus, AllowedTransitions;
  }

  /** What it appends to the logs: the first entry if there is none yet, an entry for a change of
      status, and one for each role that changes hands. */
  lemma UpdateLogsWhatChanges(s: State, current: Case, change: Change)
    requires UpdateCurrent(s, current, change).result.Ok?
    ensures var c := UpdateCurrent(s, current, change).result.value;
      var action := if change.action == "" then "sync" else change.action;
      var first := if current.updatedBy == "" then "system" else current.updatedBy;
      && c.lifecycle
         == current.lifecycle
            + (if current.lifecycle == []
               then [LifecycleEvent("case_initialized", None, current.status, first)] else [])
            + (if c.status != current.status
               then [LifecycleEvent(action, Some(current.status), c.status, c.updatedBy)] else [])
      && c.roles
         == current.roles
            + (if c.team.assignee != current.team.assignee
               then [RoleEntry(Assignee, current.team.assignee, c.team.assignee, c.updatedBy)] else [])
            + (if c.team.reviewer != current.team.reviewer
               then [RoleEntry(FinalReviewer, current.team.reviewer, c.team.reviewer, c.updatedBy)] else [])
  {
    hide PayloadChanged, NormalizeStatus, AllowedTransitions;
  }

  // ---------------------------------------------------------------------------------
  // Where a case is filed, and what is published of it.
  // ---------------------------------------------------------------------------------

  /** The id of a case names its baseline and its report. */
  lemma CaseIdReads(baseline: string, reportId: string)
    ensures CaseId(baseline, reportId)
         == "admission_case:" + baseline + ":" + (if reportId == "" then "unknown" else reportId)
  {
  }

  lemma {:induction false} PathReads(caseId: string, i: nat)
    requires i < |caseId|
    ensures |CasePath(caseId)| == |caseId| && CasePath(caseId)[i] == if caseId[i] == '/' then '_' else caseId[i]
  {
    SafeKeepsLength(caseId);
    if i > 0 {
      PathReads(caseId[1..], i - 1);
    }
  }

  /** A write is published exactly when the decision is final and the contract differs from the one
      before; the contract shows key, revision, status, team, decision and trace as stored. */
  lemma WritePublishesExactlyWhen(s: State, candidate: Case, previous: Option<Case>)
    ensures var c, s' := Persisted(s.files, candidate, previous), Persist(s, candidate, previous);
      var decision := candidate.gathered.decision;
      && c.contract
         == Contract(candidate.key, c.revision, candidate.status, candidate.team, decision, candidate.gathered.trace)
      && s'.outbox
         == s.outbox
            + (if (decision == "pass" || decision == "conditional_pass" || decision == "fail")
                  && (previous == None || previous.value.contract != c.contract)
               then [Event(candidate.key.baseline, c.contract)] else [])
      && s'.index == s.index[candidate.key.baseline := candidate.key.caseId]
      && s'.files == s.files[CasePath(candidate.key.caseId) := c]
      && c == candidate.(revision := c.revision, contract := c.contract)
  {
    hide PayloadChanged, CasePath;
  }

  /** The revision goes by the payload stored under the previous case's id, or under the new one's if
      there is none: one more if that differs in anything besides revision and contract, or is
      missing; and it starts at one. */
  lemma RevisionReads(files: map<string, Case>, candidate: Case, previous: Option<Case>)
    ensures
      var hasId := previous.Some? && previous.value.key.caseId != "";
      var id := if hasId then previous.value.key.caseId else candidate.key.caseId;
      var before := if previous.Some? then previous.value.revision else 0;
      var isKept :=
        && CasePath(id) in files
        && files[CasePath(id)].(revision := 0, contract := candidate.contract) == candidate.(revision := 0);
      Persisted(files, candidate, previous).revision
      == if isKept then (if before < 1 then 1 else before) else if before < 0 then 1 else before + 1
  {
    hide CasePath;
  }

  /** A refresh takes over status, team and logs of the case before, or starts an open case with
      nobody on it; everything else is what was gathered. */
  lemma RefreshReads(baseline: string, inputs: Inputs, previous: Option<Case>)
    ensures var c := Refreshed(baseline, inputs, previous);
      && c.key == Key(CaseId(baseline, inputs.reportId), baseline, inputs.reportId)
      && c.updatedBy == inputs.updatedBy && c.gathered == inputs.gathered
      && match previous
         case None =>
           c.status == Open && c.lifecycle == [] && c.roles == [] && c.team == Team(Person("", ""), Person("", ""))
         case Some(p) => c.status == p.status && c.lifecycle == p.lifecycle && c.roles == p.roles && c.team == p.team
  {
  }
}
