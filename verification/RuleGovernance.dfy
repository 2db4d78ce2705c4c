/** The life of a rule change: candidate, review, publication as a version, rollback. */
module RuleGovernance {
  import opened Wrappers
  import opened GroupBy
  import opened RuleTree
  import opened RulePatch

  /** What the environment decides: the effective rules behind a rule file, and which rule
      objects are valid. */
  datatype Env = Env(effective: Option<Fields> -> Fields, valid: Fields -> bool)

  datatype Decision = Approve | Reject

  datatype Approval = Approval(actor: string, decision: Decision)

  datatype Status = Draft | Approved | Rejected | Published

  datatype Candidate = Candidate(
    status: Status,
    patch: Patch,
    preview: Fields,
    approvals: seq<Approval>,
    required: int)

  datatype Version = Version(
    candidateId: string,
    previousId: string,
    rollbackOf: string,
    content: Fields,
    previousContent: Fields)

  /** The rule file and its governance directory. The last two parts are history that no file
      holds: `log` lists the versions in the order they were written, `reviews` all accepted
      reviews of each candidate. */
  datatype State = State(
    ruleFile: Option<Fields>,
    candidates: map<string, Candidate>,
    versions: map<string, Version>,
    active: string,
    log: seq<string>,
    reviews: map<string, seq<Approval>>)

  datatype Error =
    | NotPermitted
    | InvalidPatch(reason: PatchError)
    | InvalidRules
    | InvalidDecision
    | MissingId
    | NotFound
    | WrongStatus
    | NoRollbackContent

  type Outcome = Result<State, Error>

  // ---------------------------------------------------------------------------------
  // The operations.
  // ---------------------------------------------------------------------------------

  /** The rules an edit or a publication starts from: the file's own, or the effective ones when
      it is missing or empty. */
  function SourceRules(env: Env, file: Option<Fields>): Fields {
    if file.Some? && file.value != map[] then file.value else env.effective(file)
  }

  function AtLeastOne(n: int): int { if n < 1 then 1 else n }

  function SaveCandidate(env: Env, s: State, id: string, raw: Json, required: int, permitted: bool): Outcome {
    if !permitted then Err(NotPermitted)
    else
      match NormalizePatch(raw)
      case Err(reason) => Err(InvalidPatch(reason))
      case Ok(patch) =>
        var preview := Merge(SourceRules(env, s.ruleFile), patch);
        if !env.valid(preview) then Err(InvalidRules)
        else Ok(s.(candidates := s.candidates[id := Candidate(Draft, patch, preview, [], AtLeastOne(required))],
                   reviews := s.reviews[id := []]))
  }

  function ActorOrCli(actor: string): string { if actor == "" then "cli" else actor }

  function ParseDecision(decision: string): Option<Decision> {
    if decision == "approve" then Some(Approve)
    else if decision == "reject" then Some(Reject)
    else None
  }

  function NotBy(actor: string): Approval -> bool { (a: Approval) => a.actor != actor }

  function IsApprove(): Approval -> bool { (a: Approval) => a.decision == Approve }

  /** The approvals after a review: an actor's new decision replaces the earlier one. */
  function Reviewed(approvals: seq<Approval>, approval: Approval): seq<Approval> {
    Filter(approvals, NotBy(approval.actor)) + [approval]
  }

  function ApproveCount(approvals: seq<Approval>): int { |Filter(approvals, IsApprove())| }

  /** An approval inside a candidate payload: `asdict` turns the candidate's own approvals into
      mappings, while an update puts record objects in. */
  datatype PayloadItem = AsMapping(approval: Approval) | AsRecord(approval: Approval)

  /** `_candidate_from_payload` keeps mappings only. */
  function ApprovalsFromPayload(items: seq<PayloadItem>): seq<Approval> {
    if items == [] then []
    else
      var kept := ApprovalsFromPayload(Init(items));
      if Last(items).AsMapping? then kept + [Last(items).approval] else kept
  }

  function ReplaceStatus(c: Candidate, status: Status): Candidate {
    c.(status := status,
       approvals := ApprovalsFromPayload(Map(c.approvals, (a: Approval) => AsMapping(a))))
  }

  function ReplaceStatusAndApprovals(c: Candidate, status: Status, approvals: seq<Approval>): Candidate {
    c.(status := status,
       approvals := ApprovalsFromPayload(Map(approvals, (a: Approval) => AsRecord(a))))
  }

  function ReviewStatus(approvals: seq<Approval>, decision: Decision, required: int): Status {
    if decision == Reject then Rejected
    else if ApproveCount(approvals) >= required then Approved
    else Draft
  }

  function ReviewsOf(reviews: map<string, seq<Approval>>, id: string): seq<Approval> {
    if id in reviews then reviews[id] else []
  }

  function ReviewCandidate(s: State, id: string, actor: string, decision: string, permitted: bool): Outcome {
    if !permitted then Err(NotPermitted)
    else if ParseDecision(decision).None? then Err(InvalidDecision)
    else if id == "" then Err(MissingId)
    else if id !in s.candidates then Err(NotFound)
    else if s.candidates[id].status == Published then Err(WrongStatus)
    else
      var c := s.candidates[id];
      var approval := Approval(ActorOrCli(actor), ParseDecision(decision).value);
      var approvals := Reviewed(c.approvals, approval);
      var status := ReviewStatus(approvals, approval.decision, c.required);
      Ok(s.(candidates := s.candidates[id := ReplaceStatusAndApprovals(c, status, approvals)],
            reviews := s.reviews[id := ReviewsOf(s.reviews, id) + [approval]]))
  }

  /** Write the rule file, file the version and make it the active one. */
  function WriteVersion(s: State, versionId: string, v: Version): State {
    s.(ruleFile := Some(v.content),
       versions := s.versions[versionId := v],
       active := versionId,
       log := s.log + [versionId])
  }

  function PublishCandidate(env: Env, s: State, id: string, versionId: string, permitted: bool): Outcome {
    if !permitted then Err(NotPermitted)
    else if id == "" then Err(MissingId)
    else if id !in s.candidates then Err(NotFound)
    else if s.candidates[id].status != Approved then Err(WrongStatus)
    else
      var c := s.candidates[id];
      if !env.valid(c.preview) then Err(InvalidRules)
      else
        var v := Version(id, s.active, "", c.preview, SourceRules(env, s.ruleFile));
        Ok(WriteVersion(s, versionId, v).(candidates := s.candidates[id := ReplaceStatus(c, Published)]))
  }

  function RollbackVersion(env: Env, s: State, target: string, versionId: string, permitted: bool): Outcome {
    if !permitted then Err(NotPermitted)
    else if target == "" then Err(MissingId)
    else if target !in s.versions then Err(NotFound)
    else
      var v := s.versions[target];
      if v.previousContent == map[] then Err(NoRollbackContent)
      else if !env.valid(v.previousContent) then Err(InvalidRules)
      else Ok(WriteVersion(s, versionId, Version("", s.active, target, v.previousContent, v.content)))
  }

  // ---------------------------------------------------------------------------------
  // Runs.
  // ---------------------------------------------------------------------------------

  datatype Command =
    | Save(id: string, raw: Json, required: int, permitted: bool)
    | Review(id: string, actor: string, decision: string, permitted: bool)
    | Publish(id: string, versionId: string, permitted: bool)
    | Rollback(target: string, versionId: string, permitted: bool)

  function Execute(env: Env, s: State, cmd: Command): Outcome {
    match cmd
    case Save(id, raw, required, permitted) => SaveCandidate(env, s, id, raw, required, permitted)
    case Review(id, actor, decision, permitted) => ReviewCandidate(s, id, actor, decision, permitted)
    case Publish(id, versionId, permitted) => PublishCandidate(env, s, id, versionId, permitted)
    case Rollback(target, versionId, permitted) => RollbackVersion(env, s, target, versionId, permitted)
  }

  /** A refused command changes nothing. */
  function After(s: State, outcome: Outcome): State {
    match outcome
    case Ok(s') => s'
    case Err(_) => s
  }

  function Step(env: Env, s: State, cmd: Command): State { After(s, Execute(env, s, cmd)) }

  /** Newly made identifiers have not been used before. */
  predicate UsesFreshIds(s: State, cmd: Command) {
    match cmd
    case Save(id, _, _, _) => id != "" && id !in s.candidates
    case Review(_, _, _, _) => true
    case Publish(_, versionId, _) => versionId != "" && versionId !in s.versions
    case Rollback(_, versionId, _) => versionId != "" && versionId !in s.versions
  }

  function Initial(file: Option<Fields>): State {
    State(file, map[], map[], "", [], map[])
  }

  /** The state after a run of commands from s. */
  function Run(env: Env, s: State, cmds: seq<Command>): State {
    if cmds == [] then s else Step(env, Run(env, s, Init(cmds)), Last(cmds))
  }

  ghost predicate IsRun(env: Env, s: State, cmds: seq<Command>) {
    cmds != [] ==> IsRun(env, s, Init(cmds)) && UsesFreshIds(Run(env, s, Init(cmds)), Last(cmds))
  }

  lemma {:induction false} RunsCompose(env: Env, s: State, cmds: seq<Command>, more: seq<Command>)
    requires IsRun(env, s, cmds) && IsRun(env, Run(env, s, cmds), more)
    ensures IsRun(env, s, cmds + more) && Run(env, s, cmds + more) == Run(env, Run(env, s, cmds), more)
  {
    if more == [] {
      assert cmds + more == cmds;
    } else {
      assert Init(cmds + more) == cmds + Init(more) && Last(cmds + more) == Last(more);
      RunsCompose(env, s, cmds, Init(more));
    }
  }

  lemma RunOfOne(env: Env, s: State, cmd: Command)
    requires UsesFreshIds(s, cmd)
    ensures IsRun(env, s, [cmd]) && Run(env, s, [cmd]) == Step(env, s, cmd)
  {
    assert Init([cmd]) == [] && Last([cmd]) == cmd;
  }

  // ---------------------------------------------------------------------------------
  // Invariants, one per part of the state.
  // ---------------------------------------------------------------------------------

  function LastOrNone(log: seq<string>): string { if log == [] then "" else Last(log) }

  /** Each version names the one written before it. */
  ghost predicate Linked(versions: map<string, Version>, log: seq<string>) {
    log != [] ==>
      && Last(log) in versions
      && versions[Last(log)].previousId == LastOrNone(Init(log))
      && Linked(versions, Init(log))
  }

  /** The version chain: the active one is the latest version, and the rule file holds its
      content. */
  ghost predicate ChainInv(file: Option<Fields>, versions: map<string, Version>, active: string, log: seq<string>) {
    && NoDuplicates(log)
    && (forall v :: v in versions <==> v in log)
    && Linked(versions, log)
    && "" !in log
    && active == LastOrNone(log)
    && (log != [] ==> file == Some(versions[active].content))
  }

  /** Where each version's contents come from: a published version keeps what its predecessor
      held, a rollback swaps the contents of the version it undoes. */
  ghost predicate OriginInv(versions: map<string, Version>, log: seq<string>) {
    && (forall v :: v in versions <==> v in log)
    && forall i :: 0 <= i < |log| ==> HasOrigin(versions, log, i)
  }

  ghost predicate HasOrigin(versions: map<string, Version>, log: seq<string>, i: nat)
    requires i < |log| && forall v :: v in log ==> v in versions
  {
    var v := versions[log[i]];
    if v.candidateId != "" then
      v.rollbackOf == "" && (i > 0 ==> v.previousContent == versions[log[i - 1]].content)
    else
      && v.rollbackOf in log[..i]
      && v.content == versions[v.rollbackOf].previousContent
      && v.previousContent == versions[v.rollbackOf].content
  }

  /** The status the reviews so far have led to. */
  function StatusAfter(reviews: seq<Approval>, required: int): Status {
    if reviews == [] then Draft
    else if Last(reviews).decision == Reject then Rejected
    else if required <= 1 then Approved
    else Draft
  }

  ghost predicate CandidateInv(c: Candidate, reviews: seq<Approval>) {
    && c.required >= 1
    && c.preview != map[]
    && c.approvals == []
    && (c.status == Published ==> StatusAfter(reviews, c.required) == Approved)
    && (c.status != Published ==> c.status == StatusAfter(reviews, c.required))
  }

  ghost predicate CandidatesInv(candidates: map<string, Candidate>, reviews: map<string, seq<Approval>>) {
    "" !in candidates && forall id :: id in candidates ==> CandidateInv(candidates[id], ReviewsOf(reviews, id))
  }

  ghost predicate ContentsInv(env: Env, versions: map<string, Version>) {
    forall v :: v in versions ==> versions[v].content != map[] && env.valid(versions[v].content)
  }

  /** Versions and published candidates are in one-to-one correspondence, content included. */
  ghost predicate PublicationInv(candidates: map<string, Candidate>, versions: map<string, Version>) {
    && (forall v :: v in versions && versions[v].candidateId != "" ==>
          var id := versions[v].candidateId;
          id in candidates && candidates[id].status == Published && candidates[id].preview == versions[v].content)
    && (forall v, w :: v in versions && w in versions && versions[v].candidateId == versions[w].candidateId != "" ==>
        v == w)
    && (forall id :: id in candidates && candidates[id].status == Published ==>
          exists v :: v in versions && versions[v].candidateId == id)
  }

  ghost predicate Inv(env: Env, s: State) {
    && ChainInv(s.ruleFile, s.versions, s.active, s.log)
    && OriginInv(s.versions, s.log)
    && CandidatesInv(s.candidates, s.reviews)
    && ContentsInv(env, s.versions)
    && PublicationInv(s.candidates, s.versions)
  }

  // ---------------------------------------------------------------------------------
  // Each command keeps the invariant.
  // ---------------------------------------------------------------------------------

  /** Record objects never make it back into a candidate. */
  lemma {:induction false} RecordsAreDropped(approvals: seq<Approval>)
    ensures ApprovalsFromPayload(Map(approvals, (a: Approval) => AsRecord(a))) == []
  {
    if approvals != [] {
      RecordsAreDropped(Init(approvals));
      MapSnoc(Init(approvals), Last(approvals), (a: Approval) => AsRecord(a));
      assert approvals == Init(approvals) + [Last(approvals)];
    }
  }

  /** Approvals that are not replaced do survive. */
  lemma {:induction false} MappingsAreKept(approvals: seq<Approval>)
    ensures ApprovalsFromPayload(Map(approvals, (a: Approval) => AsMapping(a))) == approvals
  {
    if approvals != [] {
      MappingsAreKept(Init(approvals));
      MapSnoc(Init(approvals), Last(approvals), (a: Approval) => AsMapping(a));
      assert approvals == Init(approvals) + [Last(approvals)];
    }
  }

  /** So a review is judged alone, whatever was decided before. */
  /** A candidate that keeps no approvals has just the new one to count. */
  lemma NewApprovalStandsAlone(approval: Approval)
    ensures Reviewed([], approval) == [approval]
    ensures ApproveCount([approval]) == if approval.decision == Approve then 1 else 0
  {
    FilterSnoc([], approval, IsApprove());
    assert [] + [approval] == [approval];
  }

  lemma StatusOfNewApproval(approval: Approval, required: int)
    ensures ReviewStatus(Reviewed([], approval), approval.decision, required)
         == if approval.decision == Reject then Rejected else if required <= 1 then Approved else Draft
  {
    hide Reviewed, ApproveCount;
    NewApprovalStandsAlone(approval);
  }

  lemma ReviewForgets(c: Candidate, reviews: seq<Approval>, approval: Approval)
    requires CandidateInv(c, reviews) && c.status != Published
    ensures var approvals := Reviewed(c.approvals, approval);
      CandidateInv(ReplaceStatusAndApprovals(c, ReviewStatus(approvals, approval.decision, c.required), approvals),
          reviews + [approval])
  {
    hide ApprovalsFromPayload, Reviewed, ReviewStatus;
    RecordsAreDropped(Reviewed([], approval));
    StatusOfNewApproval(approval, c.required);
    assert Last(reviews + [approval]) == approval;
  }

  /** A draft that has had no reviews. */
  lemma NewCandidateIsDraft(source: Fields, raw: Json, required: int)
    requires NormalizePatch(raw).Ok?
    ensures var patch := NormalizePatch(raw).value;
      CandidateInv(Candidate(Draft, patch, Merge(source, patch), [], AtLeastOne(required)), [])
  {
    var patch := NormalizePatch(raw).value;
    AcceptedExactlyWhenClean(raw);
    var section :| section in patch;
    assert section in Merge(source, patch);
  }

  lemma UpdateKeepsCandidates(candidates: map<string, Candidate>, reviews: map<string, seq<Approval>>, id: string,
      c: Candidate, rs: seq<Approval>)
    requires CandidatesInv(candidates, reviews) && id != "" && CandidateInv(c, rs)
    ensures CandidatesInv(candidates[id := c], reviews[id := rs])
  {
    var candidates', reviews' := candidates[id := c], reviews[id := rs];
    forall i | i in candidates'
      ensures CandidateInv(candidates'[i], ReviewsOf(reviews', i))
    {
      if i != id {
        assert CandidateInv(candidates[i], ReviewsOf(reviews, i));
      }
    }
  }

  lemma UnpublishedUpdateKeepsPublications(candidates: map<string, Candidate>, versions: map<string, Version>,
      id: string, c: Candidate)
    requires PublicationInv(candidates, versions)
    requires id in candidates ==> candidates[id].status != Published
    requires c.status != Published
    ensures PublicationInv(candidates[id := c], versions)
  {
  }

  lemma NewVersionKeepsChain(file: Option<Fields>, versions: map<string, Version>, active: string, log: seq<string>,
      versionId: string, v: Version)
    requires ChainInv(file, versions, active, log)
    requires versionId != "" && versionId !in versions && v.previousId == active
    ensures ChainInv(Some(v.content), versions[versionId := v], versionId, log + [versionId])
  {
    var log' := log + [versionId];
    assert Init(log') == log && Last(log') == versionId;
    MoreVersionsKeepLinks(versions, log, versionId, v);
    assert NoDuplicates(log');
  }

  lemma {:induction false} MoreVersionsKeepLinks(versions: map<string, Version>, log: seq<string>,
      versionId: string, v: Version)
    requires Linked(versions, log) && versionId !in log
    ensures Linked(versions[versionId := v], log)
  {
    if log != [] {
      MoreVersionsKeepLinks(versions, Init(log), versionId, v);
      assert Last(log) in log;
    }
  }

  lemma NewVersionKeepsContents(env: Env, versions: map<string, Version>, versionId: string, v: Version)
    requires ContentsInv(env, versions) && v.content != map[] && env.valid(v.content)
    ensures ContentsInv(env, versions[versionId := v])
  {
  }

  lemma NewVersionKeepsOrigins(versions: map<string, Version>, log: seq<string>, versionId: string, v: Version)
    requires OriginInv(versions, log) && versionId !in versions
    requires HasOrigin(versions[versionId := v], log + [versionId], |log|)
    ensures OriginInv(versions[versionId := v], log + [versionId])
  {
    var versions', log' := versions[versionId := v], log + [versionId];
    forall i | 0 <= i < |log'|
      ensures HasOrigin(versions', log', i)
    {
      if i < |log| {
        assert HasOrigin(versions, log, i) && log'[i] == log[i] && log[i] in log;
        assert log'[..i] == log[..i] && forall w :: w in log[..i] ==> w in log;
        assert i > 0 ==> log[i - 1] in log;
      }
    }
  }

  lemma PublishingKeepsPublications(candidates: map<string, Candidate>, versions: map<string, Version>, id: string,
      versionId: string, c: Candidate, v: Version)
    requires PublicationInv(candidates, versions) && "" !in candidates
    requires id in candidates && candidates[id].status != Published && versionId !in versions
    requires c.status == Published && v.candidateId == id && v.content == c.preview
    ensures PublicationInv(candidates[id := c], versions[versionId := v])
  {
    var versions', candidates' := versions[versionId := v], candidates[id := c];
    forall i | i in candidates' && candidates'[i].status == Published
      ensures exists w :: w in versions' && versions'[w].candidateId == i
    {
      if i == id {
        assert versions'[versionId].candidateId == i;
      } else {
        var w :| w in versions && versions[w].candidateId == i;
        assert versions'[w].candidateId == i;
      }
    }
  }

  lemma RollingBackKeepsPublications(candidates: map<string, Candidate>, versions: map<string, Version>,
      versionId: string, v: Version)
    requires PublicationInv(candidates, versions) && versionId !in versions && v.candidateId == ""
    requires "" !in candidates
    ensures PublicationInv(candidates, versions[versionId := v])
  {
    var versions' := versions[versionId := v];
    forall i | i in candidates && candidates[i].status == Published
      ensures exists w :: w in versions' && versions'[w].candidateId == i
    {
      var w :| w in versions && versions[w].candidateId == i;
      assert versions'[w].candidateId == i;
    }
  }

  lemma SaveKeepsInv(env: Env, s: State, id: string, raw: Json, required: int)
    requires Inv(env, s) && id != "" && id !in s.candidates
    ensures Inv(env, After(s, SaveCandidate(env, s, id, raw, required, true)))
  {
    if NormalizePatch(raw).Ok? {
      var source := SourceRules(env, s.ruleFile);
      var patch := NormalizePatch(raw).value;
      var c := Candidate(Draft, patch, Merge(source, patch), [], AtLeastOne(required));
      NewCandidateIsDraft(source, raw, required);
      UpdateKeepsCandidates(s.candidates, s.reviews, id, c, []);
      UnpublishedUpdateKeepsPublications(s.candidates, s.versions, id, c);
    }
  }

  lemma ReviewKeepsInv(env: Env, s: State, id: string, actor: string, decision: string)
    requires Inv(env, s)
    ensures Inv(env, After(s, ReviewCandidate(s, id, actor, decision, true)))
  {
    if ReviewCandidate(s, id, actor, decision, true).Ok? {
      var c, rs := s.candidates[id], ReviewsOf(s.reviews, id);
      var approval := Approval(ActorOrCli(actor), ParseDecision(decision).value);
      var approvals := Reviewed(c.approvals, approval);
      var c' := ReplaceStatusAndApprovals(c, ReviewStatus(approvals, approval.decision, c.required), approvals);
      assert CandidateInv(c, rs);
      ReviewForgets(c, rs, approval);
      UpdateKeepsCandidates(s.candidates, s.reviews, id, c', rs + [approval]);
      UnpublishedUpdateKeepsPublications(s.candidates, s.versions, id, c');
    }
  }

  lemma PublishKeepsInv(env: Env, s: State, id: string, versionId: string)
    requires Inv(env, s) && versionId != "" && versionId !in s.versions
    ensures Inv(env, After(s, PublishCandidate(env, s, id, versionId, true)))
  {
    if PublishCandidate(env, s, id, versionId, true).Ok? {
      var c, rs := s.candidates[id], ReviewsOf(s.reviews, id);
      var v := Version(id, s.active, "", c.preview, SourceRules(env, s.ruleFile));
      assert CandidateInv(c, rs);
      var t := After(s, PublishCandidate(env, s, id, versionId, true));
      assert ChainInv(t.ruleFile, t.versions, t.active, t.log) by {
        NewVersionKeepsChain(s.ruleFile, s.versions, s.active, s.log, versionId, v);
      }
      assert OriginInv(t.versions, t.log) by {
        PublishedHasOrigin(env, s, versionId, v);
        NewVersionKeepsOrigins(s.versions, s.log, versionId, v);
      }
      assert CandidatesInv(t.candidates, t.reviews) by {
        UpdateKeepsPublished(s.candidates, s.reviews, id);
      }
      assert ContentsInv(env, t.versions) by {
        NewVersionKeepsContents(env, s.versions, versionId, v);
      }
      assert PublicationInv(t.candidates, t.versions) by {
        PublishingKeepsPublications(s.candidates, s.versions, id, versionId, ReplaceStatus(c, Published), v);
      }
    }
  }

  lemma UpdateKeepsPublished(candidates: map<string, Candidate>, reviews: map<string, seq<Approval>>, id: string)
    requires CandidatesInv(candidates, reviews) && id in candidates && candidates[id].status == Approved
    ensures CandidatesInv(candidates[id := ReplaceStatus(candidates[id], Published)], reviews)
  {
    var candidates' := candidates[id := ReplaceStatus(candidates[id], Published)];
    forall i | i in candidates'
      ensures CandidateInv(candidates'[i], ReviewsOf(reviews, i))
    {
      assert CandidateInv(candidates[i], ReviewsOf(reviews, i));
    }
  }

  lemma PublishedHasOrigin(env: Env, s: State, versionId: string, v: Version)
    requires Inv(env, s) && versionId !in s.versions
    requires v.candidateId != "" && v.rollbackOf == "" && v.previousContent == SourceRules(env, s.ruleFile)
    ensures forall w :: w in s.log + [versionId] ==> w in s.versions[versionId := v]
    ensures HasOrigin(s.versions[versionId := v], s.log + [versionId], |s.log|)
  {
    if s.log != [] {
      assert s.active == s.log[|s.log| - 1] && s.active in s.log && s.ruleFile == Some(s.versions[s.active].content);
    }
  }

  lemma RollbackKeepsInv(env: Env, s: State, target: string, versionId: string)
    requires Inv(env, s) && versionId != "" && versionId !in s.versions
    ensures Inv(env, After(s, RollbackVersion(env, s, target, versionId, true)))
  {
    if RollbackVersion(env, s, target, versionId, true).Ok? {
      var t := s.versions[target];
      var v := Version("", s.active, target, t.previousContent, t.content);
      NewVersionKeepsChain(s.ruleFile, s.versions, s.active, s.log, versionId, v);
      assert (s.log + [versionId])[..|s.log|] == s.log;
      NewVersionKeepsOrigins(s.versions, s.log, versionId, v);
      RollingBackKeepsPublications(s.candidates, s.versions, versionId, v);
    }
  }

  lemma StepKeepsInv(env: Env, s: State, cmd: Command)
    requires Inv(env, s) && UsesFreshIds(s, cmd)
    ensures Inv(env, Step(env, s, cmd))
  {
    if cmd.permitted {
      match cmd
      case Save(id, raw, required, _) => SaveKeepsInv(env, s, id, raw, required);
      case Review(id, actor, decision, _) => ReviewKeepsInv(env, s, id, actor, decision);
      case Publish(id, versionId, _) => PublishKeepsInv(env, s, id, versionId);
      case Rollback(target, versionId, _) => RollbackKeepsInv(env, s, target, versionId);
    }
  }

  lemma {:induction false} RunKeepsInv(env: Env, s: State, cmds: seq<Command>)
    requires Inv(env, s) && IsRun(env, s, cmds)
    ensures Inv(env, Run(env, s, cmds))
  {
    if cmds != [] {
      RunKeepsInv(env, s, Init(cmds));
      StepKeepsInv(env, Run(env, s, Init(cmds)), Last(cmds));
    }
  }

  lemma EveryReachableState(env: Env, file: Option<Fields>, cmds: seq<Command>)
    requires IsRun(env, Initial(file), cmds)
    ensures Inv(env, Run(env, Initial(file), cmds))
  {
    RunKeepsInv(env, Initial(file), cmds);
  }

  // ---------------------------------------------------------------------------------
  // The version chain.
  // ---------------------------------------------------------------------------------

  /** The versions met by following `previous_version_id` from id, at most so many steps. */
  function Follow(versions: map<string, Version>, id: string, steps: nat): seq<string>
    decreases steps
  {
    if steps == 0 || id !in versions then [] else [id] + Follow(versions, versions[id].previousId, steps - 1)
  }

  function Reverse(ids: seq<string>): seq<string> {
    if ids == [] then [] else [Last(ids)] + Reverse(Init(ids))
  }

  lemma {:induction false} ReverseKeepsElements(ids: seq<string>)
    ensures forall id :: id in ids <==> id in Reverse(ids)
  {
    if ids != [] {
      assert ids == Init(ids) + [Last(ids)];
      ReverseKeepsElements(Init(ids));
    }
  }

  lemma {:induction false} ReverseKeepsNoDuplicates(ids: seq<string>)
    requires NoDuplicates(ids)
    ensures NoDuplicates(Reverse(ids))
  {
    if ids != [] {
      var rest := Reverse(Init(ids));
      assert ids == Init(ids) + [Last(ids)];
      assert NoDuplicates(Init(ids)) && Last(ids) !in Init(ids);
      ReverseKeepsNoDuplicates(Init(ids));
      ReverseKeepsElements(Init(ids));
      assert forall i :: 0 <= i < |rest| ==> rest[i] in rest;
    }
  }

  lemma {:induction false} FollowIsReverse(versions: map<string, Version>, log: seq<string>, steps: nat)
    requires Linked(versions, log) && "" !in versions && steps >= |log|
    ensures Follow(versions, LastOrNone(log), steps) == Reverse(log)
  {
    if log != [] {
      FollowIsReverse(versions, Init(log), steps - 1);
    }
  }

  lemma {:induction false} FirstHasNoPredecessor(versions: map<string, Version>, log: seq<string>)
    requires Linked(versions, log) && log != []
    ensures log[0] in versions && versions[log[0]].previousId == ""
  {
    if |log| > 1 {
      FirstHasNoPredecessor(versions, Init(log));
    }
  }

  lemma ChainIsLog(file: Option<Fields>, versions: map<string, Version>, active: string, log: seq<string>, steps: nat)
    requires ChainInv(file, versions, active, log) && steps >= |versions|
    ensures var chain := Follow(versions, active, steps);
      && chain == Reverse(log)
      && NoDuplicates(chain)
      && (forall v :: v in versions <==> v in chain)
      && (chain != [] ==> versions[Last(chain)].previousId == "")
  {
    AsManyVersionsAsLogged(versions, log);
    FollowIsReverse(versions, log, steps);
    ReverseKeepsElements(log);
    ReverseKeepsNoDuplicates(log);
    LastOfReverse(log);
    if log != [] {
      FirstHasNoPredecessor(versions, log);
    }
  }

  /** In every reachable state the rule file is the content of the active version, once there is
      one, and following the chain from it visits every version exactly once, latest first. */
  lemma ChainVisitsEveryVersionOnce(env: Env, file: Option<Fields>, cmds: seq<Command>, steps: nat)
    requires IsRun(env, Initial(file), cmds)
    requires steps >= |Run(env, Initial(file), cmds).versions|
    ensures var s := Run(env, Initial(file), cmds); var chain := Follow(s.versions, s.active, steps);
      && (s.versions != map[] ==> s.active in s.versions && s.ruleFile == Some(s.versions[s.active].content))
      && (s.versions == map[] ==> s.ruleFile == file)
      && chain == Reverse(s.log)
      && NoDuplicates(chain)
      && (forall v :: v in s.versions <==> v in chain)
      && (chain != [] ==> s.versions[Last(chain)].previousId == "")
  {
    EveryReachableState(env, file, cmds);
    var s := Run(env, Initial(file), cmds);
    ChainIsLog(s.ruleFile, s.versions, s.active, s.log, steps);
    AsManyVersionsAsLogged(s.versions, s.log);
    if s.log == [] {
      FileStaysUntilFirstVersion(env, file, cmds);
    } else {
      assert s.active in s.log;
    }
  }

  lemma AsManyVersionsAsLogged(versions: map<string, Version>, log: seq<string>)
    requires NoDuplicates(log) && forall v :: v in versions <==> v in log
    ensures |versions| == |log| && (versions == map[] <==> log == [])
  {
    ElementsOfDistinct(log);
    assert versions.Keys == Elements(log);
    assert |versions.Keys| == |versions|;
    if log != [] {
      assert log[0] in versions;
    }
  }

  lemma {:induction false} ElementsOfDistinct(log: seq<string>)
    requires NoDuplicates(log)
    ensures |Elements(log)| == |log|
  {
    if log != [] {
      ElementsOfDistinct(Init(log));
      assert log == Init(log) + [Last(log)];
      assert Elements(log) == Elements(Init(log)) + {Last(log)};
      assert Last(log) !in Init(log);
    }
  }

  lemma {:induction false} LastOfReverse(ids: seq<string>)
    ensures ids != [] ==> Reverse(ids) != [] && Last(Reverse(ids)) == ids[0]
  {
    if |ids| > 1 {
      LastOfReverse(Init(ids));
      assert Last([Last(ids)] + Reverse(Init(ids))) == Last(Reverse(Init(ids)));
    } else if |ids| == 1 {
      assert Reverse(ids) == [Last(ids)];
    }
  }

  lemma {:induction false} FileStaysUntilFirstVersion(env: Env, file: Option<Fields>, cmds: seq<Command>)
    requires IsRun(env, Initial(file), cmds) && Run(env, Initial(file), cmds).log == []
    ensures Run(env, Initial(file), cmds).ruleFile == file
  {
    if cmds != [] {
      StepWritesFileOrLog(env, Run(env, Initial(file), Init(cmds)), Last(cmds));
      FileStaysUntilFirstVersion(env, file, Init(cmds));
    }
  }

  lemma StepWritesFileOrLog(env: Env, s: State, cmd: Command)
    ensures Step(env, s, cmd).log == [] ==> s.log == [] && Step(env, s, cmd).ruleFile == s.ruleFile
  {
  }

  // ---------------------------------------------------------------------------------
  // Publication and rollback undo each other.
  // ---------------------------------------------------------------------------------

  lemma VersionsAreKept(env: Env, s: State, cmd: Command, v: string)
    requires UsesFreshIds(s, cmd) && v in s.versions
    ensures v in Step(env, s, cmd).versions && Step(env, s, cmd).versions[v] == s.versions[v]
  {
  }

  /** A version, once filed, never changes. */
  lemma {:induction false} VersionsNeverChange(env: Env, s: State, cmds: seq<Command>, v: string)
    requires IsRun(env, s, cmds) && v in s.versions
    ensures v in Run(env, s, cmds).versions && Run(env, s, cmds).versions[v] == s.versions[v]
  {
    if cmds != [] {
      VersionsNeverChange(env, s, Init(cmds), v);
      VersionsAreKept(env, Run(env, s, Init(cmds)), Last(cmds), v);
    }
  }

  /** Publish a candidate, let anything happen, then roll the version back: the rule file again
      holds the rules from before the publication. The rollback is refused exactly when it is not
      permitted or those rules were empty or are invalid. */
  lemma RollbackUndoesPublication(env: Env, s: State, id: string, v: string, cmds: seq<Command>, r: string,
      permitted: bool)
    requires v != "" && v !in s.versions && PublishCandidate(env, s, id, v, true).Ok?
    requires IsRun(env, PublishCandidate(env, s, id, v, true).value, cmds)
    ensures var before := SourceRules(env, s.ruleFile);
      var t := Run(env, PublishCandidate(env, s, id, v, true).value, cmds);
      var outcome := RollbackVersion(env, t, v, r, permitted);
      && (outcome.Ok? <==> permitted && before != map[] && env.valid(before))
      && (outcome.Ok? ==> outcome.value.ruleFile == Some(before))
  {
    VersionsNeverChange(env, PublishCandidate(env, s, id, v, true).value, cmds, v);
  }

  /** Rolling back a rollback is never refused for its content, and puts back what the version
      that was rolled back had written, whatever happened in between. */
  lemma RollbackOfRollback(env: Env, s: State, v: string, r: string, cmds: seq<Command>, r': string)
    requires Inv(env, s) && v in s.versions
    requires r != "" && r !in s.versions && RollbackVersion(env, s, v, r, true).Ok?
    requires IsRun(env, RollbackVersion(env, s, v, r, true).value, cmds)
    ensures var t := Run(env, RollbackVersion(env, s, v, r, true).value, cmds);
      && RollbackVersion(env, t, r, r', true).Ok?
      && RollbackVersion(env, t, r, r', true).value.ruleFile == Some(s.versions[v].content)
  {
    VersionsNeverChange(env, RollbackVersion(env, s, v, r, true).value, cmds, r);
  }

  /** It therefore undoes the first rollback exactly when that one started from the content of
      the version it named, as it does for the active version. */
  lemma SecondRollbackUndoesFirstExactlyWhen(env: Env, s: State, v: string, r: string, r': string)
    requires Inv(env, s) && v in s.versions
    requires r != "" && r !in s.versions && RollbackVersion(env, s, v, r, true).Ok?
    ensures var t := RollbackVersion(env, s, v, r, true).value;
      && s.active in s.versions
      && RollbackVersion(env, t, r, r', true).Ok?
      && (RollbackVersion(env, t, r, r', true).value.ruleFile == s.ruleFile
          <==> s.versions[v].content == s.versions[s.active].content)
  {
  }

  // ---------------------------------------------------------------------------------
  // What a publication publishes.
  // ---------------------------------------------------------------------------------

  lemma PreviewIsKept(env: Env, s: State, cmd: Command, id: string)
    requires UsesFreshIds(s, cmd) && id in s.candidates
    ensures id in Step(env, s, cmd).candidates && Step(env, s, cmd).candidates[id].preview == s.candidates[id].preview
  {
  }

  /** Nothing changes the preview of a saved candidate. */
  lemma {:induction false} PreviewNeverChanges(env: Env, s: State, cmds: seq<Command>, id: string)
    requires IsRun(env, s, cmds) && id in s.candidates
    ensures id in Run(env, s, cmds).candidates && Run(env, s, cmds).candidates[id].preview == s.candidates[id].preview
  {
    if cmds != [] {
      PreviewNeverChanges(env, s, Init(cmds), id);
      PreviewIsKept(env, Run(env, s, Init(cmds)), Last(cmds), id);
    }
  }

  /** Save a candidate, let anything happen, then publish it: every patched field has its value,
      and outside the patch the rules are again those from the time of the save, whatever was
      published in between. */
  lemma PublicationBuildsOnRulesAtSave(env: Env, s: State, id: string, raw: Json, required: int, cmds: seq<Command>,
      v: string, path: Path)
    requires id != "" && id !in s.candidates && SaveCandidate(env, s, id, raw, required, true).Ok?
    requires IsRun(env, SaveCandidate(env, s, id, raw, required, true).value, cmds)
    requires PublishCandidate(env, Run(env, SaveCandidate(env, s, id, raw, required, true).value, cmds), id, v,
        true).Ok?
    ensures var patch, before := NormalizePatch(raw).value, SourceRules(env, s.ruleFile);
      var file := PublishCandidate(env, Run(env, SaveCandidate(env, s, id, raw, required, true).value, cmds), id, v,
          true).value.ruleFile;
      && file.Some?
      && (forall section, f :: section in patch && f in patch[section] ==>
          Lookup(Obj(file.value), [section, f]) == Some(patch[section][f]))
      && (path != [] && !Touches(patch, path) ==> Lookup(Obj(file.value), path) == Lookup(Obj(before), path))
  {
    var patch, before := NormalizePatch(raw).value, SourceRules(env, s.ruleFile);
    PreviewNeverChanges(env, SaveCandidate(env, s, id, raw, required, true).value, cmds, id);
    forall section, f | section in patch && f in patch[section]
      ensures Lookup(Obj(Merge(before, patch)), [section, f]) == Some(patch[section][f])
    {
      MergeSetsExactlyThePatchedFields(before, patch, section, f);
    }
    if path != [] && !Touches(patch, path) {
      SameOutsidePatch(before, patch, path);
    }
  }

  /** So a publication changes just the patched fields of the rules in force exactly when these
      agree with the rules at the time of the save outside the patch. */
  lemma PublicationKeepsRulesInForceExactlyWhen(env: Env, s: State, id: string, raw: Json, required: int,
      cmds: seq<Command>, v: string)
    requires id != "" && id !in s.candidates && SaveCandidate(env, s, id, raw, required, true).Ok?
    requires IsRun(env, SaveCandidate(env, s, id, raw, required, true).value, cmds)
    requires PublishCandidate(env, Run(env, SaveCandidate(env, s, id, raw, required, true).value, cmds), id, v,
        true).Ok?
    ensures var patch := NormalizePatch(raw).value;
      var t := Run(env, SaveCandidate(env, s, id, raw, required, true).value, cmds);
      var atSave, inForce := SourceRules(env, s.ruleFile), SourceRules(env, t.ruleFile);
      PublishCandidate(env, t, id, v, true).value.ruleFile == Some(Merge(inForce, patch))
      <==> AgreeOutside(inForce, atSave, patch)
  {
    hide AgreeOutside;
    var t := Run(env, SaveCandidate(env, s, id, raw, required, true).value, cmds);
    PreviewNeverChanges(env, SaveCandidate(env, s, id, raw, required, true).value, cmds, id);
    MergesAgreeExactlyWhen(SourceRules(env, t.ruleFile), SourceRules(env, s.ruleFile), NormalizePatch(raw).value);
  }

  // ---------------------------------------------------------------------------------
  // Runs that publish, and what they lose.
  // ---------------------------------------------------------------------------------

  /** A saved candidate that needs one approval. */
  predicate Awaits(s: State, id: string, status: Status, preview: Fields) {
    && id in s.candidates && s.candidates[id].status == status && s.candidates[id].preview == preview
    && s.candidates[id].approvals == [] && s.candidates[id].required == 1
  }

  lemma SaveStep(env: Env, s: State, id: string, raw: Json)
    requires id != "" && id !in s.candidates && NormalizePatch(raw).Ok?
    requires env.valid(Merge(SourceRules(env, s.ruleFile), NormalizePatch(raw).value))
    ensures var t := Step(env, s, Save(id, raw, 1, true));
      && Awaits(t, id, Draft, Merge(SourceRules(env, s.ruleFile), NormalizePatch(raw).value))
      && t.candidates == s.candidates[id := t.candidates[id]]
      && t.ruleFile == s.ruleFile && t.versions == s.versions && t.active == s.active
  {
  }

  lemma ApproveStep(env: Env, s: State, id: string, actor: string, preview: Fields)
    requires id != "" && Awaits(s, id, Draft, preview)
    ensures var t := Step(env, s, Review(id, actor, "approve", true));
      && Awaits(t, id, Approved, preview)
      && t.candidates == s.candidates[id := t.candidates[id]]
      && t.ruleFile == s.ruleFile && t.versions == s.versions && t.active == s.active
  {
    hide ReplaceStatusAndApprovals, ReviewStatus, Reviewed;
    OneApprovalApproves(s.candidates[id], Approval(ActorOrCli(actor), Approve));
  }

  lemma OneApprovalApproves(c: Candidate, approval: Approval)
    requires c.approvals == [] && c.required == 1 && approval.decision == Approve
    ensures var approvals := Reviewed(c.approvals, approval);
      ReplaceStatusAndApprovals(c, ReviewStatus(approvals, Approve, 1), approvals) == c.(status := Approved)
  {
    hide ApprovalsFromPayload, Reviewed, ReviewStatus;
    RecordsAreDropped(Reviewed([], approval));
    StatusOfNewApproval(approval, 1);
  }

  lemma PublishStep(env: Env, s: State, id: string, v: string, preview: Fields)
    requires id != "" && Awaits(s, id, Approved, preview) && env.valid(preview)
    ensures var t := Step(env, s, Publish(id, v, true));
      && t.ruleFile == Some(preview) && t.active == v
      && t.candidates == s.candidates[id := ReplaceStatus(s.candidates[id], Published)]
      && t.versions == s.versions[v := Version(id, s.active, "", preview, SourceRules(env, s.ruleFile))]
  {
  }

  /** The commands that take a saved candidate to the rule file. */
  function ApproveAndPublish(id: string, v: string): seq<Command> {
    [Review(id, "ann", "approve", true), Publish(id, v, true)]
  }

  lemma ApprovedAndPublished(env: Env, s: State, id: string, v: string, preview: Fields)
    requires id != "" && Awaits(s, id, Draft, preview) && env.valid(preview) && v != "" && v !in s.versions
    ensures var cmds := ApproveAndPublish(id, v);
      && IsRun(env, s, cmds)
      && var t := Run(env, s, cmds);
      && t.ruleFile == Some(preview) && t.active == v
      && t.versions == s.versions[v := Version(id, s.active, "", preview, SourceRules(env, s.ruleFile))]
      && t.candidates.Keys == s.candidates.Keys
      && forall other :: other != id && other in s.candidates ==> t.candidates[other] == s.candidates[other]
  {
    hide Step, Awaits;
    var review, publish := Review(id, "ann", "approve", true), Publish(id, v, true);
    var reviewed := Step(env, s, review);
    ApproveStep(env, s, id, "ann", preview);
    PublishStep(env, reviewed, id, v, preview);
    RunOfOne(env, s, review);
    RunOfOne(env, reviewed, publish);
    RunsCompose(env, s, [review], [publish]);
    assert ApproveAndPublish(id, v) == [review] + [publish];
    assert id in s.candidates && id in reviewed.candidates by {
      AwaitsIsSaved(s, id, Draft, preview);
      AwaitsIsSaved(reviewed, id, Approved, preview);
    }
  }

  lemma AwaitsIsSaved(s: State, id: string, status: Status, preview: Fields)
    requires Awaits(s, id, status, preview)
    ensures id in s.candidates
  {
  }

  function TwoSaves(c: string, raw: Json, c': string, raw': Json): seq<Command> {
    [Save(c, raw, 1, true), Save(c', raw', 1, true)]
  }

  lemma BothSaved(env: Env, s: State, c: string, raw: Json, c': string, raw': Json)
    requires c != "" && c' != "" && c != c' && c !in s.candidates && c' !in s.candidates
    requires NormalizePatch(raw).Ok? && env.valid(Merge(SourceRules(env, s.ruleFile), NormalizePatch(raw).value))
    requires NormalizePatch(raw').Ok? && env.valid(Merge(SourceRules(env, s.ruleFile), NormalizePatch(raw').value))
    ensures var cmds := TwoSaves(c, raw, c', raw');
      && IsRun(env, s, cmds)
      && var t := Run(env, s, cmds);
      && t.ruleFile == s.ruleFile && t.versions == s.versions
      && Awaits(t, c, Draft, Merge(SourceRules(env, s.ruleFile), NormalizePatch(raw).value))
      && Awaits(t, c', Draft, Merge(SourceRules(env, s.ruleFile), NormalizePatch(raw').value))
  {
    hide Step, NormalizePatch, SourceRules, Merge;
    var first, second := Save(c, raw, 1, true), Save(c', raw', 1, true);
    var once := Step(env, s, first);
    SaveStep(env, s, c, raw);
    SaveStep(env, once, c', raw');
    RunOfOne(env, s, first);
    RunOfOne(env, once, second);
    RunsCompose(env, s, [first], [second]);
    assert TwoSaves(c, raw, c', raw') == [first] + [second];
  }

  /** Two candidates are saved from the same rules and published one after the other: a field
      only the first one patches is back to what it was, and the update is lost. */
  lemma LaterPublicationUndoesEarlier(env: Env, s: State, c: string, raw: Json, v: string,
      c': string, raw': Json, v': string, section: string, f: string)
    requires c != "" && c' != "" && c != c' && c !in s.candidates && c' !in s.candidates
    requires v != "" && v' != "" && v != v' && v !in s.versions && v' !in s.versions
    requires NormalizePatch(raw).Ok? && env.valid(Merge(SourceRules(env, s.ruleFile), NormalizePatch(raw).value))
    requires NormalizePatch(raw').Ok? && env.valid(Merge(SourceRules(env, s.ruleFile), NormalizePatch(raw').value))
    requires section in NormalizePatch(raw).value && f in NormalizePatch(raw).value[section]
    requires !(section in NormalizePatch(raw').value && f in NormalizePatch(raw').value[section])
    ensures var first := TwoSaves(c, raw, c', raw') + ApproveAndPublish(c, v);
      var both := first + ApproveAndPublish(c', v');
      && IsRun(env, s, first) && IsRun(env, s, both)
      && var mid, end := Run(env, s, first).ruleFile, Run(env, s, both).ruleFile;
      && mid.Some? && Lookup(Obj(mid.value), [section, f]) == Some(NormalizePatch(raw).value[section][f])
      && end.Some? && Lookup(Obj(end.value), [section, f]) == Lookup(Obj(SourceRules(env, s.ruleFile)), [section, f])
  {
    hide Step, NormalizePatch, SourceRules, Merge, Lookup;
    var before, patch, patch' := SourceRules(env, s.ruleFile), NormalizePatch(raw).value, NormalizePatch(raw').value;
    var saves, one, two := TwoSaves(c, raw, c', raw'), ApproveAndPublish(c, v), ApproveAndPublish(c', v');
    BothSaved(env, s, c, raw, c', raw');
    var saved := Run(env, s, saves);
    ApprovedAndPublished(env, saved, c, v, Merge(before, patch));
    var mid := Run(env, saved, one);
    ApprovedAndPublished(env, mid, c', v', Merge(before, patch'));
    RunsCompose(env, s, saves, one);
    RunsCompose(env, s, saves + one, two);
    MergeSetsExactlyThePatchedFields(before, patch, section, f);
    MergeSetsExactlyThePatchedFields(before, patch', section, f);
  }

  /** An environment that finds all rules valid. */
  function Lenient(): Env { Env((file: Option<Fields>) => map["fingerprint" := Obj(map[])], (rules: Fields) => true) }

  /** An edit of the version of one section. */
  function VersionEdit(section: string, version: string): Json {
    Obj(map[section := Obj(map["version" := Str(version)])])
  }

  lemma VersionEditIsAccepted(section: string, version: string)
    requires section in EDITABLE_FIELDS
    ensures NormalizePatch(VersionEdit(section, version)) == Ok(map[section := map["version" := Str(version)]])
  {
    OneFieldIsAcceptedExactlyWhen(section, "version", Str(version));
  }

  /** For instance, from an empty rule directory: a fingerprint version and a regression version
      are saved and published, and the fingerprint version is gone. */
  lemma LostUpdate()
    ensures var env, s := Lenient(), Initial(None);
      var first := TwoSaves("a", VersionEdit("fingerprint", "2"), "b", VersionEdit("regression", "3"))
          + ApproveAndPublish("a", "v");
      var both := first + ApproveAndPublish("b", "w");
      && IsRun(env, s, first) && IsRun(env, s, both)
      && var mid, end := Run(env, s, first).ruleFile, Run(env, s, both).ruleFile;
      && mid.Some? && Lookup(Obj(mid.value), ["fingerprint", "version"]) == Some(Str("2"))
      && end.Some? && Lookup(Obj(end.value), ["fingerprint", "version"]) == None
  {
    hide NormalizePatch, Merge, Run, IsRun;
    var env, s := Lenient(), Initial(None);
    VersionEditIsAccepted("fingerprint", "2");
    VersionEditIsAccepted("regression", "3");
    assert "fingerprint"[0] != "regression"[0] && "a"[0] != "b"[0] && "v"[0] != "w"[0];
    LaterPublicationUndoesEarlier(env, s, "a", VersionEdit("fingerprint", "2"), "v",
      "b", VersionEdit("regression", "3"), "w", "fingerprint", "version");
    NoVersionYet();
  }

  lemma NoVersionYet()
    ensures SourceRules(Lenient(), None) == map["fingerprint" := Obj(map[])]
    ensures Lookup(Obj(map["fingerprint" := Obj(map[])]), ["fingerprint", "version"]) == None
  {
    LookupField(Obj(map["fingerprint" := Obj(map[])]), "fingerprint", "version");
  }

  function PublishEdit(c: string, raw: Json, v: string): seq<Command> {
    [Save(c, raw, 1, true)] + ApproveAndPublish(c, v)
  }

  /** A valid edit that needs one approval reaches the rule file in three commands. */
  lemma EditIsPublished(env: Env, s: State, c: string, raw: Json, v: string)
    requires c != "" && c !in s.candidates && v != "" && v !in s.versions
    requires NormalizePatch(raw).Ok? && env.valid(Merge(SourceRules(env, s.ruleFile), NormalizePatch(raw).value))
    ensures var before := SourceRules(env, s.ruleFile); var after := Merge(before, NormalizePatch(raw).value);
      && IsRun(env, s, PublishEdit(c, raw, v))
      && var t := Run(env, s, PublishEdit(c, raw, v));
      && t.ruleFile == Some(after) && t.candidates.Keys == s.candidates.Keys + {c}
      && t.versions == s.versions[v := Version(c, s.active, "", after, before)]
  {
    hide Step, NormalizePatch, SourceRules, Merge;
    var save := Save(c, raw, 1, true);
    SaveStep(env, s, c, raw);
    RunOfOne(env, s, save);
    ApprovedAndPublished(env, Step(env, s, save), c, v, Merge(SourceRules(env, s.ruleFile), NormalizePatch(raw).value));
    RunsCompose(env, s, [save], ApproveAndPublish(c, v));
  }

  lemma RollbackStep(env: Env, s: State, target: string, r: string)
    requires target != "" && target in s.versions && r != "" && r !in s.versions
    requires s.versions[target].previousContent != map[] && env.valid(s.versions[target].previousContent)
    ensures var v := s.versions[target]; var cmds := [Rollback(target, r, true)];
      && IsRun(env, s, cmds)
      && var t := Run(env, s, cmds);
      && t.ruleFile == Some(v.previousContent)
      && t.versions == s.versions[r := Version("", s.active, target, v.previousContent, v.content)]
  {
    RunOfOne(env, s, Rollback(target, r, true));
  }

  /** The fingerprint section with one version. */
  function Versioned(version: string): Fields { map["fingerprint" := Obj(map["version" := Str(version)])] }

  lemma VersionEditSetsVersion(rules: Fields, version: string)
    requires rules == Versioned("1") || rules == Versioned("2")
    ensures NormalizePatch(VersionEdit("fingerprint", version)).Ok?
    ensures Merge(rules, NormalizePatch(VersionEdit("fingerprint", version)).value) == Versioned(version)
  {
    VersionEditIsAccepted("fingerprint", version);
    var patch := map["fingerprint" := map["version" := Str(version)]];
    assert SectionOf(rules, "fingerprint") + patch["fingerprint"] == map["version" := Str(version)];
  }

  /** For instance: version 1 is replaced by 2 and then by 3, the first publication is rolled back,
      and then that rollback. The file held 3 before the two rollbacks and holds 2 after them. */
  lemma TwoRollbacksEndElsewhere()
    ensures var env, s := Lenient(), Initial(Some(Versioned("1")));
      var published := PublishEdit("a", VersionEdit("fingerprint", "2"), "v")
          + PublishEdit("b", VersionEdit("fingerprint", "3"), "w");
      var cmds := published + [Rollback("v", "x", true)] + [Rollback("x", "y", true)];
      && IsRun(env, s, published) && Run(env, s, published).ruleFile == Some(Versioned("3"))
      && IsRun(env, s, cmds) && Run(env, s, cmds).ruleFile == Some(Versioned("2"))
      && Versioned("2") != Versioned("3")
  {
    hide NormalizePatch, Merge, Run, IsRun, Versioned;
    var env, s0 := Lenient(), Initial(Some(Versioned("1")));
    var one, two := PublishEdit("a", VersionEdit("fingerprint", "2"), "v"),
        PublishEdit("b", VersionEdit("fingerprint", "3"), "w");
    assert "a"[0] != "b"[0] && "v"[0] != "w"[0] && "v"[0] != "x"[0] && "w"[0] != "x"[0];
    assert "v"[0] != "y"[0] && "w"[0] != "y"[0] && "x"[0] != "y"[0];
    VersionsDiffer();
    VersionEditSetsVersion(Versioned("1"), "2");
    EditIsPublished(env, s0, "a", VersionEdit("fingerprint", "2"), "v");
    var s1 := Run(env, s0, one);
    VersionEditSetsVersion(Versioned("2"), "3");
    EditIsPublished(env, s1, "b", VersionEdit("fingerprint", "3"), "w");
    var s2 := Run(env, s1, two);
    RollbackStep(env, s2, "v", "x");
    var s3 := Run(env, s2, [Rollback("v", "x", true)]);
    RollbackStep(env, s3, "x", "y");
    RunsCompose(env, s0, one, two);
    RunsCompose(env, s0, one + two, [Rollback("v", "x", true)]);
    RunsCompose(env, s0, one + two + [Rollback("v", "x", true)], [Rollback("x", "y", true)]);
  }

  lemma VersionsDiffer()
    ensures Versioned("1") != map[] && Versioned("2") != map[] && Versioned("3") != map[]
    ensures Versioned("2") != Versioned("3")
  {
    assert "fingerprint" in Versioned("1") && "fingerprint" in Versioned("2") && "fingerprint" in Versioned("3");
    assert "2"[0] != "3"[0];
    assert Versioned("2")["fingerprint"].fields["version"] != Versioned("3")["fingerprint"].fields["version"];
  }

  // ---------------------------------------------------------------------------------
  // Reviews.
  // ---------------------------------------------------------------------------------

  /** An actor's latest decision. */
  function LatestDecision(reviews: seq<Approval>, actor: string): Option<Decision> {
    if reviews == [] then None
    else if Last(reviews).actor == actor then Some(Last(reviews).decision)
    else LatestDecision(Init(reviews), actor)
  }

  /** The actors whose latest decision is to approve. */
  function Approvers(reviews: seq<Approval>): set<string> {
    set a | a in reviews && LatestDecision(reviews, a.actor) == Some(Approve) :: a.actor
  }

  /** The approvals a candidate would hold if its earlier ones were kept. */
  function Tally(reviews: seq<Approval>): seq<Approval> {
    if reviews == [] then [] else Reviewed(Tally(Init(reviews)), Last(reviews))
  }

  ghost predicate DistinctActors(approvals: seq<Approval>) {
    forall i, j :: 0 <= i < j < |approvals| ==> approvals[i].actor != approvals[j].actor
  }

  lemma {:induction false} FilterKeepsDistinctActors(approvals: seq<Approval>, p: Approval -> bool)
    requires DistinctActors(approvals)
    ensures DistinctActors(Filter(approvals, p))
  {
    if approvals != [] {
      assert approvals == Init(approvals) + [Last(approvals)];
      FilterKeepsDistinctActors(Init(approvals), p);
      forall a | a in Init(approvals)
        ensures a.actor != Last(approvals).actor
      {
      }
    }
  }

  /** The tally holds every reviewer once, with the latest decision. */
  lemma {:induction false} TallyHoldsLatestDecisions(reviews: seq<Approval>)
    ensures DistinctActors(Tally(reviews))
    ensures forall a: Approval :: a in Tally(reviews) <==> LatestDecision(reviews, a.actor) == Some(a.decision)
  {
    if reviews != [] {
      var earlier, latest := Tally(Init(reviews)), Last(reviews);
      TallyHoldsLatestDecisions(Init(reviews));
      FilterKeepsDistinctActors(earlier, NotBy(latest.actor));
      var others := Filter(earlier, NotBy(latest.actor));
      assert forall i :: 0 <= i < |others| ==> others[i] in others;
    }
  }

  /** The status a candidate would have if its approvals were kept. */
  function TallyStatus(reviews: seq<Approval>, required: int): Status {
    if reviews == [] then Draft else ReviewStatus(Tally(reviews), Last(reviews).decision, required)
  }

  /** Every approved or published candidate has the approvers it needs, but one that needs more
      than one is never approved; and no approval is ever kept. */
  lemma ApprovedHasItsApprovers(env: Env, file: Option<Fields>, cmds: seq<Command>, id: string)
    requires IsRun(env, Initial(file), cmds)
    requires id in Run(env, Initial(file), cmds).candidates
    ensures var s := Run(env, Initial(file), cmds); var c := s.candidates[id];
      && c.approvals == []
      && (c.status == Approved || c.status == Published ==> |Approvers(ReviewsOf(s.reviews, id))| >= c.required)
      && (c.required > 1 ==> c.status == Draft || c.status == Rejected)
  {
    EveryReachableState(env, file, cmds);
    var s := Run(env, Initial(file), cmds);
    var c, reviews := s.candidates[id], ReviewsOf(s.reviews, id);
    assert CandidateInv(c, reviews);
    if c.status == Approved || c.status == Published {
      assert Last(reviews) in reviews && Last(reviews).actor in Approvers(reviews);
      assert {Last(reviews).actor} <= Approvers(reviews);
      SubsetIsNoLarger({Last(reviews).actor}, Approvers(reviews));
    }
  }

  lemma {:induction false} SubsetIsNoLarger(xs: set<string>, ys: set<string>)
    requires xs <= ys
    ensures |xs| <= |ys|
  {
    if xs != {} {
      var x :| x in xs;
      SubsetIsNoLarger(xs - {x}, ys - {x});
    }
  }

  /** The status of a candidate under review is the one its tally calls for exactly when one
      approval is enough, or the latest review rejects, or there are too few approvals anyway. */
  lemma StatusFollowsTallyExactlyWhen(env: Env, file: Option<Fields>, cmds: seq<Command>, id: string)
    requires IsRun(env, Initial(file), cmds)
    requires id in Run(env, Initial(file), cmds).candidates
    requires Run(env, Initial(file), cmds).candidates[id].status != Published
    ensures var s := Run(env, Initial(file), cmds); var c := s.candidates[id]; var reviews := ReviewsOf(s.reviews, id);
      c.status == TallyStatus(reviews, c.required)
      <==> reviews == [] || c.required == 1 || Last(reviews).decision == Reject
           || ApproveCount(Tally(reviews)) < c.required
  {
    EveryReachableState(env, file, cmds);
    var s := Run(env, Initial(file), cmds);
    var c, reviews := s.candidates[id], ReviewsOf(s.reviews, id);
    assert CandidateInv(c, reviews);
    if reviews != [] && Last(reviews).decision == Approve {
      FilterSnoc(Filter(Tally(Init(reviews)), NotBy(Last(reviews).actor)), Last(reviews), IsApprove());
      assert ApproveCount(Tally(reviews)) >= 1;
    }
  }

  lemma AcceptedReview(env: Env, s: State, id: string, actor: string, reviews: seq<Approval>)
    requires id != "" && actor != "" && id in s.candidates && s.candidates[id].status != Published
    requires CandidateInv(s.candidates[id], reviews) && ReviewsOf(s.reviews, id) == reviews
    ensures var t := Step(env, s, Review(id, actor, "approve", true));
      var reviews' := reviews + [Approval(actor, Approve)];
      && id in t.candidates && t.candidates[id].required == s.candidates[id].required
      && CandidateInv(t.candidates[id], reviews') && ReviewsOf(t.reviews, id) == reviews'
      && t.candidates[id].status == StatusAfter(reviews', s.candidates[id].required)
  {
    ReviewForgets(s.candidates[id], reviews, Approval(actor, Approve));
  }

  /** Two people approve a candidate that needs two approvals: it stays a draft. */
  lemma TwoApprovalsAreNotEnough(env: Env, s: State, id: string, a: string, b: string)
    requires id != "" && a != "" && b != "" && a != b && id in s.candidates && s.candidates[id].status == Draft
    requires CandidateInv(s.candidates[id], []) && ReviewsOf(s.reviews, id) == [] && s.candidates[id].required == 2
    ensures var t := Step(env, Step(env, s, Review(id, a, "approve", true)), Review(id, b, "approve", true));
      id in t.candidates && t.candidates[id].status == Draft && Approvers(ReviewsOf(t.reviews, id)) == {a, b}
  {
    AcceptedReview(env, s, id, a, []);
    AcceptedReview(env, Step(env, s, Review(id, a, "approve", true)), id, b, [] + [Approval(a, Approve)]);
    TwoApprovers(a, b);
  }

  lemma TwoApprovers(a: string, b: string)
    requires a != b
    ensures Approvers([] + [Approval(a, Approve)] + [Approval(b, Approve)]) == {a, b}
  {
    var reviews := [] + [Approval(a, Approve)] + [Approval(b, Approve)];
    assert Init(reviews) == [Approval(a, Approve)] && Last(reviews) == Approval(b, Approve);
    assert reviews[0] in reviews && reviews[1] in reviews;
    assert LatestDecision(reviews, a) == Some(Approve);
  }

  // ---------------------------------------------------------------------------------
  // Which commands are accepted, and what a decision means.
  // ---------------------------------------------------------------------------------

  /** A review is accepted exactly when it is permitted, says "approve" or "reject", and names a
      candidate that is not published; any other changes nothing. An accepted one is put on record
      for its actor, a blank one being "cli", and touches that candidate's status and approvals
      only. */
  lemma ReviewAcceptedExactlyWhen(env: Env, s: State, id: string, actor: string, decision: string, permitted: bool)
    ensures var review := Review(id, actor, decision, permitted); var t := Step(env, s, review);
      && (Execute(env, s, review).Ok? <==>
            && permitted && (decision == "approve" || decision == "reject")
            && id != "" && id in s.candidates && s.candidates[id].status != Published)
      && (Execute(env, s, review).Err? ==> t == s)
      && (Execute(env, s, review).Ok? ==>
            && id in t.candidates
            && t.candidates[id] == s.candidates[id].(status := t.candidates[id].status, approvals := [])
            && var before := if id in s.reviews then s.reviews[id] else [];
            var who, what := if actor == "" then "cli" else actor, if decision == "approve" then Approve else Reject;
            t == s.(candidates := s.candidates[id := t.candidates[id]],
                    reviews := s.reviews[id := before + [Approval(who, what)]]))
  {
    hide ReviewStatus, Reviewed, ApprovalsFromPayload;
    if Execute(env, s, Review(id, actor, decision, permitted)).Ok? {
      RecordsAreDropped(Reviewed(s.candidates[id].approvals,
          Approval(ActorOrCli(actor), ParseDecision(decision).value)));
    }
  }

  /** A "reject" rejects. An "approve" approves a candidate that needs one approval, and leaves one
      that needs more a draft. */
  lemma DecisionDecides(env: Env, s: State, id: string, actor: string, decision: string)
    requires Execute(env, s, Review(id, actor, decision, true)).Ok? && s.candidates[id].approvals == []
    ensures var status := Step(env, s, Review(id, actor, decision, true)).candidates[id].status;
      && (decision == "reject" ==> status == Rejected)
      && (decision == "approve" ==> status == if s.candidates[id].required <= 1 then Approved else Draft)
  {
    hide ApprovalsFromPayload, Reviewed, ReviewStatus;
    StatusOfNewApproval(Approval(ActorOrCli(actor), ParseDecision(decision).value), s.candidates[id].required);
  }

  predicate Approves(cmd: Command, id: string) {
    cmd.Review? && cmd.id == id && cmd.decision == "approve" && cmd.permitted
  }

  /** A rejected candidate stays rejected until it is approved, and until then it cannot be
      published. */
  lemma {:induction false} RejectedUntilApproved(env: Env, s: State, id: string, actor: string, cmds: seq<Command>)
    requires Execute(env, s, Review(id, actor, "reject", true)).Ok?
    requires IsRun(env, Step(env, s, Review(id, actor, "reject", true)), cmds)
    requires forall i :: 0 <= i < |cmds| ==> !Approves(cmds[i], id)
    ensures var t := Run(env, Step(env, s, Review(id, actor, "reject", true)), cmds);
      && id in t.candidates && t.candidates[id].status == Rejected
      && forall v, permitted :: PublishCandidate(env, t, id, v, permitted).Err?
  {
    if cmds != [] {
      RejectedUntilApproved(env, s, id, actor, Init(cmds));
      var before := Run(env, Step(env, s, Review(id, actor, "reject", true)), Init(cmds));
      assert !Approves(Last(cmds), id);
      RejectedIsLeftAlone(env, before, Last(cmds), id);
    } else {
      RejectRejects(s, id, actor);
    }
  }

  lemma RejectRejects(s: State, id: string, actor: string)
    requires ReviewCandidate(s, id, actor, "reject", true).Ok?
    ensures var t := ReviewCandidate(s, id, actor, "reject", true).value;
      id in t.candidates && t.candidates[id].status == Rejected
  {
    hide Reviewed, ApprovalsFromPayload;
  }

  lemma RejectedIsLeftAlone(env: Env, s: State, cmd: Command, id: string)
    requires UsesFreshIds(s, cmd) && id in s.candidates && s.candidates[id].status == Rejected && !Approves(cmd, id)
    ensures id in Step(env, s, cmd).candidates && Step(env, s, cmd).candidates[id].status == Rejected
  {
    hide Reviewed, ApprovalsFromPayload;
    if cmd.Review? && cmd.id == id {
      ReviewAcceptedExactlyWhen(env, s, id, cmd.actor, cmd.decision, cmd.permitted);
      if cmd.permitted && cmd.decision == "reject" && id != "" {
        RejectRejects(s, id, cmd.actor);
      }
    }
  }

  /** A candidate can be published exactly when that is permitted, it is approved, and its preview
      is still valid. The file then holds the preview, in a version of its own on top of the active
      one; the previous content is the file's, or the effective rules if it is missing or empty. */
  lemma PublicationAcceptedExactlyWhen(env: Env, s: State, id: string, v: string, permitted: bool)
    ensures var outcome := Execute(env, s, Publish(id, v, permitted));
      && (outcome.Ok? <==>
            && permitted && id != "" && id in s.candidates && s.candidates[id].status == Approved
            && env.valid(s.candidates[id].preview))
      && (outcome.Ok? ==>
            var c, t := s.candidates[id], outcome.value;
            var isBlank := s.ruleFile == None || s.ruleFile == Some(map[]);
            var before := if isBlank then env.effective(s.ruleFile) else s.ruleFile.value;
            && t.ruleFile == Some(c.preview) && t.active == v && t.reviews == s.reviews && t.log == s.log + [v]
            && t.versions == s.versions[v := Version(id, s.active, "", c.preview, before)]
            && t.candidates == s.candidates[id := c.(status := Published)])
  {
    hide ApprovalsFromPayload;
    if Execute(env, s, Publish(id, v, permitted)).Ok? {
      MappingsAreKept(s.candidates[id].approvals);
    }
  }

  /** A change is saved exactly when it is permitted, its patch is accepted, and the rules in force
      with the patch are valid: as a draft without approvals that needs at least one. */
  lemma SaveAcceptedExactlyWhen(env: Env, s: State, id: string, raw: Json, required: int, permitted: bool)
    ensures var outcome, patch := Execute(env, s, Save(id, raw, required, permitted)), NormalizePatch(raw);
      var isBlank := s.ruleFile == None || s.ruleFile == Some(map[]);
      var rules := if isBlank then env.effective(s.ruleFile) else s.ruleFile.value;
      && (outcome.Ok? <==> permitted && patch.Ok? && env.valid(Merge(rules, patch.value)))
      && (outcome.Ok? ==>
            var least := if required < 1 then 1 else required;
            var draft := Candidate(Draft, patch.value, Merge(rules, patch.value), [], least);
            outcome.value == s.(candidates := s.candidates[id := draft], reviews := s.reviews[id := []]))
  {
  }

  /** A published candidate never changes again. */
  lemma {:induction false} PublishedForever(env: Env, s: State, cmds: seq<Command>, id: string)
    requires IsRun(env, s, cmds) && id in s.candidates && s.candidates[id].status == Published
    ensures id in Run(env, s, cmds).candidates && Run(env, s, cmds).candidates[id] == s.candidates[id]
  {
    if cmds != [] {
      PublishedForever(env, s, Init(cmds), id);
      PublishedIsLeftAlone(env, Run(env, s, Init(cmds)), Last(cmds), id);
    }
  }

  lemma PublishedIsLeftAlone(env: Env, s: State, cmd: Command, id: string)
    requires UsesFreshIds(s, cmd) && id in s.candidates && s.candidates[id].status == Published
    ensures id in Step(env, s, cmd).candidates && Step(env, s, cmd).candidates[id] == s.candidates[id]
  {
  }

  /** Each published candidate has exactly one version, holding its preview. */
  lemma PublishedHasExactlyOneVersion(env: Env, file: Option<Fields>, cmds: seq<Command>, id: string)
    requires IsRun(env, Initial(file), cmds)
    requires id in Run(env, Initial(file), cmds).candidates
    ensures var s := Run(env, Initial(file), cmds);
      s.candidates[id].status == Published
      <==> exists v ::
             && v in s.versions && s.versions[v].candidateId == id && s.versions[v].content == s.candidates[id].preview
             && forall w :: w in s.versions && s.versions[w].candidateId == id ==> w == v
  {
    EveryReachableState(env, file, cmds);
  }

  // ---------------------------------------------------------------------------------
  // The service over its files.
  // ---------------------------------------------------------------------------------

  /** What a method reports agrees with the outcome of the operation. */
  predicate Reports<T>(answer: Result<T, Error>, outcome: Outcome) {
    match outcome
    case Ok(_) => answer.Ok?
    case Err(e) => answer == Err(e)
  }

  class RuleGovernanceService {
    const env: Env
    var ruleFile: Option<Fields>
    var candidates: map<string, Candidate>
    var versions: map<string, Version>
    var active: string
    ghost var log: seq<string>
    ghost var reviews: map<string, seq<Approval>>

    ghost function View(): State
      reads this
    {
      State(ruleFile, candidates, versions, active, log, reviews)
    }

    ghost predicate Valid()
      reads this
    {
      Inv(env, View())
    }

    constructor (env: Env, file: Option<Fields>)
      ensures this.env == env && View() == Initial(file) && Valid()
    {
      this.env := env;
      ruleFile, candidates, versions, active := file, map[], map[], "";
      log, reviews := [], map[];
    }

    method SaveRuleChangeCandidate(id: string, raw: Json, required: int,
        permitted: bool) returns (r: Result<Candidate, Error>)
      requires Valid() && id != "" && id !in candidates
      modifies this
      ensures View() == After(old(View()), SaveCandidate(env, old(View()), id, raw, required, permitted)) && Valid()
      ensures Reports(r, SaveCandidate(env, old(View()), id, raw, required, permitted))
      ensures r.Ok? ==> id in candidates && r.value == candidates[id]
    {
      hide Inv;
      ghost var before := View();
      if !permitted {
        return Err(NotPermitted);
      }
      var normalized := NormalizePatch(raw);
      if normalized.Err? {
        return Err(InvalidPatch(normalized.error));
      }
      var preview := MergeRulePatch(SourceRules(env, ruleFile), normalized.value);
      if !env.valid(preview) {
        return Err(InvalidRules);
      }
      var candidate := Candidate(Draft, normalized.value, preview, [], AtLeastOne(required));
      candidates := candidates[id := candidate];
      reviews := reviews[id := []];
      r := Ok(candidate);
      SaveKeepsInv(env, before, id, raw, required);
    }

    method ApproveRuleChangeCandidate(id: string, actor: string, decision: string,
        permitted: bool) returns (r: Result<Candidate, Error>)
      requires Valid()
      modifies this
      ensures View() == After(old(View()), ReviewCandidate(old(View()), id, actor, decision, permitted)) && Valid()
      ensures Reports(r, ReviewCandidate(old(View()), id, actor, decision, permitted))
      ensures r.Ok? ==> id in candidates && r.value == candidates[id]
    {
      hide Inv;
      ghost var before := View();
      if !permitted {
        return Err(NotPermitted);
      }
      var normalized := ParseDecision(decision);
      if normalized.None? {
        return Err(InvalidDecision);
      }
      if id == "" {
        return Err(MissingId);
      }
      if id !in candidates {
        return Err(NotFound);
      }
      var candidate := candidates[id];
      if candidate.status == Published {
        return Err(WrongStatus);
      }
      var approval := Approval(ActorOrCli(actor), normalized.value);
      var approvals := Reviewed(candidate.approvals, approval);
      var status := ReviewStatus(approvals, normalized.value, candidate.required);
      var updated := ReplaceStatusAndApprovals(candidate, status, approvals);
      candidates := candidates[id := updated];
      reviews := reviews[id := ReviewsOf(reviews, id) + [approval]];
      r := Ok(updated);
      ReviewKeepsInv(env, before, id, actor, decision);
    }

    method PublishRuleChangeCandidate(id: string, versionId: string,
        permitted: bool) returns (r: Result<Version, Error>)
      requires Valid() && versionId != "" && versionId !in versions
      modifies this
      ensures View() == After(old(View()), PublishCandidate(env, old(View()), id, versionId, permitted)) && Valid()
      ensures Reports(r, PublishCandidate(env, old(View()), id, versionId, permitted))
      ensures r.Ok? ==> versionId in versions && r.value == versions[versionId]
    {
      hide Inv;
      ghost var before := View();
      if !permitted {
        return Err(NotPermitted);
      }
      if id == "" {
        return Err(MissingId);
      }
      if id !in candidates {
        return Err(NotFound);
      }
      var candidate := candidates[id];
      if candidate.status != Approved {
        return Err(WrongStatus);
      }
      var previousRules := SourceRules(env, ruleFile);
      if !env.valid(candidate.preview) {
        return Err(InvalidRules);
      }
      var version := Version(id, active, "", candidate.preview, previousRules);
      FilePublication(id, versionId, version);
      r := Ok(version);
      PublishKeepsInv(env, before, id, versionId);
    }

    method FilePublication(id: string, versionId: string, version: Version)
      requires id in candidates
      modifies this
      ensures View() == WriteVersion(old(View()), versionId, version).(candidates :=
          old(candidates)[id := ReplaceStatus(old(candidates)[id], Published)])
    {
      FileVersion(versionId, version);
      candidates := candidates[id := ReplaceStatus(candidates[id], Published)];
    }

    method RollbackRuleVersion(target: string, versionId: string, permitted: bool) returns (r: Result<Version, Error>)
      requires Valid() && versionId != "" && versionId !in versions
      modifies this
      ensures View() == After(old(View()), RollbackVersion(env, old(View()), target, versionId, permitted)) && Valid()
      ensures Reports(r, RollbackVersion(env, old(View()), target, versionId, permitted))
      ensures r.Ok? ==> versionId in versions && r.value == versions[versionId]
    {
      hide Inv;
      ghost var before := View();
      if !permitted {
        return Err(NotPermitted);
      }
      if target == "" {
        return Err(MissingId);
      }
      if target !in versions {
        return Err(NotFound);
      }
      var version := versions[target];
      if version.previousContent == map[] {
        return Err(NoRollbackContent);
      }
      if !env.valid(version.previousContent) {
        return Err(InvalidRules);
      }
      var rollback := Version("", active, target, version.previousContent, version.content);
      FileVersion(versionId, rollback);
      r := Ok(rollback);
      RollbackKeepsInv(env, before, target, versionId);
    }

    /** Write the rule file, then the version, then which one is active. */
    method FileVersion(versionId: string, version: Version)
      modifies this`ruleFile, this`versions, this`active, this`log
      ensures ruleFile == Some(version.content) && active == versionId
      ensures versions == old(versions)[versionId := version] && log == old(log) + [versionId]
    {
      ruleFile := Some(version.content);
      versions := versions[versionId := version];
      active := versionId;
      log := log + [versionId];
    }
  }
}
