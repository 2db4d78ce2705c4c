# Android stability lab: models and proofs

A Dafny model of the rule-bound parts of the Android stability lab: what groups issues, what deletes
evidence, what changes rules, and the stateful protocols around runs, admission cases and devices.
`dafny verify dfyconfig.toml` checks everything.

| file | models |
|---|---|
| `FingerprintGovernance.dfy` | alias and suppress rules, and the bounded loop that resolves them |
| `IssueAggregation.dfy`, `IssueSelection.dfy` | the scan that groups issues into buckets, how an alias rule changes the groups, which issues a query selects and what their fingerprints depend on |
| `RuleReplay.dfy` | the comparison of two rule sets on the same issues |
| `EvidenceRetention.dfy`, `EvidenceFate.dfy` | the two-pass sweep over run evidence, and the fate of one file in it |
| `RuleTree.dfy`, `RulePatch.dfy` | the diff of rule trees and the merge of edit patches |
| `RuleGovernance.dfy` | candidates, reviews, publication, rollback, and the chain of versions |
| `AdmissionCase.dfy`, `AdmissionUpdates.dfy`, `AdmissionRevisions.dfy` | admission cases with their audit logs, revisions and contract events, what an update accepts and sets, and when exactly a revision falls or is published again |
| `PatrolRunner.dfy`, `PatrolLockRace.dfy` | the lock and heartbeat files of the patrol runner, its cycle loop, and the race inside a lock attempt |
| `DeviceQuarantine.dfy` | device discovery, failure streaks, quarantine and probes |
| `PerformanceTrend.dfy` | percentiles, metric summaries, memory growth |
| `GroupBy.dfy`, `Sorting.dfy`, `Ordering.dfy`, `Wrappers.dfy` | sequences grouped by a key, stable sorting, the order of keys and paths, options and results |

Pure code is modelled by functions. Services that change files, registries or objects are classes whose
methods are proved against step functions; the main results are then about those functions, over
every input and every run. Beside the laws that relate these functions, every main operation has one that
says in plain numbers, words and paths what it does, without the model's own definitions.

## Where the code does less than it is meant to

The model follows the code. In these places the intended property fails, and the exact condition
under which it holds is proved instead:

- Alias rules are followed for 16 rounds only, so a suppress rule 16 hops away does not suppress
  (`LoopAgreesExactlyWhen`, `LongChainEscapesSuppression`).
- The tree diff compares values as Python does, so turning 1 into true is no difference
  (`DiffIsComplete`, `TypeOnlyEditIsUnseen`).
- A review stores no approvals: they are handed over as records and filtered out on the way into the
  candidate. A candidate that requires two or more approvals can therefore never be approved
  (`RecordsAreDropped`, `StatusFollowsTallyExactlyWhen`, `TwoApprovalsAreNotEnough`).
- A publication writes the preview made when the candidate was saved, so what was published in between is
  undone outside the patch (`PublicationBuildsOnRulesAtSave`,
  `PublicationKeepsRulesInForceExactlyWhen`, `LostUpdate`).
- Rolling back an old version and then rolling that back does not return to the rules in force before,
  but to the old version's own content (`SecondRollbackUndoesFirstExactlyWhen`,
  `TwoRollbacksEndElsewhere`).
- Case directories replace / by _, so two baselines can overwrite each other's case
  (`RefreshDisturbsExactlyWhen`, `BaselinesCanShareADirectory`). A revision can then fall, and one already
  published can be published again: `RevisionNeverFallsExactlyWhen` and
  `PublishedRevisionsRiseExactlyWhen` say when, over every run, and `RevisionFallsAndRepeats` is such a
  run. Baselines without / and : are safe (`PlainBaselinesWriteOwnPaths`, `OwnPathsKeepRevisions`).
- Loading a case forgets its override, so an update that asks for nothing can raise the revision
  (`IdleUpdateChangesNothingExactlyWhen`, `IdleUpdateRaises`).
- The patrol lock is taken before the first heartbeat and released after the final one, it is judged by
  the contender's interval, and it is released whoever holds it (`ExclusionExactlyWhen`,
  `FirstHeartbeatComesTooLate`, `LongSleeperIsSeized`, `ReleaseUnlinksAnothersLock`). The status page
  judges it by the holder's interval (`ShownActiveMeansRefusedExactlyWhen`).
- Inside a lock attempt, another contender can carry out its stale verdict on the new lock file
  (`RaceExclusionExactlyWhen`, `TwoContendersTakeOver`).

## Model

| member | source | states |
|---|---|---|
| FingerprintGovernance.WalkIsUnique | stability/app/issue_fingerprint_governance_service.py:127-147 | a rule table and a start determine the alias walk: any node list whose steps follow the rules, without an early repeat and with the right ending, is it |
| FingerprintGovernance.LoopAgreesExactlyWhen | stability/app/issue_fingerprint_governance_service.py:127-147 | the 16-round loop gives the result of the unbounded walk if and only if the walk settles within 16 hops, meets its suppress rule within 15, or cycles within 16 hops (or happens to stand on the repeated node after 16) |
| FingerprintGovernance.LongChainEscapesSuppression | stability/app/issue_fingerprint_governance_service.py:134-147 | a table on which the loop does not: a suppress rule 16 hops away is never reached and the issue stays visible |
| FingerprintGovernance.LoopRefinesWalkUpToSixteenRules | stability/app/issue_fingerprint_governance_service.py:134-147 | a walk that applies at most 16 distinct rules is resolved in full |
| FingerprintGovernance.LoopIsIdempotentUpToSixteenRules | stability/app/issue_fingerprint_governance_service.py:127-159 | for such walks resolving a resolved value gives it again |
| FingerprintGovernance.UnboundedResolutionIsIdempotent | stability/app/issue_fingerprint_governance_service.py:127-147 | the unbounded resolution is idempotent along every walk, cycles included |
| FingerprintGovernance.SuppressedIffMeetsSuppressRule | stability/app/issue_fingerprint_governance_service.py:143-144 | the walk yields nothing if and only if one of the nodes it meets has a suppress rule |
| FingerprintGovernance.OtherWalksUnchanged | stability/app/issue_fingerprint_governance_service.py:161-190 | changing the rule at one fingerprint affects only walks that visit it |
| FingerprintGovernance.AliasRedirectsExactlyShortWalks | stability/app/issue_fingerprint_governance_service.py:79-99 | after aliasing rule-free a to rule-free b, a value that resolved to a resolves to b exactly when its walk had a hop to spare; every other value is untouched |
| FingerprintGovernance.IssueFingerprintGovernanceService.ResolveFingerprint | stability/app/issue_fingerprint_governance_service.py:127-159 | the loop with its visited set and applied list computes the governed form read off the unbounded walk, trace included; a blank value is an error |
| FingerprintGovernance.TraceTellsTheWay | stability/app/issue_fingerprint_governance_service.py:134-159 | a fingerprint comes back as it was exactly when it has no rule; otherwise the version is marked and the trace leads from the incoming to the resolved fingerprint over one to sixteen rules, each that of the fingerprint the one before is an alias for |
| FingerprintGovernance.IssueFingerprintGovernanceService.UpsertAlias | stability/app/issue_fingerprint_governance_service.py:79-99 | sets exactly one rule, whole with its metadata, refuses blank or equal fingerprints without a change, and keeps every walk that avoids the source |
| FingerprintGovernance.IssueFingerprintGovernanceService.SuppressFingerprint | stability/app/issue_fingerprint_governance_service.py:101-116 | sets exactly one rule, whole with its metadata, after which the fingerprint resolves to nothing |
| FingerprintGovernance.IssueFingerprintGovernanceService.RemoveRule | stability/app/issue_fingerprint_governance_service.py:118-125 | removes exactly one rule, says whether there was one, and keeps every walk that avoids it |
| IssueAggregation.CollectGroups | stability/app/analysis_service.py:206-273 | the nested loops over mutable buckets, with the task cache, produce exactly the groups of the declarative filter-then-group-by, in order of first appearance |
| IssueSelection.SelectsExactlyPassingPlaces | stability/app/analysis_service.py:206-254 | the selected issues are, one for one and in scan order, those at the places (run, instance of it, issue of that) that pass every filter, each filter and each recorded field written out |
| IssueSelection.WindowSelectsRunsWithin | stability/app/analysis_service.py:208-221 | a window of creation times, ends included, selects what the open query selects from the runs created within it |
| IssueSelection.ShareFingerprintExactlyWhen | stability/app/analysis_service.py:174-204 | with an injective hash two issues share a fingerprint if and only if they agree in type, package (own, else the instance's, else the task's), normalised scenario, process and title, and in the normalised raw key unless it is ignored for the type |
| IssueAggregation.GroupRecordsItsMembers | stability/app/analysis_service.py:249-272 | a group holds the events of its members in order, their titles and severities with multiplicity, and the earliest and latest of their times |
| IssueAggregation.GroupSpansItsMembers | stability/app/analysis_service.py:258-264 | the affected runs, devices, scenarios, versions and packages are the sets over the members, blanks left out where the code does |
| IssueAggregation.SeenTimesAreExtremes | stability/app/analysis_service.py:265-269 | first and last seen are the minimum and maximum of the non-missing times, and missing only if all are |
| IssueAggregation.GroupsPartitionVisibleIssues | stability/app/analysis_service.py:242-254 | every unsuppressed matching issue lies in exactly one group, that of its governed fingerprint, and the group sizes add up to their number |
| IssueAggregation.TableIsGroupBy | stability/app/analysis_service.py:206-273 | one issue after the other, the insertion-ordered dictionary stays equal to the declarative grouping of the issues seen |
| IssueAggregation.AliasMergesGroups | stability/app/issue_fingerprint_governance_service.py:79-99 | with alias walks below 16 hops, aliasing rule-free a to rule-free b makes group b the old a plus the old b (events, counters, set unions, extremes of the times), empties group a, and leaves every other group as it was |
| RuleReplay.EnlargingIgnoreSetOnlyCoarsens | stability/app/analysis_service.py:174-204 | ignoring the raw key of more issue types makes every candidate group a disjoint union of whole baseline groups, and never more groups; the hash is assumed injective on the components |
| RuleReplay.ReplayConservesOccurrences | stability/app/rule_replay_service.py:62-93 | whatever the two rule sets, the left and the right occurrences over all families both add up to the number of selected issues |
| RuleReplay.SameIgnoreSetChangesNothing | stability/app/rule_replay_service.py:227-249 | rule sets with equal ignore sets make every family unchanged |
| RuleReplay.CompareFamilies | stability/app/rule_replay_service.py:141-194 | there is one family per key of either side, holding exactly the items of that key, classified and counted |
| RuleReplay.ChangeMeans | stability/app/rule_replay_service.py:226-249 | what each of the six classes of a family means, as a condition on its groups, fingerprints and occurrences on both sides |
| RuleReplay.FamilyShowsBothSides | stability/app/rule_replay_service.py:149-168 | a compared family shows the number of its items and occurrences on either side, and the class that tells these two sides apart |
| RuleReplay.FamiliesConserveOccurrences | stability/app/rule_replay_service.py:141-174 | a comparison accounts for every occurrence on either side |
| RuleReplay.ItemShowsItsGroup | stability/app/rule_replay_service.py:207-224 | an aggregated item shows the fingerprint its issues share, their number, and the family of the first one by type, package, process and scenario and the most common title, the first met among equals |
| RuleReplay.ItemsCountEveryIssue | stability/app/analysis_service.py:281-317 | the occurrence counts of the aggregated items add up to the number of selected issues |
| RuleReplay.ReplayTopIssues | stability/app/rule_replay_service.py:62-77 | the replay compares the groupings of the same selected issues under both rule sets |
| EvidenceRetention.SweepPicksShortestPrefixOfEachKind | stability/app/runtime_lifecycle_service.py:211-256 | for each evidence type the age pass and the size pass together pick exactly the shortest prefix of the oldest-first order whose removal leaves only files within the age limit and a total within the cap |
| EvidenceFate.SurvivesExactlyWhen | stability/app/runtime_lifecycle_service.py:183-287 | a file survives if and only if a segment of its path is latest, webhooks.json, sessions.json or actors.json, or the rule of its type, its own or else the default, is protected, or its age is at most maxAgeDays * 24 * 60 * 60 seconds and it fits the cap together with the unprotected files of its type behind it, oldest first and then by scan order |
| EvidenceFate.ReasonsAreExact | stability/app/runtime_lifecycle_service.py:214-256 | a file is reported for its age if and only if its rule is unprotected and its age is above the limit in seconds, and for the cap if and only if it is picked and that is not so |
| EvidenceFate.ClassifiedExactlyWhen | stability/app/evidence_retention.py:151-165 | the type is trace by suffix in either case, else the last segment of the path that is one of the five directories, else unknown |
| EvidenceRetention.FindCandidates | stability/app/runtime_lifecycle_service.py:211-256 | the age loop, the grouping by type and the eviction loops list exactly those files, age victims first, with their reasons |
| EvidenceRetention.EvictOldest | stability/app/runtime_lifecycle_service.py:244-256 | the eviction loop takes the shortest prefix that brings the total within the cap |
| EvidenceRetention.LooserRemovesLess | stability/app/runtime_lifecycle_service.py:211-256 | raising either limit, or sweeping earlier, removes a prefix of what the stricter sweep removes |
| EvidenceRetention.LooserPolicyPicksSubset | stability/app/runtime_lifecycle_service.py:211-256 | under higher limits for every type only files that would have been picked anyway are picked |
| EvidenceRetention.SweepsCompose | stability/app/runtime_lifecycle_service.py:183-287 | sweeping at t1 and again at t2 >= t1, with no new files, leaves what a single sweep at t2 leaves |
| EvidenceRetention.RepeatFindsNothing | stability/app/runtime_lifecycle_service.py:183-287 | a repeated sweep at the same time finds nothing |
| EvidenceRetention.NothingIsPickedTwice | stability/app/runtime_lifecycle_service.py:211-256 | no file is a candidate twice |
| EvidenceRetention.SweepConservesBytes | stability/app/runtime_lifecycle_service.py:262-285 | bytes scanned are bytes kept plus bytes reclaimed |
| EvidenceRetention.UsageAddsUp | stability/app/runtime_lifecycle_service.py:289-312 | the usage per type adds up to the bytes and the candidates of the whole sweep |
| EvidenceRetention.EvidenceUsage | stability/app/runtime_lifecycle_service.py:289-312 | the counting loops give, for every type that occurs and in dictionary order of the types, its files, bytes, candidates and candidate bytes |
| EvidenceRetention.RuntimeLifecycleService.EnforceEvidenceRetention | stability/app/runtime_lifecycle_service.py:183-287 | a dry run changes nothing; an applied sweep leaves exactly the survivors and reports the bytes of what it deleted |
| Sorting.SortIsStable | stability/app/runtime_lifecycle_service.py:244-244 | oldest first keeps files of the same time in scan order |
| RuleTree.DiffIsEmptyExactlyWhenLooselyEqual | stability/app/rule_governance_service.py:477-515 | the diff is empty if and only if the trees are equal as the code compares them, at any depth, where true equals 1 and false equals 0 |
| RuleTree.LooselyEqualExactlyWhen | stability/app/rule_governance_service.py:505-514 | trees are equal as the code compares them if and only if both are null, numbers or booleans of one value, strings with one text, arrays of one length or objects with the same keys that are so equal item by item, and nothing else |
| RuleTree.DiffWithoutBooleansIsEmptyExactlyWhenEqual | stability/app/rule_governance_service.py:477-515 | for rules without booleans the diff is empty if and only if they are equal |
| RuleTree.TypeOnlyEditIsUnseen | stability/app/rule_governance_service.py:505-514 | an edit that the diff does not see although the trees differ |
| RuleTree.DiffIsComplete | stability/app/rule_governance_service.py:477-515 | applying the entries to the left tree gives a tree loosely equal to the right one, and the right tree itself if and only if no equal value changed its JSON type |
| RuleTree.EntriesAreDifferences | stability/app/rule_governance_service.py:477-515 | every entry names a path at which the trees really differ, with the values found there |
| RuleTree.DiffPathsAscend | stability/app/rule_governance_service.py:482-503 | the entries come in strictly ascending path order and none lies below another |
| RuleTree.DiffPathsAreDistinct | stability/app/rule_governance_service.py:482-503 | no path is reported twice |
| RulePatch.AcceptedExactlyWhenClean | stability/app/rule_governance_service.py:395-440 | a patch is accepted if and only if it is an object whose sections are all supported objects with supported fields only and at least one field is set; the accepted patch sets exactly the fields of the given one |
| RulePatch.PatchAcceptedExactlyWhen | stability/app/rule_governance_service.py:395-440 | by name: a patch is accepted if and only if it is an object of sections fingerprint, regression or attribution, each an object of fields that may be edited, listed one by one, with at least one field |
| RulePatch.FieldEditAcceptedExactlyWhen | stability/app/rule_governance_service.py:395-440 | a request gives a patch, or section, key and value, and is refused with its own error otherwise; the latter are accepted if and only if the field may be edited, and stand for the patch that sets it |
| RulePatch.MergeRulePatch | stability/app/rule_governance_service.py:443-452 | the loops over sections and fields compute the declarative merge |
| RulePatch.MergeSetsExactlyThePatchedFields | stability/app/rule_governance_service.py:443-452 | every patched field gets its value, every other field and section stays as it was |
| RulePatch.MergeTwiceIsMergeOverlay | stability/app/rule_governance_service.py:443-452 | merging p and then q is merging their field-wise overlay |
| RulePatch.MergeIsIdempotent | stability/app/rule_governance_service.py:443-452 | merging a patch twice is merging it once |
| RulePatch.MergesAgreeExactlyWhen | stability/app/rule_governance_service.py:443-452 | merging a patch into two rule trees gives the same tree if and only if they agree outside the patch: in every other section, and in the other fields of a patched one |
| RulePatch.DiffStaysInsidePatch | stability/app/rule_governance_service.py:253-276 | every path in the diff of an edit plan is a patched section or lies at or under a patched field |
| RulePatch.PlanIsEmptyExactlyWhen | stability/app/rule_governance_service.py:253-285 | an edit plan shows no difference if and only if every patched field already has its value |
| RuleGovernance.RunKeepsInv | stability/app/rule_governance_lifecycle.py:71-254 | every run of saves, reviews, publications and rollbacks keeps the chain, candidate, content, origin and publication invariants |
| RuleGovernance.ChainVisitsEveryVersionOnce | stability/app/rule_governance_lifecycle.py:162-200 | in every reachable state the rule file is the content of the active version once there is one, and following previous_version_id from it visits every version exactly once, latest first, and ends at the empty id |
| RuleGovernance.RollbackUndoesPublication | stability/app/rule_governance_lifecycle.py:212-254 | publish, let anything happen, roll that version back: the file holds the rules from before the publication; refused exactly when not permitted or those rules are empty or invalid |
| RuleGovernance.RollbackOfRollback | stability/app/rule_governance_lifecycle.py:212-254 | rolling a rollback back is never refused for its content and puts back what the rolled-back version had written |
| RuleGovernance.SecondRollbackUndoesFirstExactlyWhen | stability/app/rule_governance_lifecycle.py:235-247 | it undoes the first rollback if and only if that rollback named a version with the content of the active one, because the stored previous content is the named version's |
| RuleGovernance.TwoRollbacksEndElsewhere | stability/app/rule_governance_lifecycle.py:235-247 | a run in which it does not: version 3 is in force, two rollbacks later version 2 |
| RuleGovernance.PublicationBuildsOnRulesAtSave | stability/app/rule_governance_lifecycle.py:80-99 | save a candidate, let anything happen, publish it: every patched field has its value, and outside the patch the file holds the rules from the time of the save, whatever was published in between |
| RuleGovernance.PublicationKeepsRulesInForceExactlyWhen | stability/app/rule_governance_lifecycle.py:162-200 | save a candidate, let anything happen, publish it: the file is the patch merged into the rules in force at publication if and only if those agree with the rules at the save outside the patch |
| RuleGovernance.LaterPublicationUndoesEarlier | stability/app/rule_governance_lifecycle.py:80-99 | whenever two candidates saved on the same rules are published one after the other, a field that only the first one patches is back to what it was |
| RuleGovernance.LostUpdate | stability/app/rule_governance_lifecycle.py:162-200 | a run from no rules in which this happens: the fingerprint version is published, and gone after a publication on another section |
| RuleGovernance.VersionsNeverChange | stability/app/rule_governance_lifecycle.py:319-324 | a filed version never changes |
| RuleGovernance.RecordsAreDropped | stability/app/rule_governance_lifecycle.py:333-360 | approvals handed to _replace_candidate as records are filtered out by _candidate_from_payload, which keeps mappings only |
| RuleGovernance.MappingsAreKept | stability/app/rule_governance_lifecycle.py:333-360 | approvals that are carried over as mappings survive |
| RuleGovernance.ApprovedHasItsApprovers | stability/app/rule_governance_lifecycle.py:129-160 | in every run an approved or published candidate has at least required_approvals actors whose latest decision is approve; no approval is ever stored, and a candidate that needs more than one is never approved |
| RuleGovernance.StatusFollowsTallyExactlyWhen | stability/app/rule_governance_lifecycle.py:129-160 | the status is the one the latest decision of every actor calls for if and only if one approval is enough, the last review rejects, or there are too few approvals anyway |
| RuleGovernance.TwoApprovalsAreNotEnough | stability/app/rule_governance_lifecycle.py:150-160 | two actors approve a candidate that needs two approvals, and it stays a draft |
| RuleGovernance.TallyHoldsLatestDecisions | stability/app/rule_governance_lifecycle.py:150-150 | replacing an actor's earlier decision leaves every actor once, with the latest decision |
| RuleGovernance.ReviewAcceptedExactlyWhen | stability/app/rule_governance_lifecycle.py:129-160 | a review is accepted if and only if it is permitted, says approve or reject, and names a candidate that is not published; it goes on record for its actor and touches nothing but that candidate's status and approvals; any other changes nothing |
| RuleGovernance.DecisionDecides | stability/app/rule_governance_lifecycle.py:151-157 | reject rejects; approve approves a candidate that needs one approval and leaves any other a draft |
| RuleGovernance.RejectedUntilApproved | stability/app/rule_governance_lifecycle.py:129-173 | over every run a rejected candidate stays rejected, and no publication of it is accepted, until a permitted approve |
| RuleGovernance.PublicationAcceptedExactlyWhen | stability/app/rule_governance_lifecycle.py:162-200 | a publication is accepted if and only if it is permitted and its candidate is approved and still valid; what it writes to file, version and candidate |
| RuleGovernance.SaveAcceptedExactlyWhen | stability/app/rule_governance_lifecycle.py:71-102 | a change is saved if and only if it is permitted, its patch is accepted and the rules in force with it are valid; as a draft that needs at least one approval |
| RuleGovernance.PublishedForever | stability/app/rule_governance_lifecycle.py:142-143 | a published candidate never changes again |
| RuleGovernance.PublishedHasExactlyOneVersion | stability/app/rule_governance_lifecycle.py:162-200 | a candidate is published if and only if exactly one version names it, and that version holds its preview |
| RuleGovernance.RuleGovernanceService.SaveRuleChangeCandidate | stability/app/rule_governance_lifecycle.py:71-102 | files the merged preview as a draft, or refuses with the error of the first failing check and no change |
| RuleGovernance.RuleGovernanceService.ApproveRuleChangeCandidate | stability/app/rule_governance_lifecycle.py:129-160 | refines the review step |
| RuleGovernance.RuleGovernanceService.PublishRuleChangeCandidate | stability/app/rule_governance_lifecycle.py:162-200 | refines the publication step: file, version, active version, candidate |
| RuleGovernance.RuleGovernanceService.RollbackRuleVersion | stability/app/rule_governance_lifecycle.py:212-254 | refines the rollback step |
| AdmissionCase.AuditLogsReplayToState | stability/app/admission_case_service.py:221-333 | after any run of refreshes and updates every stored lifecycle log is empty with status open, or starts from nothing at open, links end to end along allowed transitions to another status and ends at the status; the role log links and folds to the current assignee and reviewer |
| AdmissionUpdates.UpdateAcceptedExactlyWhen | stability/app/admission_case_lifecycle.py:8-46 | an update is accepted if and only if it asks for no status or names one, by its text or alias, that the case may come to, told status by status; a refused one changes nothing |
| AdmissionUpdates.OpenIsNeverApprovedAtOnce | stability/app/admission_case_lifecycle.py:12-20 | no single command takes an open case to approved, with risk or without |
| AdmissionUpdates.UpdateSetsWhatIsAsked | stability/app/admission_case_service.py:241-262 | each argument sets its own field of assignee or reviewer and no other; the last editor is who asked, else the one before, else the system |
| AdmissionUpdates.UpdateLogsWhatChanges | stability/app/admission_case_service.py:263-318 | exactly which entries an update appends to the two logs, with all their fields |
| AdmissionCase.RevisionCountsPayloadChanges | stability/app/admission_case_service.py:350-378 | every accepted command on a stored case raises its revision by one if the payload fingerprint changed and leaves it alone otherwise |
| AdmissionUpdates.WritePublishesExactlyWhen | stability/app/admission_case_service.py:350-418 | a write publishes if and only if the decision is pass, conditional_pass or fail and the contract is new; what contract, file and index hold then |
| AdmissionUpdates.RevisionReads | stability/app/admission_case_service.py:350-356 | the new revision from the one before and the payload filed under the previous id |
| AdmissionRevisions.StepLowersExactlyWhen | stability/app/admission_case_service.py:350-378 | in every reachable state a command lowers the stored revision of a baseline if and only if it writes over its file from another baseline that has not got that far: a refresh onto the same path, or an update of a case that has become the other baseline's |
| AdmissionRevisions.RevisionNeverFallsExactlyWhen | stability/app/admission_case_service.py:350-378 | over every run, whoever shares directories with whom, the revision of a baseline's case never falls if and only if no command is one of those |
| AdmissionRevisions.PublishedRevisionsRiseExactlyWhen | stability/app/admission_case_service.py:386-418 | over every run the published revisions of every baseline rise strictly if and only if no command changes a case with a final decision whose next revision is not above all those published for its baseline |
| AdmissionRevisions.PublishedUpToStored | stability/app/admission_case_service.py:350-418 | while a baseline's revision is never lowered, no published revision of it is above the stored one |
| AdmissionRevisions.RevisionFallsAndRepeats | stability/app/admission_case_store.py:83-85 | a run with both failures: x/y stands at revision 2, a first refresh of x_y takes it down to 1, and the next refresh of x/y publishes revision 2 again |
| AdmissionRevisions.OwnPathsKeepRevisions | stability/app/admission_case_store.py:83-85 | commands that write to paths of their own baseline only, as all commands on plain baselines do, never lower and never republish |
| AdmissionCase.SecondRefreshChangesNothing | stability/app/admission_case_service.py:63-173 | a second get_case with the same inputs changes nothing stored and publishes nothing |
| AdmissionCase.IdleUpdateChangesNothingExactlyWhen | stability/app/admission_case_store.py:129-129 | an update that asks for nothing new leaves everything alone if and only if the case has a lifecycle log and was stored without an override, which loading forgets; otherwise the revision rises |
| AdmissionRevisions.IdleUpdateRaises | stability/app/admission_case_service.py:221-333 | a run in which it does: the first update of an unknown baseline stores the gathered override and fills the log, and an update that asks for nothing then raises the revision |
| AdmissionCase.RefreshDisturbsExactlyWhen | stability/app/admission_case_store.py:83-85 | a refresh of one baseline disturbs the stored case of another if and only if their case ids have the same path |
| AdmissionCase.BaselinesCanShareADirectory | stability/app/admission_case_store.py:83-85 | baselines that differ only in / against _ overwrite each other's case |
| AdmissionCase.PlainBaselinesWriteOwnPaths | stability/app/admission_case_store.py:83-85 | baselines without / and : never share a path, whatever the report ids |
| AdmissionCase.AdmissionCaseService.GetCase | stability/app/admission_case_service.py:63-173 | refines the refresh step, errors included |
| AdmissionCase.AdmissionCaseService.UpdateCaseCollaboration | stability/app/admission_case_service.py:221-333 | refines the update step: a case not stored yet is refreshed first and stays so even if the update is refused |
| AdmissionCase.AdmissionCaseService.Revise | stability/app/admission_case_service.py:261-331 | appending to the two logs entry by entry gives the revised case |
| AdmissionCase.AdmissionCaseService.PersistCase | stability/app/admission_case_service.py:350-378 | writes case and index with the new revision and contract, and publishes if the decision is final and the contract changed |
| PatrolRunner.ExclusionExactlyWhen | stability/app/unattended_runner_service.py:361-417 | over every interleaving of clock ticks, lock attempts, heartbeats, releases and crashes, at most one runner is ever active if and only if no process tries for the lock while a live runner's heartbeat is missing, final, or older than the bound of the one who tries |
| PatrolRunner.SeatedExactlyWhen | stability/app/unattended_runner_service.py:361-417 | in numbers: a process is seated unless the lock exists with a running heartbeat at most 300 seconds, or three of the contender's intervals, old, where 0 counts as 60 and a negative interval as 1; what the files and runners then are |
| PatrolRunner.FiveMinutesAreEnough | stability/app/unattended_runner_service.py:401-417 | over every run and whatever the intervals, if every attempt finds a live runner's heartbeat running and at most 300 seconds old, at most one runner is ever active |
| PatrolRunner.RunnersWrite | stability/app/unattended_runner_service.py:395-470 | what heartbeats, the final one, a release and a crash write |
| PatrolRunner.UndividedExclusionExactlyWhen | stability/app/unattended_runner_service.py:163-174 | with acquire-plus-first-heartbeat and final-heartbeat-plus-release undivided, at most one is ever active if and only if no start finds a live runner's heartbeat older than the starter's bound |
| PatrolLockRace.RaceExclusionExactlyWhen | stability/app/unattended_runner_service.py:361-399 | over every interleaving of the single steps of lock attempts (create, verdict, unlink, create again) with heartbeats, releases, crashes and clock ticks, at most one runner is ever active if and only if no lock file is created while a live runner's own lock file has been unlinked |
| PatrolLockRace.ExposedExactlyWhenLockIsMissing | stability/app/unattended_runner_service.py:371-393 | while at most one runs, someone has unlinked the live runner's lock file if and only if there is none |
| PatrolLockRace.CarefulRunsKeepExclusion | stability/app/unattended_runner_service.py:371-393 | two things only can expose a runner: a stale verdict against it, and a verdict carried out on a lock file created after it; without both at most one runner is ever active |
| PatrolLockRace.TwoContendersTakeOver | stability/app/unattended_runner_service.py:371-393 | after a crash two contenders both judge the lock stale, the second one unlinks the new lock file of the first, and both run although the heartbeat is fresh |
| PatrolLockRace.VerdictExactlyWhen | stability/app/unattended_runner_service.py:371-417 | in numbers, when a contender in a race judges the lock stale: by its own interval and the time it began at |
| PatrolLockRace.UndisturbedAttemptIsAcquire | stability/app/unattended_runner_service.py:361-393 | with nobody in between, the steps of an attempt are the one-step lock attempt of the coarser system |
| PatrolLockRace.RunsAreStories | stability/app/unattended_runner_service.py:361-393 | every run of the coarser system is a run of the finer one |
| PatrolRunner.LongSleeperIsSeized | stability/app/unattended_runner_service.py:416-417 | the bound is the contender's: a runner that sleeps longer than it loses the lock though its own bound has not passed |
| PatrolRunner.ReleaseUnlinksAnothersLock | stability/app/unattended_runner_service.py:395-399 | a release unlinks the lock of whoever holds it, and a third process gets in |
| PatrolRunner.ShownActiveMeansRefusedExactlyWhen | stability/app/unattended_runner_service.py:297-322 | the status page and a contender agree on a lock if and only if the heartbeat is not final and its age is not between the two bounds |
| PatrolRunner.ShownExactlyWhen | stability/app/unattended_runner_service.py:297-322 | in numbers, when the status page shows a lock as released, active or stale |
| PatrolRunner.Completed | stability/app/unattended_runner_service.py:175-246 | the number of cycles run is the least one at which the limit is reached, the process is interrupted or a cycle fails |
| PatrolRunner.RunEndsAsScripted | stability/app/unattended_runner_service.py:163-250 | which patrols are on record at the end, and which of limit, failure and interrupt ended the run |
| PatrolRunner.UnattendedPatrolRunnerService.AcquireLock | stability/app/unattended_runner_service.py:361-393 | refines the lock attempt of the many-process system |
| PatrolRunner.UnattendedPatrolRunnerService.RunCycles | stability/app/unattended_runner_service.py:163-246 | the cycle loop runs that many cycles, keeps every recorded patrol and shows the last 8, stops for the right reason, and writes one running heartbeat before the loop, two in every completed cycle and one in a cycle cut short |
| PatrolRunner.UnattendedPatrolRunnerService.Run | stability/app/unattended_runner_service.py:135-286 | a refused run leaves no trace; any other run ends with a final heartbeat, the last one written, that tells cycles, recent patrols and reason, and with the lock released; a failure is raised again after that |
| DeviceQuarantine.StreakCountsFailures | stability/app/device_service.py:344-429 | over every run failure_streak is the number of failures since the last success, clear or recovery |
| DeviceQuarantine.EntersQuarantineExactlyWhen | stability/app/device_service.py:344-373 | after any run a command puts a device into quarantine if and only if it reports a failure of it and that number, this failure included, reaches a positive threshold |
| DeviceQuarantine.LeavesQuarantineExactlyWhen | stability/app/device_service.py:375-536 | a command lets a device out if and only if it is a clear, a probe off cooldown that finds it online, or a schedule taking, running or freeing it; discovery, failure, success and missing-marking never do |
| DeviceQuarantine.AttemptsAreSpaced | stability/app/device_service.py:431-468 | any two attempted probes of a device are at least the later call's interval apart, without assuming that times never go back |
| DeviceQuarantine.AttemptsAreSpacedInSeconds | stability/app/device_service.py:431-468 | any two attempts are at least 60 seconds apart, 900 where the later probe names no interval, and 60 per minute it asks for |
| DeviceQuarantine.ProbeDoes | stability/app/device_service.py:431-536 | in seconds and in the words of the adapter, what a probe reports and does to a quarantined device in each case |
| DeviceQuarantine.ReportsDo | stability/app/device_service.py:344-429 | what a failure, a success, a clear and a schedule do to a device |
| DeviceQuarantine.RegistryHoldsLatestAttempt | stability/app/device_service.py:465-468 | last_probe_at is the time of the latest attempt, whatever happened since |
| DeviceQuarantine.SyncReflectsDiscovery | stability/app/device_service.py:48-93 | after a sync every discovered device shows the last reported connection and is usable only if online; a missing one is offline and out of use when missing devices are marked, untouched otherwise |
| DeviceQuarantine.SyncKeepsHealth | stability/app/device_service_mapping.py:38-85 | a sync keeps streak, probe time, instance and quarantine of every registered device |
| DeviceQuarantine.SyncDoes | stability/app/device_service.py:48-93 | in the words of the adapter, what a sync makes of a registered device, discovered or missing |
| DeviceQuarantine.DiscoveryDoes | stability/app/device_service_mapping.py:38-85 | what one descriptor makes of a registered device and of a new one |
| DeviceQuarantine.DeviceService.SyncDevices | stability/app/device_service.py:48-93 | merging, adding and marking device objects in place computes the sync of the registry |
| DeviceQuarantine.DeviceService.RecordDeviceFailure | stability/app/device_service.py:344-373 | refines the failure step on one device object |
| DeviceQuarantine.DeviceService.RecordDeviceSuccess | stability/app/device_service.py:375-403 | refines the success step |
| DeviceQuarantine.DeviceService.ClearDeviceQuarantine | stability/app/device_service.py:405-429 | refines the clear step |
| DeviceQuarantine.DeviceService.ProbeQuarantinedDevice | stability/app/device_service.py:431-536 | refines the probe step and reports its outcome |
| PerformanceTrend.PercentileLiesBetweenNeighbours | stability/app/performance_trend_service.py:682-693 | for every non-empty ascending list the percentile lies between the two neighbouring order statistics, above everything before and below everything after them |
| PerformanceTrend.PercentileHitsOrderStatistic | stability/app/performance_trend_service.py:690-691 | it is the order statistic where the rank is whole |
| PerformanceTrend.PercentileIsMonotone | stability/app/performance_trend_service.py:682-693 | it grows with the quantile |
| PerformanceTrend.PercentileIsMonotonePointwise | stability/app/performance_trend_service.py:682-693 | it grows with the values, point by point |
| PerformanceTrend.PercentileIsAffine | stability/app/performance_trend_service.py:682-693 | it follows every change of unit and offset |
| PerformanceTrend.SummaryLiesWithinValues | stability/app/performance_trend_service.py:329-345 | the peak is the largest value; average, 95th percentile and latest value lie between the smallest value and the peak |
| PerformanceTrend.SummaryIgnoresOrder | stability/app/performance_trend_service.py:329-345 | average, peak and percentile do not depend on the order of the samples |
| PerformanceTrend.AverageTimesCountIsSum | stability/app/performance_trend_service.py:329-345 | the average times the number of samples is their sum |
| PerformanceTrend.P95ByHand | stability/app/performance_trend_service.py:682-693 | p95 is the value at place (n - 1) * 0.95 of the ascending values, or its two neighbours weighted by nearness |
| PerformanceTrend.LatestIsLastOfLatest | stability/app/performance_trend_service.py:672-680 | the latest value is that of the last sample no other one is later than |
| PerformanceTrend.ReportedGrowthIsWitnessed | stability/app/performance_trend_service.py:500-522 | a reported memory growth has two samples, the later one in time order larger by at least the reported difference and the threshold |
| PerformanceTrend.GrowthReportedExactlyWhen | stability/app/performance_trend_service.py:500-522 | growth is reported, and called high, if and only if the sums of the first and last third of the samples, two to five each, satisfy the thresholds, written without a division |

## Left out

- Files, JSON text, directories and crashes in the middle of a write: stores are maps whose reads return what was written, and the rule registry is never edited from outside.
- Stripping and lower-casing of ids, statuses, decisions and actions: the model starts from the normalised text.
- SHA-1 and the regular expression that normalises text: parameters; injectivity of the hash is assumed where a result needs it and said so there.
- Rounding of floating-point numbers: percentiles, averages and growth are exact reals; ages are whole seconds.
- `EvidenceRetentionPolicy.from_mapping` and the default rules: the sweep takes any policy.
- Scores, severities and the final order of top issues and replayed families, the limit and the unchanged filter of the replay: the set of items and families is modelled, not their display order.
- Sample events, artifact paths and report texts of aggregated issues.
- Permission bindings of rule governance: a command carries whether it is permitted; the checks of a rule object are an arbitrary predicate on its content.
- Times, authors, titles, checksums and validation messages of candidates and versions; times, reasons and audit ids of log entries in admission cases.
- How a case gathers its summaries: what the report, gate and audit services answer is an input; everything a contract shows besides the modelled fields is one text, everything else another.
- An admission case service without an outbox: it publishes nothing.
- Report files, patrol payloads and clock times of cycles: a cycle is its summary and how it ended. `Run` is one process left alone; other processes in between belong to the many-process system.
- Paths that gain a protected segment when resolved: the sweep takes every path as it is.
- `probe_quarantined_devices` over all devices, heartbeats, profiles and device metadata: a probe is modelled for one device, and serial and device id are the same, as discovery makes them.
- Connecting and pairing devices, pools and scheduling scores.
- The collection of metric samples, the comparison of two scopes and the other risk items of performance trends.
- The order in which dictionaries are iterated when sections, devices or families are visited: the loops pick any element, and the results do not depend on it.
- DiffPathsAreDistinct: paths are lists of keys. The code reports them as dotted text (rule_governance_service.py:484), which can coincide for keys that hold a dot.
- CompareFamilies: the order of the families by priority is not part of the contract, only which there are, with their items, class and counts.
- ReplayTopIssues: the unchanged filter, the limit and the change summary, which are applied to the compared families afterwards.
- SyncDevices: the answer's lists of created, updated, refreshed and marked devices; the contract is about the registry.
