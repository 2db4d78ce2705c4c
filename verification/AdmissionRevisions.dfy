/** When exactly the revision of an admission case falls, and when exactly a published revision
    does not rise: over every run, including those in which baselines share a directory. */
module AdmissionRevisions {
  import opened Wrappers
  import opened GroupBy
  import opened AdmissionCase

  // ---------------------------------------------------------------------------------
  // What holds in every reachable state.
  // ---------------------------------------------------------------------------------

  ghost predicate IndexedAreStored(files: map<string, Case>, index: map<string, string>) {
    forall k :: k in index ==> CasePath(index[k]) in files
  }

  ghost predicate StoredAreIndexed(files: map<string, Case>, index: map<string, string>) {
    forall p :: p in files ==> files[p].key.caseId != "" && files[p].key.baseline in index
  }

  ghost predicate EventsAreIndexed(outbox: seq<Event>, index: map<string, string>) {
    forall i :: 0 <= i < |outbox| ==> outbox[i].baseline in index
  }

  /** Indexed cases are stored, and the baselines of stored cases and of events are indexed. */
  ghost predicate IndexInv(s: State) {
    && IndexedAreStored(s.files, s.index) && StoredAreIndexed(s.files, s.index) && EventsAreIndexed(s.outbox, s.index)
  }

  ghost predicate Reachable(s: State) { FilesInv(s.files) && IndexInv(s) }

  lemma WriteKeepsIndexed(files: map<string, Case>, index: map<string, string>, c: Case)
    requires IndexedAreStored(files, index)
    ensures IndexedAreStored(files[CasePath(c.key.caseId) := c], index[c.key.baseline := c.key.caseId])
  {
    hide CasePath;
  }

  lemma WriteKeepsStored(files: map<string, Case>, index: map<string, string>, c: Case)
    requires StoredAreIndexed(files, index) && c.key.caseId != ""
    ensures StoredAreIndexed(files[CasePath(c.key.caseId) := c], index[c.key.baseline := c.key.caseId])
  {
    hide CasePath;
  }

  lemma PersistKeepsIndex(s: State, candidate: Case, previous: Option<Case>)
    requires IndexInv(s) && candidate.key.caseId != ""
    ensures IndexInv(Persist(s, candidate, previous))
  {
    hide IndexedAreStored, StoredAreIndexed, PayloadChanged, ContractOf;
    var c := Persisted(s.files, candidate, previous);
    WriteKeepsIndexed(s.files, s.index, c);
    WriteKeepsStored(s.files, s.index, c);
  }

  lemma IndexedIsStored(s: State, k: string)
    requires Reachable(s)
    ensures k in s.index ==> IndexedIn(s, k)
    ensures LoadCaseForBaseline(s, k).None? <==> k !in s.index
  {
    hide FilesInv, StoredAreIndexed, EventsAreIndexed, CasePath;
  }

  lemma StoredIsSound(s: State, k: string)
    requires Reachable(s) && k in s.index
    ensures IndexedIn(s, k)
    ensures var c := Stored(s, k);
      && CaseInv(c) && c.key.caseId != "" && CasePath(c.key.caseId) == CasePath(s.index[k]) && c.key.baseline in s.index
      && LoadCaseForBaseline(s, k) == Some(Loaded(c)) && AuditReplays(Loaded(c))
  {
    hide IndexedAreStored, EventsAreIndexed, CasePath, LifecycleReplaysTo, RoleChangesLink, Holder;
    IndexedIsStored(s, k);
  }

  lemma RefreshKeepsReachable(s: State, baseline: string, inputs: Option<Inputs>)
    requires Reachable(s)
    ensures var got := RefreshCase(s, baseline, inputs);
      && Reachable(got.state)
      && (got.result.Ok? ==> CaseInv(got.result.value) && got.result.value.key.caseId != "")
  {
    hide FilesInv, IndexInv, CaseInv, Refreshed, Persist, CaseId;
    RefreshKeepsFiles(s, baseline, inputs);
    if baseline != "" && inputs.Some? {
      var previous := LoadCaseForBaseline(s, baseline);
      CaseIdsAreNotEmpty(baseline, inputs.value.reportId);
      RefreshedKey(baseline, inputs.value, previous);
      PersistKeepsIndex(s, Refreshed(baseline, inputs.value, previous), previous);
    }
  }

  lemma RefreshedKey(baseline: string, inputs: Inputs, previous: Option<Case>)
    ensures Refreshed(baseline, inputs, previous).key
        == Key(CaseId(baseline, inputs.reportId), baseline, inputs.reportId)
  {
  }

  lemma CaseIdsAreNotEmpty(baseline: string, reportId: string)
    ensures CaseId(baseline, reportId) != ""
  {
    assert CaseId(baseline, reportId)[0] == 'a';
  }

  lemma UpdateKeepsReachable(s: State, current: Case, change: Change)
    requires Reachable(s) && AuditReplays(current) && current.key.caseId != ""
    ensures Reachable(UpdateCurrent(s, current, change).state)
  {
    hide FilesInv, IndexInv, AuditReplays, Persist;
    UpdateKeepsFiles(s, current, change);
    if Accepts(current, change) {
      PersistKeepsIndex(s, Revised(current, NextStatus(current.status, change.status).value, change), Some(current));
    }
  }

  lemma StoredAndLoaded(s: State, k: string)
    requires Reachable(s) && LoadCaseForBaseline(s, k).Some?
    ensures AuditReplays(LoadCaseForBaseline(s, k).value) && LoadCaseForBaseline(s, k).value.key.caseId != ""
  {
    hide Reachable, AuditReplays;
    IndexedIsStored(s, k);
    StoredIsSound(s, k);
  }

  lemma CaseInvReplays(c: Case)
    requires CaseInv(c)
    ensures AuditReplays(c) && c.revision >= 1
  {
  }

  lemma StepKeepsReachable(s: State, cmd: Command)
    requires Reachable(s)
    ensures Reachable(Execute(s, cmd).state)
  {
    hide Reachable, CaseInv, UpdateCurrent, RefreshCase, LoadCaseForBaseline, AuditReplays;
    RefreshKeepsReachable(s, cmd.baseline, cmd.inputs);
    if cmd.Collaborate? && cmd.baseline != "" {
      var stored, got := LoadCaseForBaseline(s, cmd.baseline), RefreshCase(s, cmd.baseline, cmd.inputs);
      if stored.Some? {
        StoredAndLoaded(s, cmd.baseline);
        UpdateKeepsReachable(s, stored.value, cmd.change);
      } else if got.result.Ok? {
        CaseInvReplays(got.result.value);
        UpdateKeepsReachable(got.state, got.result.value, cmd.change);
      }
    }
  }

  lemma {:induction false} RunIsReachable(cmds: seq<Command>)
    ensures Reachable(Run(EMPTY, cmds))
  {
    if cmds != [] {
      RunIsReachable(Init(cmds));
      StepKeepsReachable(Run(EMPTY, Init(cmds)), Last(cmds));
    }
  }

  // ---------------------------------------------------------------------------------
  // The revision a command writes.
  // ---------------------------------------------------------------------------------

  /** The status asked for is known and may follow the current one. */
  predicate Accepts(c: Case, change: Change) {
    var next := NextStatus(c.status, change.status);
    next.Some? && next.value in AllowedTransitions(c.status)
  }

  /** An accepted update changes the stored payload: it asks for something, or adds the first log
      entry, or forgets an override. */
  predicate UpdateChanges(c: Case, change: Change) {
    !AsksForNothing(c, change) || c.lifecycle == [] || c.gathered.override != None
  }

  lemma UpdatedRevision(s: State, baseline: string, change: Change)
    requires Reachable(s) && baseline in s.index
    requires IndexedIn(s, baseline) && Accepts(Stored(s, baseline), change)
    ensures var c, current := Stored(s, baseline), Loaded(Stored(s, baseline));
      var candidate := Revised(current, NextStatus(c.status, change.status).value, change);
      && (PayloadChanged(s.files, candidate, Some(current)) <==> UpdateChanges(c, change))
      && Persisted(s.files, candidate, Some(current)).key == c.key
      && Persisted(s.files, candidate, Some(current)).revision == c.revision + if UpdateChanges(c, change) then 1 else 0
  {
    hide Reachable, SameFingerprint, UpdateChanges, AuditReplays, Accepts, CasePath;
    var c, current := Stored(s, baseline), Loaded(Stored(s, baseline));
    StoredIsSound(s, baseline);
    ChangesExactlyWhen(c, change);
  }

  lemma ChangesExactlyWhen(c: Case, change: Change)
    requires Accepts(c, change)
    ensures !SameFingerprint(c, Revised(Loaded(c), NextStatus(c.status, change.status).value, change))
        <==> UpdateChanges(c, change)
  {
  }

  lemma UnknownHasNoFile(s: State, baseline: string, p: string)
    requires Reachable(s) && baseline !in s.index && p in s.files
    ensures s.files[p].key.baseline != baseline
  {
    hide FilesInv, IndexedAreStored, EventsAreIndexed;
  }

  lemma RefreshedRevision(s: State, baseline: string, inputs: Inputs)
    requires Reachable(s) && baseline != ""
    ensures var previous := LoadCaseForBaseline(s, baseline);
      var candidate := Refreshed(baseline, inputs, previous);
      && (previous.None? ==> PayloadChanged(s.files, candidate, previous))
      && Persisted(s.files, candidate, previous).key == candidate.key
      && Persisted(s.files, candidate, previous).revision
           == RevisionBefore(previous) + if PayloadChanged(s.files, candidate, previous) then 1 else 0
  {
    hide Reachable, AuditReplays, CasePath, CaseId;
    var previous := LoadCaseForBaseline(s, baseline);
    IndexedIsStored(s, baseline);
    if previous.Some? {
      StoredIsSound(s, baseline);
    } else if CasePath(CaseId(baseline, inputs.reportId)) in s.files {
      UnknownHasNoFile(s, baseline, CasePath(CaseId(baseline, inputs.reportId)));
    }
  }

  /** The refresh of one baseline writes over the stored case of another. */
  predicate Overwrites(s: State, baseline: string, inputs: Inputs, other: string)
    requires other in s.index
  {
    CasePath(CaseId(baseline, inputs.reportId)) == CasePath(s.index[other])
  }

  lemma OverwritingChangesPayload(s: State, baseline: string, inputs: Inputs, other: string)
    requires Reachable(s) && baseline != "" && IndexedIn(s, other) && other != baseline
    requires Overwrites(s, baseline, inputs, other)
    ensures var previous := LoadCaseForBaseline(s, baseline);
      || PayloadChanged(s.files, Refreshed(baseline, inputs, previous), previous)
      || (previous.Some? && previous.value.revision == Stored(s, other).revision)
  {
    hide Reachable, AuditReplays, CasePath, CaseId;
    var previous := LoadCaseForBaseline(s, baseline);
    IndexedIsStored(s, baseline);
    if previous.Some? {
      StoredIsSound(s, baseline);
    } else {
      UnknownHasNoFile(s, baseline, CasePath(CaseId(baseline, inputs.reportId)));
    }
  }

  /** Where a write shows: in the case of its own baseline, and in those stored on the same path. */
  predicate Shows(s: State, c: Case, other: string)
    requires other in s.index
  {
    other == c.key.baseline || CasePath(s.index[other]) == CasePath(c.key.caseId)
  }

  lemma WriteEffect(s: State, c: Case, other: string, outbox: seq<Event>)
    requires IndexedIn(s, other)
    ensures var s' := WriteCase(s, c).(outbox := outbox);
      IndexedIn(s', other) && Stored(s', other) == if Shows(s, c, other) then c else Stored(s, other)
  {
    hide CasePath;
  }

  // ---------------------------------------------------------------------------------
  // When the revision of a baseline falls.
  // ---------------------------------------------------------------------------------

  /** The command lowers the revision of the baseline's stored case: a refresh of another baseline
      writes over it and is not that far yet, or an update reaches a file that has become the
      baseline's through another one, and the baseline has meanwhile got further elsewhere. */
  predicate Lowers(s: State, cmd: Command, other: string)
    requires IndexedIn(s, other)
  {
    var revision, mine := Stored(s, other).revision, LoadCaseForBaseline(s, cmd.baseline);
    && cmd.baseline != ""
    && match cmd
       case Refresh(b, inputs) =>
         inputs.Some? && Overwrites(s, b, inputs.value, other) && RevisionBefore(mine) + 1 < revision
       case Collaborate(b, inputs, change) =>
         if mine.Some? then
           var c := Stored(s, b);
           && Accepts(c, change) && c.key.baseline == other
           && c.revision + (if UpdateChanges(c, change) then 1 else 0) < revision
         else
           && inputs.Some? && Overwrites(s, b, inputs.value, other)
           && (if AcceptsAtOpen(change) then 2 else 1) < revision
  }

  predicate IndexedIn(s: State, baseline: string) { baseline in s.index && CasePath(s.index[baseline]) in s.files }

  /** The status asked for may follow `open`. */
  predicate AcceptsAtOpen(change: Change) {
    var next := NextStatus(Open, change.status);
    next.Some? && next.value in AllowedTransitions(Open)
  }

  lemma RefreshLowersExactlyWhen(s: State, baseline: string, inputs: Inputs, other: string)
    requires Reachable(s) && other in s.index && baseline != ""
    ensures var s' := RefreshCase(s, baseline, Some(inputs)).state;
      && IndexedIn(s, other) && IndexedIn(s', other)
      && (Stored(s', other).revision < Stored(s, other).revision
          <==> Overwrites(s, baseline, inputs, other)
               && RevisionBefore(LoadCaseForBaseline(s, baseline)) + 1 < Stored(s, other).revision)
  {
    hide Reachable, Refreshed, PayloadChanged, Persisted, CasePath, CaseId, LoadCaseForBaseline, CaseInv, AuditReplays;
    var previous := LoadCaseForBaseline(s, baseline);
    var candidate := Refreshed(baseline, inputs, previous);
    var c := Persisted(s.files, candidate, previous);
    RefreshedKey(baseline, inputs, previous);
    RefreshedRevision(s, baseline, inputs);
    IndexedIsStored(s, other);
    IndexedIsStored(s, baseline);
    WriteEffect(s, c, other, Published(s.outbox, c, previous));
    if other == baseline {
      StoredIsSound(s, baseline);
    } else if Overwrites(s, baseline, inputs, other) {
      OverwritingChangesPayload(s, baseline, inputs, other);
    }
  }

  lemma UpdateLowersExactlyWhen(s: State, baseline: string, change: Change, other: string)
    requires Reachable(s) && other in s.index && baseline in s.index
    ensures IndexedIn(s, baseline) && IndexedIn(s, other)
    ensures var c := Stored(s, baseline); var s' := UpdateCurrent(s, Loaded(c), change).state;
      && IndexedIn(s', other)
      && (Stored(s', other).revision < Stored(s, other).revision
          <==> Accepts(c, change) && c.key.baseline == other
               && c.revision + (if UpdateChanges(c, change) then 1 else 0) < Stored(s, other).revision)
  {
    hide Reachable, Revised, PayloadChanged, Persisted, CasePath, UpdateChanges, CaseInv, AuditReplays;
    IndexedIsStored(s, baseline);
    IndexedIsStored(s, other);
    StoredIsSound(s, baseline);
    var c, current := Stored(s, baseline), Loaded(Stored(s, baseline));
    if Accepts(c, change) {
      var candidate := Revised(current, NextStatus(c.status, change.status).value, change);
      var written := Persisted(s.files, candidate, Some(current));
      UpdatedRevision(s, baseline, change);
      WriteEffect(s, written, other, Published(s.outbox, written, Some(current)));
    }
  }

  lemma FirstUpdateRevision(s: State, current: Case, change: Change)
    requires current.key.caseId != "" && CasePath(current.key.caseId) in s.files
        && s.files[CasePath(current.key.caseId)] == current
    requires current.lifecycle == [] && current.status == Open && current.revision == 1 && AcceptsAtOpen(change)
    ensures var c := Persisted(s.files, Revised(current, NextStatus(Open, change.status).value, change), Some(current));
      c.revision == 2 && c.key == current.key
  {
    hide CasePath;
  }

  /** An update of an unknown baseline refreshes it first, at revision 1, and then adds the first
      log entries, at revision 2. */
  lemma FirstUpdateLowersExactlyWhen(s: State, baseline: string, inputs: Inputs, change: Change, other: string)
    requires Reachable(s) && other in s.index && baseline != "" && baseline !in s.index
    ensures var got := RefreshCase(s, baseline, Some(inputs));
      got.result.Ok? && IndexedIn(s, other)
      && var s' := UpdateCurrent(got.state, got.result.value, change).state;
      && IndexedIn(s', other)
      && (Stored(s', other).revision < Stored(s, other).revision
          <==> Overwrites(s, baseline, inputs, other)
               && (if AcceptsAtOpen(change) then 2 else 1) < Stored(s, other).revision)
  {
    hide Reachable, PayloadChanged, Persisted, CasePath, CaseId, CaseInv, AuditReplays, Revised, Refreshed,
        LoadCaseForBaseline;
    IndexedIsStored(s, baseline);
    IndexedIsStored(s, other);
    StoredIsSound(s, other);
    var candidate := Refreshed(baseline, inputs, None);
    var current, s1 := Persisted(s.files, candidate, None), Persist(s, candidate, None);
    FirstRefresh(s, baseline, inputs);
    WriteEffect(s, current, other, Published(s.outbox, current, None));
    CaseInvReplays(Stored(s, other));
    if AcceptsAtOpen(change) {
      FirstUpdateRevision(s1, current, change);
      var written := Persisted(s1.files, Revised(current, NextStatus(Open, change.status).value, change),
          Some(current));
      WriteEffect(s1, written, other, Published(s1.outbox, written, Some(current)));
    }
  }

  lemma FirstRefresh(s: State, baseline: string, inputs: Inputs)
    requires Reachable(s) && baseline != "" && baseline !in s.index
    ensures var c := Persisted(s.files, Refreshed(baseline, inputs, None), None);
      && c.key == Key(CaseId(baseline, inputs.reportId), baseline, inputs.reportId) && c.key.caseId != ""
      && c.revision == 1 && c.status == Open && c.lifecycle == []
  {
    hide Reachable, PayloadChanged, CasePath, CaseId, LoadCaseForBaseline;
    IndexedIsStored(s, baseline);
    RefreshedRevision(s, baseline, inputs);
    CaseIdsAreNotEmpty(baseline, inputs.reportId);
  }

  /** In every reachable state a command lowers the revision of a baseline's case exactly then. */
  lemma StepLowersExactlyWhen(s: State, cmd: Command, other: string)
    requires Reachable(s) && other in s.index
    ensures var s' := Execute(s, cmd).state;
      && IndexedIn(s, other) && IndexedIn(s', other)
      && (Stored(s', other).revision < Stored(s, other).revision <==> Lowers(s, cmd, other))
  {
    hide Reachable, Overwrites, Accepts, UpdateChanges, AcceptsAtOpen, UpdateCurrent, CasePath, Stored, CaseInv,
        AuditReplays;
    IndexedIsStored(s, other);
    IndexedIsStored(s, cmd.baseline);
    if cmd.baseline != "" {
      if cmd.baseline in s.index {
        StoredIsSound(s, cmd.baseline);
      }
      match cmd
      case Refresh(b, inputs) =>
        if inputs.Some? {
          RefreshLowersExactlyWhen(s, b, inputs.value, other);
        }
      case Collaborate(b, inputs, change) =>
        if b in s.index {
          UpdateLowersExactlyWhen(s, b, change, other);
        } else if inputs.Some? {
          FirstUpdateLowersExactlyWhen(s, b, inputs.value, change, other);
        }
    }
  }

  /** The revision never falls along a run ... */
  ghost predicate NeverFalls(cmds: seq<Command>, other: string) {
    cmds != [] ==>
      && NeverFalls(Init(cmds), other)
      && (other in Run(EMPTY, Init(cmds)).index ==> NoLower(Run(EMPTY, Init(cmds)), Run(EMPTY, cmds), other))
  }

  /** ... and no command of the run is one that lowers it. */
  ghost predicate NeverLowered(cmds: seq<Command>, other: string) {
    cmds != [] ==>
      && NeverLowered(Init(cmds), other)
      && (IndexedIn(Run(EMPTY, Init(cmds)), other) ==> !Lowers(Run(EMPTY, Init(cmds)), Last(cmds), other))
  }

  /** Over every run, whoever shares directories with whom. */
  lemma {:induction false} RevisionNeverFallsExactlyWhen(cmds: seq<Command>, other: string)
    ensures NeverFalls(cmds, other) <==> NeverLowered(cmds, other)
  {
    if cmds != [] {
      RevisionNeverFallsExactlyWhen(Init(cmds), other);
      RunIsReachable(Init(cmds));
      if other in Run(EMPTY, Init(cmds)).index {
        StepLowersExactlyWhen(Run(EMPTY, Init(cmds)), Last(cmds), other);
      }
    }
  }

  // ---------------------------------------------------------------------------------
  // When a published revision does not rise.
  // ---------------------------------------------------------------------------------

  /** The highest revision published for a baseline; 0 when there is none. */
  function Highest(outbox: seq<Event>, baseline: string): int {
    if outbox == [] then 0
    else
      var before, e := Highest(Init(outbox), baseline), Last(outbox);
      if e.baseline == baseline && before < e.contract.revision then e.contract.revision else before
  }

  lemma {:induction false} HighestIsHighest(outbox: seq<Event>, baseline: string)
    ensures Highest(outbox, baseline) >= 0
    ensures forall e :: e in outbox && e.baseline == baseline ==> e.contract.revision <= Highest(outbox, baseline)
    ensures Highest(outbox, baseline) > 0 ==>
      exists e :: e in outbox && e.baseline == baseline && e.contract.revision == Highest(outbox, baseline)
  {
    if outbox != [] {
      HighestIsHighest(Init(outbox), baseline);
      assert outbox == Init(outbox) + [Last(outbox)];
    }
  }

  lemma HighestAfter(outbox: seq<Event>, event: Event, baseline: string)
    ensures var before, revision := Highest(outbox, baseline), event.contract.revision;
      Highest(outbox + [event], baseline)
      == if event.baseline == baseline && before < revision then revision else before
  {
    assert Init(outbox + [event]) == outbox;
  }

  lemma UnknownIsUnpublished(s: State, baseline: string)
    requires Reachable(s) && baseline !in s.index
    ensures Highest(s.outbox, baseline) == 0
  {
    hide FilesInv, IndexedAreStored, StoredAreIndexed, Highest;
    HighestIsHighest(s.outbox, baseline);
  }

  lemma AppendedRisesExactlyWhen(outbox: seq<Event>, event: Event)
    requires event.contract.revision >= 1
    ensures RevisionsRise(outbox + [event])
            <==> RevisionsRise(outbox) && Highest(outbox, event.baseline) < event.contract.revision
  {
    hide Highest;
    HighestIsHighest(outbox, event.baseline);
    if RevisionsRise(outbox + [event]) {
      var all := outbox + [event];
      assert forall i :: 0 <= i < |outbox| ==> all[i] == outbox[i];
      assert all[|outbox|] == event;
    } else if RevisionsRise(outbox) && Highest(outbox, event.baseline) < event.contract.revision {
      AppendedRevisionsRise(outbox, event);
    }
  }

  /** A write is published exactly when the decision is final and the payload changed. */
  lemma PublishesExactlyWhen(s: State, candidate: Case, previous: Option<Case>)
    requires previous.None? ==> PayloadChanged(s.files, candidate, previous)
    requires previous.Some? ==>
      var p := previous.value;
      && p.key.caseId != "" && p.revision >= 1 && p.contract == ContractOf(p, p.revision)
      && LoadRaw(s.files, p.key.caseId).Some? && Loaded(LoadRaw(s.files, p.key.caseId).value) == Loaded(p)
    ensures var c := Persisted(s.files, candidate, previous);
      && c.contract.revision == c.revision
      && Published(s.outbox, c, previous)
         == s.outbox + if IsFinal(candidate.gathered.decision) && PayloadChanged(s.files, candidate, previous)
                       then [Event(candidate.key.baseline, c.contract)] else []
  {
    hide CasePath;
  }

  /** The command publishes a revision that is not above all those published for its baseline. */
  predicate Republishes(s: State, cmd: Command)
    requires cmd.baseline in s.index ==> IndexedIn(s, cmd.baseline)
  {
    && cmd.baseline != "" && cmd.baseline in s.index
    && var c := Stored(s, cmd.baseline);
      match cmd
      case Refresh(b, inputs) =>
        && inputs.Some? && IsFinal(inputs.value.gathered.decision)
        && !SameFingerprint(c, Refreshed(b, inputs.value, Some(Loaded(c))))
        && c.revision + 1 <= Highest(s.outbox, b)
      case Collaborate(_, _, change) =>
        && Accepts(c, change) && IsFinal(c.gathered.decision) && UpdateChanges(c, change)
        && c.revision + 1 <= Highest(s.outbox, c.key.baseline)
  }

  /** What is known of the stored case when it is the previous one. */
  lemma StoredIsPrevious(s: State, baseline: string)
    requires Reachable(s) && baseline in s.index
    ensures IndexedIn(s, baseline)
    ensures var c := Stored(s, baseline);
      && c.revision >= 1 && c.contract == ContractOf(c, c.revision) && c.key.caseId != ""
      && LoadRaw(s.files, c.key.caseId) == Some(c) && LoadCaseForBaseline(s, baseline) == Some(Loaded(c))
  {
    hide Reachable, AuditReplays, CasePath;
    StoredIsSound(s, baseline);
  }

  lemma RefreshRisesExactlyWhen(s: State, baseline: string, inputs: Inputs)
    requires Reachable(s) && baseline != "" && (baseline in s.index ==> IndexedIn(s, baseline))
    ensures RevisionsRise(RefreshCase(s, baseline, Some(inputs)).state.outbox)
            <==> RevisionsRise(s.outbox) && !Republishes(s, Refresh(baseline, Some(inputs)))
  {
    hide Reachable, RevisionsRise, CasePath, CaseId, Refreshed, Persisted, SameFingerprint, LoadCaseForBaseline,
        IsFinal, Highest;
    var previous := LoadCaseForBaseline(s, baseline);
    var candidate := Refreshed(baseline, inputs, previous);
    var c := Persisted(s.files, candidate, previous);
    IndexedIsStored(s, baseline);
    RefreshedKey(baseline, inputs, previous);
    RefreshedRevision(s, baseline, inputs);
    RefreshedDecision(baseline, inputs, previous);
    if previous.Some? {
      StoredIsPrevious(s, baseline);
    } else {
      UnknownIsUnpublished(s, baseline);
    }
    PublishesExactlyWhen(s, candidate, previous);
    AppendedOrNot(s.outbox, Event(baseline, c.contract), Published(s.outbox, c, previous));
  }

  lemma RefreshedDecision(baseline: string, inputs: Inputs, previous: Option<Case>)
    ensures Refreshed(baseline, inputs, previous).gathered == inputs.gathered
  {
  }

  lemma AppendedOrNot(outbox: seq<Event>, event: Event, outbox': seq<Event>)
    requires outbox' == outbox + [event] || outbox' == outbox + []
    requires outbox' == outbox + [event] ==> event.contract.revision >= 1
    ensures RevisionsRise(outbox')
            <==> RevisionsRise(outbox)
                 && (outbox' == outbox + [event] ==> Highest(outbox, event.baseline) < event.contract.revision)
  {
    hide RevisionsRise, Highest;
    if outbox' == outbox + [event] {
      AppendedRisesExactlyWhen(outbox, event);
    } else {
      assert outbox' == outbox;
    }
  }

  lemma UpdateRisesExactlyWhen(s: State, baseline: string, inputs: Option<Inputs>, change: Change)
    requires Reachable(s) && baseline != "" && IndexedIn(s, baseline)
    ensures RevisionsRise(UpdateCurrent(s, Loaded(Stored(s, baseline)), change).state.outbox)
            <==> RevisionsRise(s.outbox) && !Republishes(s, Collaborate(baseline, inputs, change))
  {
    hide Reachable, RevisionsRise, CasePath, PayloadChanged, Persisted, UpdateChanges, IsFinal, Highest;
    var c, current := Stored(s, baseline), Loaded(Stored(s, baseline));
    StoredIsPrevious(s, baseline);
    if Accepts(c, change) {
      var candidate := Revised(current, NextStatus(c.status, change.status).value, change);
      var written := Persisted(s.files, candidate, Some(current));
      UpdatedRevision(s, baseline, change);
      PublishesExactlyWhen(s, candidate, Some(current));
      AppendedOrNot(s.outbox, Event(c.key.baseline, written.contract), Published(s.outbox, written, Some(current)));
    }
  }

  /** The first refresh publishes revision 1, the update after it revision 2, and nothing was
      published before. */
  lemma FirstUpdateRises(s: State, baseline: string, inputs: Inputs, change: Change)
    requires Reachable(s) && baseline != "" && baseline !in s.index
    ensures var got := RefreshCase(s, baseline, Some(inputs));
      && got.result.Ok?
      && (RevisionsRise(UpdateCurrent(got.state, got.result.value, change).state.outbox) <==> RevisionsRise(s.outbox))
  {
    hide Reachable, RevisionsRise, CasePath, CaseId, PayloadChanged, Persisted, Refreshed, LoadCaseForBaseline, IsFinal;
    hide Highest, Revised;
    var candidate := Refreshed(baseline, inputs, None);
    var current, s1 := Persisted(s.files, candidate, None), Persist(s, candidate, None);
    var first := Event(baseline, current.contract);
    IndexedIsStored(s, baseline);
    FirstRefresh(s, baseline, inputs);
    RefreshedKey(baseline, inputs, None);
    RefreshedRevision(s, baseline, inputs);
    UnknownIsUnpublished(s, baseline);
    PublishesExactlyWhen(s, candidate, None);
    AppendedOrNot(s.outbox, first, s1.outbox);
    HighestAfter(s.outbox, first, baseline);
    if AcceptsAtOpen(change) {
      var candidate2 := Revised(current, NextStatus(Open, change.status).value, change);
      var written := Persisted(s1.files, candidate2, Some(current));
      FirstUpdateRevision(s1, current, change);
      PersistedContract(s.files, candidate, None);
      PublishesExactlyWhen(s1, candidate2, Some(current));
      AppendedOrNot(s1.outbox, Event(baseline, written.contract), Published(s1.outbox, written, Some(current)));
    }
  }

  lemma PersistedContract(files: map<string, Case>, candidate: Case, previous: Option<Case>)
    ensures var c := Persisted(files, candidate, previous); c.contract == ContractOf(c, c.revision)
  {
  }

  /** In every reachable state a command leaves the published revisions rising exactly then. */
  lemma StepRisesExactlyWhen(s: State, cmd: Command)
    requires Reachable(s)
    ensures cmd.baseline in s.index ==> IndexedIn(s, cmd.baseline)
    ensures RevisionsRise(Execute(s, cmd).state.outbox) <==> RevisionsRise(s.outbox) && !Republishes(s, cmd)
  {
    hide Reachable, RevisionsRise, Accepts, UpdateChanges, UpdateCurrent, CasePath, Stored, Refreshed,
        SameFingerprint, IsFinal, Highest;
    IndexedIsStored(s, cmd.baseline);
    if cmd.baseline != "" {
      if cmd.baseline in s.index {
        StoredIsPrevious(s, cmd.baseline);
      }
      match cmd
      case Refresh(b, inputs) =>
        if inputs.Some? {
          RefreshRisesExactlyWhen(s, b, inputs.value);
        }
      case Collaborate(b, inputs, change) =>
        if b in s.index {
          UpdateRisesExactlyWhen(s, b, inputs, change);
        } else if inputs.Some? {
          FirstUpdateRises(s, b, inputs.value, change);
        }
    }
  }

  ghost predicate NeverRepublishes(cmds: seq<Command>) {
    cmds != [] ==>
      && NeverRepublishes(Init(cmds))
      && var s, cmd := Run(EMPTY, Init(cmds)), Last(cmds);
        (cmd.baseline in s.index ==> IndexedIn(s, cmd.baseline)) && !Republishes(s, cmd)
  }

  /** Over every run the published revisions of every baseline rise strictly, or one of the
      commands republishes. */
  lemma {:induction false} PublishedRevisionsRiseExactlyWhen(cmds: seq<Command>)
    ensures RevisionsRise(Run(EMPTY, cmds).outbox) <==> NeverRepublishes(cmds)
  {
    if cmds != [] {
      PublishedRevisionsRiseExactlyWhen(Init(cmds));
      RunIsReachable(Init(cmds));
      StepRisesExactlyWhen(Run(EMPTY, Init(cmds)), Last(cmds));
    }
  }

  // ---------------------------------------------------------------------------------
  // Published revisions against stored ones.
  // ---------------------------------------------------------------------------------

  lemma PersistPublishesStored(s: State, candidate: Case, previous: Option<Case>, baseline: string)
    ensures var s' := Persist(s, candidate, previous);
      || Highest(s'.outbox, baseline) <= Highest(s.outbox, baseline)
      || (IndexedIn(s', baseline) && Highest(s'.outbox, baseline) == Stored(s', baseline).revision)
  {
    hide PayloadChanged, CasePath, IsFinal, Highest;
    var c := Persisted(s.files, candidate, previous);
    HighestAfter(s.outbox, Event(c.key.baseline, c.contract), baseline);
  }

  lemma StoredIsPositive(s: State, baseline: string)
    requires Reachable(s) && baseline in s.index
    ensures IndexedIn(s, baseline) && Stored(s, baseline).revision >= 1
  {
    hide Reachable, CasePath, AuditReplays;
    StoredIsSound(s, baseline);
  }

  lemma StepPublishesStored(s: State, cmd: Command, baseline: string)
    requires Reachable(s)
    ensures var s' := Execute(s, cmd).state;
      || Highest(s'.outbox, baseline) <= Highest(s.outbox, baseline)
      || (IndexedIn(s', baseline) && Highest(s'.outbox, baseline) <= Stored(s', baseline).revision)
  {
    hide Reachable, Persist, CasePath, LoadCaseForBaseline, Refreshed, Revised, Highest, Stored;
    StepKeepsReachable(s, cmd);
    IndexedIsStored(s, cmd.baseline);
    if cmd.baseline != "" {
      if cmd.Collaborate? && cmd.baseline in s.index {
        UpdatePublishesStored(s, LoadCaseForBaseline(s, cmd.baseline).value, cmd.change, baseline);
      } else if cmd.inputs.Some? {
        var previous := LoadCaseForBaseline(s, cmd.baseline);
        PersistPublishesStored(s, Refreshed(cmd.baseline, cmd.inputs.value, previous), previous, baseline);
        if cmd.Collaborate? {
          FirstUpdatePublishesStored(s, cmd.baseline, cmd.inputs.value, cmd.change, baseline);
        }
      }
    }
  }

  lemma UpdatePublishesStored(s: State, current: Case, change: Change, baseline: string)
    ensures var s' := UpdateCurrent(s, current, change).state;
      || Highest(s'.outbox, baseline) <= Highest(s.outbox, baseline)
      || (IndexedIn(s', baseline) && Highest(s'.outbox, baseline) == Stored(s', baseline).revision)
  {
    hide Persist, CasePath, Revised, Highest, Stored;
    if Accepts(current, change) {
      PersistPublishesStored(s, Revised(current, NextStatus(current.status, change.status).value, change),
          Some(current), baseline);
    }
  }

  lemma FirstUpdatePublishesStored(s: State, unknown: string, inputs: Inputs, change: Change, baseline: string)
    requires Reachable(s) && unknown != "" && unknown !in s.index
    ensures var s' := UpdateCase(s, unknown, Some(inputs), change).state;
      || Highest(s'.outbox, baseline) <= Highest(s.outbox, baseline)
      || (IndexedIn(s', baseline) && Highest(s'.outbox, baseline) <= Stored(s', baseline).revision)
  {
    hide Reachable, Persist, CasePath, LoadCaseForBaseline, Refreshed, Revised, Highest, Stored;
    var got := RefreshCase(s, unknown, Some(inputs));
    var s' := UpdateCurrent(got.state, got.result.value, change).state;
    IndexedIsStored(s, unknown);
    StepKeepsReachable(s, Collaborate(unknown, Some(inputs), change));
    FirstPublished(s, unknown, inputs, baseline);
    UpdatePublishesStored(got.state, got.result.value, change, baseline);
    UpdateKeepsIndexed(got.state, got.result.value, change, baseline);
    if baseline in s'.index {
      StoredIsPositive(s', baseline);
    }
  }

  lemma FirstPublished(s: State, unknown: string, inputs: Inputs, baseline: string)
    requires Reachable(s) && unknown != "" && unknown !in s.index
    ensures var s' := RefreshCase(s, unknown, Some(inputs)).state;
      Highest(s'.outbox, baseline) <= Highest(s.outbox, baseline)
          || (baseline in s'.index && Highest(s'.outbox, baseline) == 1)
  {
    hide Reachable, PayloadChanged, Persisted, CasePath, LoadCaseForBaseline, Refreshed, Highest, IsFinal;
    IndexedIsStored(s, unknown);
    FirstRefresh(s, unknown, inputs);
    var candidate := Refreshed(unknown, inputs, None);
    var c := Persisted(s.files, candidate, None);
    PersistedContract(s.files, candidate, None);
    HighestAfter(s.outbox, Event(unknown, c.contract), baseline);
  }

  lemma UpdateKeepsIndexed(s: State, current: Case, change: Change, baseline: string)
    ensures baseline in s.index ==> baseline in UpdateCurrent(s, current, change).state.index
  {
  }

  /** While its revision never falls, nothing above a baseline's stored revision is published. */
  lemma {:induction false} PublishedUpToStored(cmds: seq<Command>, baseline: string)
    requires NeverLowered(cmds, baseline) && baseline in Run(EMPTY, cmds).index
    ensures var s := Run(EMPTY, cmds);
      IndexedIn(s, baseline) && Highest(s.outbox, baseline) <= Stored(s, baseline).revision
  {
    hide Reachable, Lowers, Highest, CasePath, Stored;
    if cmds != [] {
      var s, s' := Run(EMPTY, Init(cmds)), Run(EMPTY, cmds);
      RunIsReachable(Init(cmds));
      RunIsReachable(cmds);
      StoredIsPositive(s', baseline);
      StepPublishesStored(s, Last(cmds), baseline);
      if baseline in s.index {
        StepLowersExactlyWhen(s, Last(cmds), baseline);
        PublishedUpToStored(Init(cmds), baseline);
      } else {
        UnknownIsUnpublished(s, baseline);
      }
    }
  }

  // ---------------------------------------------------------------------------------
  // A run in which a revision falls and is published twice.
  // ---------------------------------------------------------------------------------

  lemma DirectoryIsShared(x: string, y: string, report: string)
    ensures var a, b := x + "/" + y, x + "_" + y;
      a != b && CasePath(CaseId(a, report)) == CasePath(CaseId(b, report))
  {
    var a, b := x + "/" + y, x + "_" + y;
    assert a[|x|] != b[|x|];
    SlashIsUnderscore(x, y);
    SafeJoin(PREFIX, a, ReportOrUnknown(report));
    SafeJoin(PREFIX, b, ReportOrUnknown(report));
  }

  /** A case refreshed again, on the same path, with something new in it. */
  lemma RefreshedAgain(s: State, baseline: string, inputs: Inputs) returns (after: Case)
    requires Reachable(s) && baseline != "" && IndexedIn(s, baseline) && IsFinal(inputs.gathered.decision)
    requires CasePath(s.index[baseline]) == CasePath(CaseId(baseline, inputs.reportId))
    requires var c := Stored(s, baseline);
      c.gathered != inputs.gathered || c.updatedBy != inputs.updatedBy || c.key.baseline != baseline
    ensures after.revision == Stored(s, baseline).revision + 1 == after.contract.revision
    ensures RefreshCase(s, baseline, Some(inputs)).state
            == State(s.files[CasePath(CaseId(baseline, inputs.reportId)) := after],
                     s.index[baseline := CaseId(baseline, inputs.reportId)],
                     s.outbox + [Event(baseline, after.contract)])
  {
    hide Reachable, RevisionsRise, CasePath, CaseId, PayloadChanged, Persisted, Refreshed, Published, IsFinal;
    hide LoadCaseForBaseline;
    var previous := LoadCaseForBaseline(s, baseline);
    after := Persisted(s.files, Refreshed(baseline, inputs, previous), previous);
    StoredIsPrevious(s, baseline);
    RefreshedKey(baseline, inputs, previous);
    RefreshedDecision(baseline, inputs, previous);
    RefreshedRevision(s, baseline, inputs);
    NewsChangesPayload(s, baseline, inputs);
    PublishesExactlyWhen(s, Refreshed(baseline, inputs, previous), previous);
  }

  lemma NewsChangesPayload(s: State, baseline: string, inputs: Inputs)
    requires Reachable(s) && IndexedIn(s, baseline)
    requires var c := Stored(s, baseline);
      c.gathered != inputs.gathered || c.updatedBy != inputs.updatedBy || c.key.baseline != baseline
    ensures var previous := LoadCaseForBaseline(s, baseline);
      PayloadChanged(s.files, Refreshed(baseline, inputs, previous), previous)
  {
    hide Reachable, CasePath, CaseId;
    StoredIsPrevious(s, baseline);
  }

  lemma RefreshedFirst(s: State, baseline: string, inputs: Inputs) returns (after: Case)
    requires Reachable(s) && baseline != "" && baseline !in s.index && IsFinal(inputs.gathered.decision)
    ensures after.revision == 1 == after.contract.revision && after.key.baseline == baseline
    ensures after.gathered == inputs.gathered && after.updatedBy == inputs.updatedBy
    ensures RefreshCase(s, baseline, Some(inputs)).state
            == State(s.files[CasePath(CaseId(baseline, inputs.reportId)) := after],
                     s.index[baseline := CaseId(baseline, inputs.reportId)],
                     s.outbox + [Event(baseline, after.contract)])
  {
    hide Reachable, RevisionsRise, CasePath, CaseId, PayloadChanged, Refreshed, IsFinal, Published;
    after := Persisted(s.files, Refreshed(baseline, inputs, None), None);
    IndexedIsStored(s, baseline);
    FirstRefresh(s, baseline, inputs);
    RefreshedDecision(baseline, inputs, None);
    RefreshedActor(baseline, inputs, None);
    RefreshedRevision(s, baseline, inputs);
    PublishesExactlyWhen(s, Refreshed(baseline, inputs, None), None);
  }

  lemma RefreshedActor(baseline: string, inputs: Inputs, previous: Option<Case>)
    ensures Refreshed(baseline, inputs, previous).updatedBy == inputs.updatedBy
  {
  }

  lemma SecondIsRepeated(first: Event, second: Event, other: Event, again: Event)
    requires first.baseline == second.baseline == again.baseline != other.baseline
    requires first.contract.revision < second.contract.revision == again.contract.revision
    ensures RevisionsRise([first] + [second]) && RevisionsRise([first] + [second] + [other])
    ensures !RevisionsRise([first] + [second] + [other] + [again])
  {
    var all := [first] + [second] + [other] + [again];
    assert all[1] == second && all[3] == again;
  }

  lemma RunOne(cmds: seq<Command>, cmd: Command)
    ensures Run(EMPTY, cmds + [cmd]) == Execute(Run(EMPTY, cmds), cmd).state
  {
    assert Init(cmds + [cmd]) == cmds && Last(cmds + [cmd]) == cmd;
  }

  /** Refreshed twice with different inputs, x/y is at revision 2. A first refresh of x_y with
      the same report takes it down to 1, and a third refresh of x/y publishes revision 2 again. */
  lemma RevisionFallsAndRepeats(x: string, y: string, one: Inputs, two: Inputs)
    requires one.reportId == two.reportId && one != two
    requires IsFinal(one.gathered.decision) && IsFinal(two.gathered.decision)
    ensures var a, b := x + "/" + y, x + "_" + y;
      var cmds := [Refresh(a, Some(one)), Refresh(a, Some(two))];
      var s, s', s'' := Run(EMPTY, cmds), Run(EMPTY, cmds + [Refresh(b, Some(one))]),
                        Run(EMPTY, cmds + [Refresh(b, Some(one))] + [Refresh(a, Some(one))]);
      && IndexedIn(s, a) && Stored(s, a).revision == 2 && RevisionsRise(s.outbox)
      && IndexedIn(s', a) && Stored(s', a).revision == 1 && RevisionsRise(s'.outbox)
      && !RevisionsRise(s''.outbox)
  {
    hide Reachable, RevisionsRise, CasePath, CaseId, Refreshed, Highest, RefreshCase;
    var a, b := x + "/" + y, x + "_" + y;
    DirectoryIsShared(x, y, one.reportId);
    var first, second, third := Refresh(a, Some(one)), Refresh(a, Some(two)), Refresh(b, Some(one));
    RunOne([], first);
    RunOne([first], second);
    RunOne([first, second], third);
    RunOne([first, second] + [third], first);
    assert [first] + [second] == [first, second] && [] + [first] == [first];
    RunIsReachable([]);
    RunIsReachable([first]);
    RunIsReachable([first, second]);
    RunIsReachable([first, second] + [third]);
    var s1, s2, s3 := Run(EMPTY, [first]), Run(EMPTY, [first, second]), Run(EMPTY, [first, second] + [third]);
    var c1 := RefreshedFirst(EMPTY, a, one);
    var c2 := RefreshedAgain(s1, a, two);
    var c3 := RefreshedFirst(s2, b, one);
    var c4 := RefreshedAgain(s3, a, one);
    var e1, e2, e3, e4 := Event(a, c1.contract), Event(a, c2.contract), Event(b, c3.contract), Event(a, c4.contract);
    assert EMPTY.outbox + [e1] == [e1];
    assert s2.outbox == [e1] + [e2] && s3.outbox == [e1] + [e2] + [e3];
    SecondIsRepeated(e1, e2, e3, e4);
  }

  // ---------------------------------------------------------------------------------
  // Runs in which neither happens.
  // ---------------------------------------------------------------------------------

  /** When every path has one owner and every command writes to paths of its own baseline, no
      command lowers a revision and none republishes one. */
  lemma {:induction false} OwnPathsKeepRevisions(owner: string -> string, cmds: seq<Command>, baseline: string)
    requires AllWriteOwnPaths(owner, cmds)
    ensures NeverLowered(cmds, baseline) && NeverRepublishes(cmds)
  {
    OwnPathsNeverFall(owner, cmds, baseline);
    RevisionNeverFallsExactlyWhen(cmds, baseline);
    RunKeepsInv(owner, EMPTY, cmds);
    PublishedRevisionsRiseExactlyWhen(cmds);
  }

  lemma {:induction false} OwnPathsNeverFall(owner: string -> string, cmds: seq<Command>, baseline: string)
    requires AllWriteOwnPaths(owner, cmds)
    ensures NeverFalls(cmds, baseline)
  {
    hide Inv, WritesOwnPaths, NoLower;
    if cmds != [] {
      OwnPathsNeverFall(owner, Init(cmds), baseline);
      EmptyKeepsInv(owner);
      RunKeepsInv(owner, EMPTY, Init(cmds));
      if baseline in Run(EMPTY, Init(cmds)).index {
        StepNeverLowers(owner, Run(EMPTY, Init(cmds)), Last(cmds), baseline);
      }
    }
  }

  lemma EmptyKeepsInv(owner: string -> string)
    ensures Inv(owner, EMPTY)
  {
  }

  ghost predicate AllPlain(cmds: seq<Command>) {
    cmds != [] ==> AllPlain(Init(cmds)) && IsPlain(Last(cmds).baseline)
  }

  lemma {:induction false} PlainRunsWriteOwnPaths(cmds: seq<Command>)
    requires AllPlain(cmds)
    ensures AllWriteOwnPaths(PlainOwner, cmds)
  {
    if cmds != [] {
      PlainRunsWriteOwnPaths(Init(cmds));
      PlainBaselinesWriteOwnPaths(Last(cmds));
    }
  }

  // ---------------------------------------------------------------------------------
  // A run in which an update that asks for nothing raises the revision.
  // ---------------------------------------------------------------------------------

  const IDLE := Change(None, None, None, None, None, "", "")

  lemma FirstUpdateWrites(baseline: string, inputs: Inputs, change: Change)
    requires baseline != "" && AcceptsAtOpen(change)
    ensures var s := Run(EMPTY, [] + [Collaborate(baseline, Some(inputs), change)]);
      && IndexedIn(s, baseline)
      && var c := Stored(s, baseline);
      && c.gathered == inputs.gathered && c.lifecycle != [] && c.updatedBy != "" && c.revision == 2
      && c.key.baseline == baseline
  {
    hide PayloadChanged, CasePath, CaseId, IsFinal;
    RunOne([], Collaborate(baseline, Some(inputs), change));
    RunIsReachable([]);
    FirstRefresh(EMPTY, baseline, inputs);
    var got := RefreshCase(EMPTY, baseline, Some(inputs));
    var current := got.result.value;
    assert current.gathered == inputs.gathered && current.key.baseline == baseline;
    FirstUpdateRevision(got.state, current, change);
    var next := NextStatus(Open, change.status).value;
    var written := Persisted(got.state.files, Revised(current, next, change), Some(current));
    assert Run(EMPTY, [] + [Collaborate(baseline, Some(inputs), change)])
        == Persist(got.state, Revised(current, next, change), Some(current));
    assert written.lifecycle != [] && written.updatedBy != "" && written.revision == 2;
  }

  /** The first update of an unknown baseline stores what was gathered with its override, and
      adds the log. An update that asks for nothing then still raises the revision. */
  lemma IdleUpdateRaises(baseline: string, inputs: Inputs, change: Change)
    requires baseline != "" && AcceptsAtOpen(change) && inputs.gathered.override.Some?
    ensures var cmds := [] + [Collaborate(baseline, Some(inputs), change)];
      var s, s' := Run(EMPTY, cmds), Run(EMPTY, cmds + [Collaborate(baseline, None, IDLE)]);
      && IndexedIn(s, baseline) && Stored(s, baseline).lifecycle != [] && AsksForNothing(Stored(s, baseline), IDLE)
      && IndexedIn(s', baseline) && Stored(s', baseline).revision == Stored(s, baseline).revision + 1
  {
    hide PayloadChanged, Persisted, CasePath, AcceptsAtOpen, Reachable, AuditReplays, Run;
    var cmds := [] + [Collaborate(baseline, Some(inputs), change)];
    var s := Run(EMPTY, cmds);
    RunIsReachable(cmds);
    RunOne(cmds, Collaborate(baseline, None, IDLE));
    FirstUpdateWrites(baseline, inputs, change);
    StoredIsPrevious(s, baseline);
    var c, current := Stored(s, baseline), Loaded(Stored(s, baseline));
    StaysPossible(c.status);
    UpdatedRevision(s, baseline, IDLE);
    var written := Persisted(s.files, Revised(current, c.status, IDLE), Some(current));
    WriteEffect(s, written, baseline, Published(s.outbox, written, Some(current)));
  }

  lemma StaysPossible(status: Status)
    ensures status in AllowedTransitions(status)
  {
  }
}
