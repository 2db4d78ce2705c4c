/** Which issues a query selects, in what order, and what their fingerprints depend on: told place
    by place, with every filter written out. */
module IssueSelection {
  import opened Wrappers
  import opened GroupBy
  import opened FingerprintGovernance
  import opened IssueAggregation

  /** What a scan goes over. */
  datatype Scan = Scan(q: Query, cfg: RuleConfig, repo: Repository, runs: seq<Run>)

  /** A position in it: the run, the instance among those of the run, the issue of the instance. */
  datatype Place = Place(run: nat, instance: nat, issue: nat)

  const NO_TASK := Task("", "", "")

  function TaskOf(sc: Scan, run: Run): Task {
    if run.taskId in sc.repo.tasks then sc.repo.tasks[run.taskId] else NO_TASK
  }

  function InstancesOf(sc: Scan, run: Run): seq<Instance> {
    if run.id in sc.repo.instances then sc.repo.instances[run.id] else []
  }

  predicate IsPlace(sc: Scan, p: Place) {
    && p.run < |sc.runs|
    && p.instance < |InstancesOf(sc, sc.runs[p.run])|
    && p.issue < |InstancesOf(sc, sc.runs[p.run])[p.instance].issues|
  }

  predicate Before(p: Place, p': Place) {
    || p.run < p'.run
    || (p.run == p'.run && p.instance < p'.instance)
    || (p.run == p'.run && p.instance == p'.instance && p.issue < p'.issue)
  }

  /** A run without a creation time counts as created at the earliest one. */
  predicate RunPasses(sc: Scan, run: Run) {
    var q, task := sc.q, TaskOf(sc, run);
    && (q.taskId == "" || q.taskId == run.taskId)
    && (q.runStatus == "" || q.runStatus == run.status)
    && (q.createdFrom == None || q.createdFrom == Some(0)
        || (run.createdAt.Some? && run.createdAt.value >= q.createdFrom.value))
    && (q.createdTo == None || run.createdAt == None || run.createdAt.value <= q.createdTo.value)
    && (q.template == "" || q.template == task.template)
    && (q.version == "" || q.version == task.versionKey)
    && (q.package == "" || q.package == task.package)
  }

  /** The run, its task, the instance and the issue all pass the filters of the query; a filter that
      is left blank passes everything. */
  predicate Passes(sc: Scan, p: Place)
    requires IsPlace(sc, p)
  {
    var run := sc.runs[p.run];
    var inst := InstancesOf(sc, run)[p.instance];
    && RunPasses(sc, run)
    && (sc.q.deviceId == "" || sc.q.deviceId == inst.deviceId)
    && (sc.q.issueType == "" || sc.q.issueType == inst.issues[p.issue].issueType)
  }

  /** What is recorded for the issue at a place. */
  predicate Describes(sc: Scan, p: Place, o: Occurrence)
    requires IsPlace(sc, p)
  {
    var run := sc.runs[p.run];
    var task, inst := TaskOf(sc, run), InstancesOf(sc, run)[p.instance];
    var issue := inst.issues[p.issue];
    && o.event.id == issue.id && o.event.runId == run.id && o.event.deviceId == inst.deviceId
    && o.event.package
       == (if issue.package != "" then issue.package
           else if inst.targetPackage != "" then inst.targetPackage
           else task.package)
    && o.event.scenario == (match inst.template case Some(template) => template case None => task.template)
    && o.event.issueType == issue.issueType && o.event.severity == issue.severity
    && o.event.title
       == (if issue.title != "" then issue.title else if issue.summary != "" then issue.summary else issue.issueType)
    && o.event.detectedAt == issue.detectedAt && o.versionKey == task.versionKey
    && FingerprintDescribes(sc.cfg, issue, o)
  }

  predicate FingerprintDescribes(cfg: RuleConfig, issue: Issue, o: Occurrence) {
    var c := o.fingerprint.components;
    && c.issueType == issue.issueType && c.package == o.event.package
    && c.process == cfg.normalize(issue.process) && c.scenario == cfg.normalize(o.event.scenario)
    && c.titleKey == cfg.normalize(issue.title)
    && c.rawKey == (if issue.issueType in cfg.ignoreRawKeyTypes then "" else cfg.normalize(issue.rawKey))
    && o.fingerprint == IssueFingerprint("ifp_" + cfg.digest(c), cfg.version, c, None)
  }

  /** `places` are exactly the passing places before a bound, each once and in scan order, and the
      occurrences describe them one by one. */
  ghost predicate Lists(sc: Scan, places: seq<Place>, occs: seq<Occurrence>, bound: Place) {
    && |places| == |occs|
    && (forall n :: 0 <= n < |places| ==>
          && IsPlace(sc, places[n]) && Passes(sc, places[n]) && Before(places[n], bound)
          && Describes(sc, places[n], occs[n]))
    && (forall m, n :: 0 <= m < n < |places| ==> Before(places[m], places[n]))
    && (forall p :: IsPlace(sc, p) && Passes(sc, p) && Before(p, bound) ==> p in places)
  }

  /** Where nothing passes in between, the bound may move on. */
  lemma BoundMoves(sc: Scan, places: seq<Place>, occs: seq<Occurrence>, bound: Place, bound': Place)
    requires Lists(sc, places, occs, bound)
    requires forall p :: Before(p, bound) ==> Before(p, bound')
    requires forall p :: IsPlace(sc, p) && Passes(sc, p) && Before(p, bound') ==> Before(p, bound)
    ensures Lists(sc, places, occs, bound')
  {
    hide IsPlace, Passes, Before, Describes;
  }

  /** One more passing place, right at the bound. */
  lemma PlaceIsAdded(sc: Scan, places: seq<Place>, occs: seq<Occurrence>, p: Place, o: Occurrence)
    requires Lists(sc, places, occs, p) && IsPlace(sc, p) && Passes(sc, p) && Describes(sc, p, o)
    ensures Lists(sc, places + [p], occs + [o], p.(issue := p.issue + 1))
  {
    hide IsPlace, Passes, Describes;
  }

  lemma {:induction false} IssuesArePlaced(sc: Scan, at: Place, places: seq<Place>, acc: seq<Occurrence>, n: nat)
    returns (places': seq<Place>)
    requires at.run < |sc.runs| && at.instance < |InstancesOf(sc, sc.runs[at.run])| && at.issue == 0
    requires RunPasses(sc, sc.runs[at.run])
    requires InstanceMatches(sc.q, InstancesOf(sc, sc.runs[at.run])[at.instance])
    requires n <= |InstancesOf(sc, sc.runs[at.run])[at.instance].issues|
    requires Lists(sc, places, acc, at)
    ensures var run := sc.runs[at.run];
      Lists(sc, places', IssueOccurrences(sc.q, sc.cfg, run, sc.repo.GetTask(run.taskId),
                                          InstancesOf(sc, run)[at.instance], acc, n), at.(issue := n))
  {
    hide Lists, RunPasses;
    if n == 0 {
      places' := places;
    } else {
      places' := IssuesArePlaced(sc, at, places, acc, n - 1);
      var run, p := sc.runs[at.run], at.(issue := n - 1);
      var task, inst := sc.repo.GetTask(run.taskId), InstancesOf(sc, run)[at.instance];
      var before := IssueOccurrences(sc.q, sc.cfg, run, task, inst, acc, n - 1);
      if IssueMatches(sc.q, inst.issues[n - 1]) {
        PlaceIsAdded(sc, places', before, p, Occur(sc.cfg, run, task, inst, inst.issues[n - 1]));
        places' := places' + [p];
      } else {
        BoundMoves(sc, places', before, p, at.(issue := n));
      }
    }
  }

  lemma {:induction false} InstancesArePlaced(sc: Scan, at: Place, places: seq<Place>, acc: seq<Occurrence>, n: nat)
    returns (places': seq<Place>)
    requires at.run < |sc.runs| && at.instance == 0 && at.issue == 0 && RunPasses(sc, sc.runs[at.run])
    requires n <= |InstancesOf(sc, sc.runs[at.run])|
    requires Lists(sc, places, acc, at)
    ensures var run := sc.runs[at.run];
      Lists(sc, places',
            InstanceOccurrences(sc.q, sc.cfg, run, sc.repo.GetTask(run.taskId), InstancesOf(sc, run), acc, n),
            at.(instance := n))
  {
    hide Lists, RunPasses, IssueOccurrences;
    if n == 0 {
      places' := places;
    } else {
      places' := InstancesArePlaced(sc, at, places, acc, n - 1);
      var run, from := sc.runs[at.run], at.(instance := n - 1);
      var task, inst := sc.repo.GetTask(run.taskId), InstancesOf(sc, run)[n - 1];
      var before := InstanceOccurrences(sc.q, sc.cfg, run, task, InstancesOf(sc, run), acc, n - 1);
      if InstanceMatches(sc.q, inst) {
        places' := IssuesArePlaced(sc, from, places', before, |inst.issues|);
        before := IssueOccurrences(sc.q, sc.cfg, run, task, inst, before, |inst.issues|);
        from := from.(issue := |inst.issues|);
      }
      BoundMoves(sc, places', before, from, at.(instance := n));
    }
  }

  lemma {:induction false} RunsArePlaced(sc: Scan, n: nat) returns (places: seq<Place>)
    requires n <= |sc.runs|
    ensures Lists(sc, places, RunOccurrences(sc.q, sc.cfg, sc.repo, sc.runs, n), Place(n, 0, 0))
  {
    hide InstanceOccurrences;
    if n == 0 {
      places := [];
    } else {
      hide Lists;
      places := RunsArePlaced(sc, n - 1);
      var run, from := sc.runs[n - 1], Place(n - 1, 0, 0);
      var before := RunOccurrences(sc.q, sc.cfg, sc.repo, sc.runs, n - 1);
      if RunPasses(sc, run) {
        places := InstancesArePlaced(sc, from, places, before, |InstancesOf(sc, run)|);
        before := InstanceOccurrences(sc.q, sc.cfg, run, sc.repo.GetTask(run.taskId), InstancesOf(sc, run), before,
                                      |InstancesOf(sc, run)|);
        from := from.(instance := |InstancesOf(sc, run)|);
      }
      BoundMoves(sc, places, before, from, Place(n, 0, 0));
    }
  }

  /** The selected issues are those at the passing places, one for each and in scan order. */
  lemma SelectsExactlyPassingPlaces(sc: Scan) returns (places: seq<Place>)
    ensures var occs := Occurrences(sc.q, sc.cfg, sc.repo, sc.runs);
      && |places| == |occs|
      && (forall p :: p in places <==> IsPlace(sc, p) && Passes(sc, p))
      && (forall m, n :: 0 <= m < n < |places| ==> Before(places[m], places[n]))
      && forall n :: 0 <= n < |places| ==> IsPlace(sc, places[n]) && Describes(sc, places[n], occs[n])
  {
    hide Passes, Describes, RunOccurrences;
    places := RunsArePlaced(sc, |sc.runs|);
  }

  // ---------------------------------------------------------------------------------
  // A window of creation times.
  // ---------------------------------------------------------------------------------

  /** Created from the one time to the other, both included; without a creation time, at the
      earliest one. */
  function IsWithin(from: Time, to: Time): Run -> bool {
    (run: Run) =>
      match run.createdAt
      case Some(t) => from <= t <= to
      case None => from == 0
  }

  predicate SameButWindow(q: Query, q': Query) {
    q.(createdFrom := None, createdTo := None) == q'.(createdFrom := None, createdTo := None)
  }

  lemma {:induction false} IssuesIgnoreWindow(q: Query, q': Query, cfg: RuleConfig, run: Run, task: Option<Task>,
      inst: Instance, acc: seq<Occurrence>, n: nat)
    requires n <= |inst.issues| && SameButWindow(q, q')
    ensures IssueOccurrences(q, cfg, run, task, inst, acc, n) == IssueOccurrences(q', cfg, run, task, inst, acc, n)
  {
    if n > 0 {
      IssuesIgnoreWindow(q, q', cfg, run, task, inst, acc, n - 1);
    }
  }

  lemma {:induction false} InstancesIgnoreWindow(q: Query, q': Query, cfg: RuleConfig, run: Run, task: Option<Task>,
      insts: seq<Instance>, acc: seq<Occurrence>, n: nat)
    requires n <= |insts| && SameButWindow(q, q')
    ensures InstanceOccurrences(q, cfg, run, task, insts, acc, n)
        == InstanceOccurrences(q', cfg, run, task, insts, acc, n)
  {
    if n > 0 {
      InstancesIgnoreWindow(q, q', cfg, run, task, insts, acc, n - 1);
      var before := InstanceOccurrences(q, cfg, run, task, insts, acc, n - 1);
      IssuesIgnoreWindow(q, q', cfg, run, task, insts[n - 1], before, |insts[n - 1].issues|);
    }
  }

  lemma {:induction false} RunsByPrefix(q: Query, cfg: RuleConfig, repo: Repository, runs: seq<Run>, more: seq<Run>,
      n: nat)
    requires n <= |runs|
    ensures RunOccurrences(q, cfg, repo, runs + more, n) == RunOccurrences(q, cfg, repo, runs, n)
  {
    if n > 0 {
      RunsByPrefix(q, cfg, repo, runs, more, n - 1);
    }
  }

  lemma OccurrencesOfMore(q: Query, cfg: RuleConfig, repo: Repository, runs: seq<Run>, run: Run)
    ensures var before, task := Occurrences(q, cfg, repo, runs), repo.GetTask(run.taskId);
      Occurrences(q, cfg, repo, runs + [run])
      == if RunMatches(q, run) && TaskMatches(q, task)
         then InstanceOccurrences(q, cfg, run, task, repo.ListByRun(run.id), before, |repo.ListByRun(run.id)|)
         else before
  {
    RunsByPrefix(q, cfg, repo, runs, [run], |runs|);
  }

  /** A window selects what the open query selects from the runs created within it. */
  lemma {:induction false} WindowSelectsRunsWithin(q: Query, cfg: RuleConfig, repo: Repository, runs: seq<Run>,
      from: Time, to: Time)
    ensures Occurrences(q.(createdFrom := Some(from), createdTo := Some(to)), cfg, repo, runs)
         == Occurrences(q.(createdFrom := None, createdTo := None), cfg, repo, Filter(runs, IsWithin(from, to)))
  {
    hide Occurrences, InstanceOccurrences;
    var window, open := q.(createdFrom := Some(from), createdTo := Some(to)),
        q.(createdFrom := None, createdTo := None);
    if runs == [] {
      assert Occurrences(window, cfg, repo, []) == [] == Occurrences(open, cfg, repo, []) by {
        NothingSelected(window, cfg, repo);
        NothingSelected(open, cfg, repo);
      }
    } else {
      var rest, run := Init(runs), Last(runs);
      assert runs == rest + [run];
      WindowSelectsRunsWithin(q, cfg, repo, rest, from, to);
      OccurrencesOfMore(window, cfg, repo, rest, run);
      OccurrencesOfMore(open, cfg, repo, Filter(rest, IsWithin(from, to)), run);
      InstancesIgnoreWindow(window, open, cfg, run, repo.GetTask(run.taskId), repo.ListByRun(run.id),
                            Occurrences(window, cfg, repo, rest), |repo.ListByRun(run.id)|);
    }
  }

  lemma NothingSelected(q: Query, cfg: RuleConfig, repo: Repository)
    ensures Occurrences(q, cfg, repo, []) == []
  {
  }

  // ---------------------------------------------------------------------------------
  // What a fingerprint depends on.
  // ---------------------------------------------------------------------------------

  /** With an injective hash, two issues share their fingerprint exactly when they agree in type,
      package and normalised scenario, process and title, and in the normalised raw key unless
      the rules ignore it for their type. */
  lemma ShareFingerprintExactlyWhen(cfg: RuleConfig, issue: Issue, inst: Instance, task: Task,
      issue': Issue, inst': Instance, task': Task)
    requires Injective(cfg.digest)
    ensures
      var package :=
        if issue.package != "" then issue.package
        else if inst.targetPackage != "" then inst.targetPackage
        else task.package;
      var package' :=
        if issue'.package != "" then issue'.package
        else if inst'.targetPackage != "" then inst'.targetPackage
        else task'.package;
      var scenario := match inst.template case Some(template) => template case None => task.template;
      var scenario' := match inst'.template case Some(template) => template case None => task'.template;
      BuildFingerprint(cfg, issue, inst, Some(task)).value == BuildFingerprint(cfg, issue', inst', Some(task')).value
      <==> && issue.issueType == issue'.issueType && package == package'
           && cfg.normalize(scenario) == cfg.normalize(scenario')
           && cfg.normalize(issue.process) == cfg.normalize(issue'.process)
           && cfg.normalize(issue.title) == cfg.normalize(issue'.title)
           && (issue.issueType in cfg.ignoreRawKeyTypes || cfg.normalize(issue.rawKey) == cfg.normalize(issue'.rawKey))
  {
    var c, c' := BuildComponents(cfg, issue, inst, Some(task)), BuildComponents(cfg, issue', inst', Some(task'));
    if BuildFingerprint(cfg, issue, inst, Some(task)).value == BuildFingerprint(cfg, issue', inst', Some(task')).value {
      SamePrefix(cfg.digest(c), cfg.digest(c'));
      assert c == c';
    }
  }

  /** A missing task counts as one with blanks. */
  lemma MissingTaskIsBlank(cfg: RuleConfig, run: Run, inst: Instance, issue: Issue)
    ensures Occur(cfg, run, None, inst, issue) == Occur(cfg, run, Some(NO_TASK), inst, issue)
  {
  }
}
