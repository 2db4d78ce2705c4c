/** Taking the patrol lock, step by step: several contenders between their first look at the lock
    file, the verdict on the heartbeat, the unlinking of a stale lock and the new lock file. */
module PatrolLockRace {
  import opened Wrappers
  import opened GroupBy
  import opened PatrolRunner

  /** What a contender does next: create the lock file; judge the one that is there; unlink it; or
      create it after all. */
  datatype Stage = Opening | Judging | Unlinking | Recreating

  datatype Contender = Contender(interval: int, startedAt: int, stage: Stage)

  /** The files and runners, and the processes that try for the lock. */
  datatype Scene = Scene(files: State, contenders: map<int, Contender>)

  /** A step of a runner or of the clock, or a step of a contender. */
  datatype Act =
    | Do(cmd: Command)
    | Begin(pid: int, interval: int)
    | Create(pid: int)
    | Judge(pid: int)
    | Unlink(pid: int)
    | GiveUp(pid: int)

  predicate IsAt(sc: Scene, pid: int, stage: Stage) { pid in sc.contenders && sc.contenders[pid].stage == stage }

  predicate CanAct(sc: Scene, act: Act) {
    match act
    case Do(cmd) => !cmd.Acquire? && IsEnabled(sc.files, cmd)
    case Begin(pid, _) => pid !in sc.files.runners && pid !in sc.contenders
    case Create(pid) => IsAt(sc, pid, Opening) || IsAt(sc, pid, Recreating)
    case Judge(pid) => IsAt(sc, pid, Judging)
    case Unlink(pid) => IsAt(sc, pid, Unlinking)
    case GiveUp(pid) => pid in sc.contenders
  }

  function Moved(sc: Scene, pid: int, stage: Stage): Scene
    requires pid in sc.contenders
  {
    sc.(contenders := sc.contenders[pid := sc.contenders[pid].(stage := stage)])
  }

  function Leaves(sc: Scene, pid: int): Scene { sc.(contenders := sc.contenders - {pid}) }

  /** A lock file is created only where there is none. The first failure leads to the verdict, the
      second one to an error. */
  function Apply(sc: Scene, act: Act): Scene
    requires CanAct(sc, act)
  {
    match act
    case Do(cmd) => sc.(files := Step(sc.files, cmd))
    case Begin(pid, interval) =>
      sc.(contenders := sc.contenders[pid := Contender(NormalInterval(interval), sc.files.now, Opening)])
    case Create(pid) =>
      if sc.files.lock.None? then
        var runner := Runner(sc.contenders[pid].interval, Working);
        Leaves(sc, pid).(files := sc.files.(lock := Some(pid), runners := sc.files.runners[pid := runner]))
      else if sc.contenders[pid].stage == Opening then Moved(sc, pid, Judging)
      else Leaves(sc, pid)
    case Judge(pid) =>
      if IsStaleLock(sc.files.heartbeat, sc.contenders[pid].interval, sc.contenders[pid].startedAt)
      then Moved(sc, pid, Unlinking)
      else Leaves(sc, pid)
    case Unlink(pid) => Moved(sc, pid, Recreating).(files := sc.files.(lock := None))
    case GiveUp(pid) => Leaves(sc, pid)
  }

  ghost predicate IsStory(sc: Scene, acts: seq<Act>)
    decreases |acts|, 0
  {
    acts != [] ==> IsStory(sc, Init(acts)) && CanAct(Story(sc, Init(acts)), Last(acts))
  }

  ghost function Story(sc: Scene, acts: seq<Act>): Scene
    requires IsStory(sc, acts)
    decreases |acts|, 1
  {
    if acts == [] then sc else Apply(Story(sc, Init(acts)), Last(acts))
  }

  lemma Starts(sc: Scene)
    ensures IsStory(sc, []) && Story(sc, []) == sc
  {
  }

  lemma Continues(sc: Scene, acts: seq<Act>, act: Act) returns (acts': seq<Act>)
    requires IsStory(sc, acts) && CanAct(Story(sc, acts), act)
    ensures acts' == acts + [act] && IsStory(sc, acts') && Story(sc, acts') == Apply(Story(sc, acts), act)
  {
    acts' := acts + [act];
    assert Init(acts') == acts && Last(acts') == act;
  }

  // ---------------------------------------------------------------------------------
  // Mutual exclusion, exactly.
  // ---------------------------------------------------------------------------------

  /** At most one process runs at every moment of a story. */
  ghost predicate AlwaysAlone(sc: Scene, acts: seq<Act>)
    requires IsStory(sc, acts)
  {
    AtMostOne(Story(sc, acts).files) && (acts != [] ==> AlwaysAlone(sc, Init(acts)))
  }

  /** Someone has unlinked the lock file of a process that is still running. */
  ghost predicate IsExposed(sc: Scene, acts: seq<Act>)
    requires IsStory(sc, acts)
  {
    && acts != [] && HasRunner(Story(sc, acts).files)
    && (Last(acts).Unlink? || IsExposed(sc, Init(acts)))
  }

  /** No lock file is created while such a process runs. */
  ghost predicate AlwaysCovered(sc: Scene, acts: seq<Act>)
    requires IsStory(sc, acts)
  {
    acts != [] ==> AlwaysCovered(sc, Init(acts)) && (Last(acts).Create? ==> !IsExposed(sc, Init(acts)))
  }

  predicate IsApart(sc: Scene) { sc.contenders.Keys !! sc.files.runners.Keys }

  /** As long as at most one process runs, its lock file is its own, or unlinked. */
  ghost predicate LockInv(sc: Scene, isExposed: bool) {
    && IsApart(sc)
    && if isExposed then HasRunner(sc.files) && AtMostOne(sc.files) && sc.files.lock.None? else HolderInv(sc.files)
  }

  lemma ActKeepsLock(sc: Scene, isExposed: bool, act: Act)
    requires LockInv(sc, isExposed) && CanAct(sc, act)
    ensures var sc' := Apply(sc, act);
      && (AtMostOne(sc'.files) <==> !(act.Create? && isExposed))
      && (AtMostOne(sc'.files) ==> LockInv(sc', HasRunner(sc'.files) && (act.Unlink? || isExposed)))
  {
    var sc' := Apply(sc, act);
    if act.Create? && isExposed {
      var pid :| pid in sc.files.runners;
      TwoRunners(sc'.files, pid, act.pid);
    } else if isExposed {
      FewerRunners(sc.files, sc'.files);
    } else {
      SoleRunner(sc.files);
      SoleRunner(sc'.files);
      if act.Unlink? {
        assert sc'.files.runners == sc.files.runners;
      }
    }
  }

  /** Where no runner is added there is still at most one. */
  lemma FewerRunners(s: State, s': State)
    requires AtMostOne(s) && s'.runners.Keys <= s.runners.Keys
    ensures AtMostOne(s')
  {
    var rest := s.runners.Keys - s'.runners.Keys;
    assert s.runners.Keys == s'.runners.Keys + rest;
    assert |s.runners.Keys| == |s.runners| && |s'.runners.Keys| == |s'.runners|;
  }

  /** Over every story, however the contenders' steps are interleaved, and whatever files an
      earlier crash left: at most one process ever runs if and only if no lock file is created
      while a process runs whose own lock file has been unlinked. */
  lemma {:induction false} RaceExclusionExactlyWhen(sc: Scene, acts: seq<Act>)
    requires !HasRunner(sc.files) && IsStory(sc, acts)
    ensures AlwaysAlone(sc, acts) <==> AlwaysCovered(sc, acts)
    ensures AlwaysAlone(sc, acts) ==> LockInv(Story(sc, acts), IsExposed(sc, acts))
  {
    hide AtMostOne, LockInv, HasRunner, Apply, CanAct;
    if acts == [] {
      NoRunnerIsSafe(sc);
    } else {
      RaceExclusionExactlyWhen(sc, Init(acts));
      if AlwaysAlone(sc, Init(acts)) {
        ActKeepsLock(Story(sc, Init(acts)), IsExposed(sc, Init(acts)), Last(acts));
      }
    }
  }

  lemma NoRunnerIsSafe(sc: Scene)
    requires !HasRunner(sc.files)
    ensures LockInv(sc, false) && AtMostOne(sc.files)
  {
    assert forall pid :: pid !in sc.files.runners;
    SoleRunner(sc.files);
  }

  /** While at most one process runs, "its lock file has been unlinked" can be read off the files. */
  lemma ExposedExactlyWhenLockIsMissing(sc: Scene, acts: seq<Act>)
    requires !HasRunner(sc.files) && IsStory(sc, acts) && AlwaysAlone(sc, acts)
    ensures var s := Story(sc, acts).files;
      IsExposed(sc, acts) <==> HasRunner(s) && s.lock.None?
  {
    hide Story, IsExposed;
    RaceExclusionExactlyWhen(sc, acts);
  }

  // ---------------------------------------------------------------------------------
  // When unlinking stays harmless.
  // ---------------------------------------------------------------------------------

  predicate HasVerdict(sc: Scene) { exists pid :: pid in sc.contenders && sc.contenders[pid].stage == Unlinking }

  /** A lock is judged stale only when nobody runs, and nobody creates a lock file between
      another one's verdict and its unlinking. */
  predicate IsCareful(sc: Scene, act: Act) {
    match act
    case Judge(pid) =>
      pid in sc.contenders && HasRunner(sc.files) ==>
        !IsStaleLock(sc.files.heartbeat, sc.contenders[pid].interval, sc.contenders[pid].startedAt)
    case Create(_) => !HasVerdict(sc)
    case _ => true
  }

  ghost predicate AlwaysCareful(sc: Scene, acts: seq<Act>)
    requires IsStory(sc, acts)
  {
    acts != [] ==> AlwaysCareful(sc, Init(acts)) && IsCareful(Story(sc, Init(acts)), Last(acts))
  }

  /** Nobody runs while someone is about to unlink. */
  ghost predicate CareInv(sc: Scene) { HolderInv(sc.files) && !(HasVerdict(sc) && HasRunner(sc.files)) }

  lemma CarefulActKeepsCare(sc: Scene, act: Act)
    requires CareInv(sc) && CanAct(sc, act) && IsCareful(sc, act)
    ensures CareInv(Apply(sc, act)) && AtMostOne(Apply(sc, act).files)
  {
    var sc' := Apply(sc, act);
    if act.Unlink? {
      assert HasVerdict(sc);
    }
    assert HolderInv(sc'.files);
    if HasVerdict(sc') && !HasVerdict(sc) {
      assert act.Judge?;
    }
    assert CareInv(sc');
    SoleRunner(sc'.files);
  }

  /** The two ways to lose exclusion, both ruled out: a verdict against a live runner, and a verdict
      that is carried out on a lock file created after it. */
  lemma {:induction false} CarefulRunsKeepExclusion(sc: Scene, acts: seq<Act>)
    requires !HasRunner(sc.files) && IsStory(sc, acts) && AlwaysCareful(sc, acts)
    ensures AlwaysAlone(sc, acts) && CareInv(Story(sc, acts))
  {
    hide HasRunner, AtMostOne, Apply, CanAct, IsCareful;
    if acts == [] {
      NoRunnerIsSafe(sc);
    } else {
      CarefulRunsKeepExclusion(sc, Init(acts));
      CarefulActKeepsCare(Story(sc, Init(acts)), Last(acts));
    }
  }

  // ---------------------------------------------------------------------------------
  // Two contenders at a dead process's lock.
  // ---------------------------------------------------------------------------------

  function BothJudge(p: int, q: int, interval: int): seq<Act> {
    [Begin(p, interval), Begin(q, interval), Create(p), Create(q), Judge(p), Judge(q)]
  }

  function BothTakeOver(p: int, q: int): seq<Act> { [Unlink(p), Create(p), Do(Beat(p)), Unlink(q), Create(q)] }

  lemma BothFindItStale(s: State, p: int, q: int, interval: int)
    requires !HasRunner(s) && s.lock.Some? && IsStaleLock(s.heartbeat, NormalInterval(interval), s.now) && p != q
    ensures var sc := Scene(s, map[]); var acts := BothJudge(p, q, interval);
      var contender := Contender(NormalInterval(interval), s.now, Unlinking);
      IsStory(sc, acts) && Story(sc, acts) == Scene(s, map[p := contender, q := contender])
  {
    hide IsStaleLock, NormalInterval, IsStory, Story;
    var sc := Scene(s, map[]);
    Starts(sc);
    var acts := Continues(sc, [], Begin(p, interval));
    acts := Continues(sc, acts, Begin(q, interval));
    acts := Continues(sc, acts, Create(p));
    acts := Continues(sc, acts, Create(q));
    acts := Continues(sc, acts, Judge(p));
    acts := Continues(sc, acts, Judge(q));
    assert acts == BothJudge(p, q, interval);
  }

  /** The holder has died. Both contenders find its lock stale, one takes over and sends its first
      heartbeat, then the other unlinks the new lock file and takes over too. */
  lemma TwoContendersTakeOver(s: State, p: int, q: int, interval: int)
    requires !HasRunner(s) && s.lock.Some? && IsStaleLock(s.heartbeat, NormalInterval(interval), s.now) && p != q
    ensures var sc := Scene(s, map[]); var acts := BothJudge(p, q, interval) + BothTakeOver(p, q);
      && IsStory(sc, acts) && !AtMostOne(Story(sc, acts).files)
      && Story(sc, acts).files.heartbeat == Some(Heartbeat(Running, s.now, NormalInterval(interval)))
  {
    hide IsStaleLock, NormalInterval, IsStory, AtMostOne, Story;
    var sc := Scene(s, map[]);
    BothFindItStale(s, p, q, interval);
    var judged := BothJudge(p, q, interval);
    var acts := Continues(sc, judged, Unlink(p));
    acts := Continues(sc, acts, Create(p));
    acts := Continues(sc, acts, Do(Beat(p)));
    acts := Continues(sc, acts, Unlink(q));
    acts := Continues(sc, acts, Create(q));
    assert acts == judged + BothTakeOver(p, q);
    TwoRunners(Story(sc, acts).files, p, q);
  }

  // ---------------------------------------------------------------------------------
  // An attempt that nobody interrupts.
  // ---------------------------------------------------------------------------------

  /** Step after step without anyone in between, an attempt is the lock attempt of the coarser
      system: refused in the verdict, or the new holder. */
  lemma UndisturbedAttemptIsAcquire(sc: Scene, pid: int, interval: int)
    requires pid !in sc.files.runners && pid !in sc.contenders
    ensures var end := Scene(Step(sc.files, Acquire(pid, interval)), sc.contenders);
      var tried := Apply(Apply(sc, Begin(pid, interval)), Create(pid));
      if sc.files.lock.None? then tried == end
      else
        var judged := Apply(tried, Judge(pid));
        if !IsAccepted(sc.files, interval) then judged == end
        else Apply(Apply(judged, Unlink(pid)), Create(pid)) == end
  {
    assert sc.contenders[pid := Contender(NormalInterval(interval), sc.files.now, Opening)] - {pid} == sc.contenders;
  }

  /** A contender judges by its own interval and by the time it began at: the verdict is stale
      exactly when the heartbeat is missing, not a running one, or was then more than 300 seconds
      and more than three intervals old. A fresh verdict ends the attempt. */
  lemma VerdictExactlyWhen(sc: Scene, pid: int)
    requires CanAct(sc, Judge(pid))
    ensures var sc', c := Apply(sc, Judge(pid)), sc.contenders[pid];
      && sc'.files == sc.files
      && (IsAt(sc', pid, Unlinking)
          <==> sc.files.heartbeat.None?
               || (var h := sc.files.heartbeat.value;
                   h.status != Running || (c.startedAt - h.at > 300 && c.startedAt - h.at > 3 * c.interval)))
      && (!IsAt(sc', pid, Unlinking) ==> pid !in sc'.contenders)
  {
  }

  /** A contender may die at any stage, and leaves no trace but what it has unlinked. */
  lemma ContendersMayDie(sc: Scene, pid: int)
    requires pid in sc.contenders
    ensures CanAct(sc, GiveUp(pid))
    ensures Apply(sc, GiveUp(pid)) == Scene(sc.files, sc.contenders - {pid})
  {
  }

  /** So every run of the coarser system is a story with undisturbed attempts. */
  lemma {:induction false} RunsAreStories(s: State, cmds: seq<Command>) returns (acts: seq<Act>)
    requires IsRun(s, cmds)
    ensures IsStory(Scene(s, map[]), acts) && Story(Scene(s, map[]), acts) == Scene(Run(s, cmds), map[])
  {
    hide Step, IsStaleLock, Apply;
    var sc := Scene(s, map[]);
    if cmds == [] {
      acts := [];
    } else {
      acts := RunsAreStories(s, Init(cmds));
      var cmd, before := Last(cmds), Story(sc, acts);
      if cmd.Acquire? {
        acts := Attempted(sc, acts, cmd.pid, cmd.interval);
      } else {
        acts := Continues(sc, acts, Do(cmd));
        DoIsStep(before, cmd);
      }
    }
  }

  lemma DoIsStep(sc: Scene, cmd: Command)
    requires CanAct(sc, Do(cmd))
    ensures Apply(sc, Do(cmd)) == sc.(files := Step(sc.files, cmd))
  {
  }

  lemma Attempted(sc: Scene, acts: seq<Act>, pid: int, interval: int) returns (acts': seq<Act>)
    requires IsStory(sc, acts)
    requires pid !in Story(sc, acts).files.runners && pid !in Story(sc, acts).contenders
    ensures IsStory(sc, acts')
    ensures var before := Story(sc, acts);
      Story(sc, acts') == Scene(Step(before.files, Acquire(pid, interval)), before.contenders)
  {
    hide Step;
    var before := Story(sc, acts);
    UndisturbedAttemptIsAcquire(before, pid, interval);
    acts' := Continues(sc, acts, Begin(pid, interval));
    acts' := Continues(sc, acts', Create(pid));
    if before.files.lock.Some? {
      acts' := Continues(sc, acts', Judge(pid));
      if IsAccepted(before.files, interval) {
        acts' := Continues(sc, acts', Unlink(pid));
        acts' := Continues(sc, acts', Create(pid));
      }
    }
  }
}
