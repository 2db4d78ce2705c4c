/** The timed patrol runner: a lock file and a heartbeat file shared by any number of runner
    processes, and the cycle loop one process runs between taking and releasing the lock. */
module PatrolRunner {
  import opened Wrappers
  import opened GroupBy

  // ---------------------------------------------------------------------------------
  // The files.
  // ---------------------------------------------------------------------------------

  datatype Status = Running | Stopped | Failed

  /** The parts of the heartbeat file that matter to other processes. */
  datatype Heartbeat = Heartbeat(status: Status, at: int, interval: int)

  function Larger(a: int, b: int): int { if a < b then b else a }

  function NormalInterval(interval: int): int { Larger(1, if interval == 0 then 60 else interval) }

  function NormalIterations(iterations: int): nat { Larger(0, iterations) }

  /** The age at which a heartbeat counts as abandoned, in seconds. */
  function Bound(interval: int): int { Larger(interval * 3, 300) }

  /** A contender's verdict on an existing lock. A missing or unreadable heartbeat is None. */
  predicate IsStaleLock(heartbeat: Option<Heartbeat>, interval: int, now: int) {
    heartbeat.None? || heartbeat.value.status != Running || now - heartbeat.value.at > Bound(interval)
  }

  // ---------------------------------------------------------------------------------
  // Many processes.
  // ---------------------------------------------------------------------------------

  datatype Phase = Working | Closing

  datatype Runner = Runner(interval: int, phase: Phase)

  /** The clock, the two files, and the processes that have taken the lock and neither released it
      nor died. */
  datatype State = State(now: int, lock: Option<int>, heartbeat: Option<Heartbeat>, runners: map<int, Runner>)

  /** What can happen next. A process takes the lock, beats any number of times, writes its final
      heartbeat and releases the lock; it may die at any moment. */
  datatype Command =
    | Tick(to: int)
    | Acquire(pid: int, interval: int)
    | Beat(pid: int)
    | FinalBeat(pid: int, failed: bool)
    | Release(pid: int)
    | Crash(pid: int)

  predicate IsEnabled(s: State, cmd: Command) {
    match cmd
    case Tick(to) => to >= s.now
    case Acquire(pid, _) => pid !in s.runners
    case Beat(pid) => pid in s.runners && s.runners[pid].phase == Working
    case FinalBeat(pid, _) => pid in s.runners && s.runners[pid].phase == Working
    case Release(pid) => pid in s.runners && s.runners[pid].phase == Closing
    case Crash(pid) => pid in s.runners
  }

  /** Whether an attempt to take the lock succeeds. */
  predicate IsAccepted(s: State, interval: int) {
    s.lock.None? || IsStaleLock(s.heartbeat, NormalInterval(interval), s.now)
  }

  /** A refused attempt changes nothing; a release unlinks the lock whoever holds it. */
  function Step(s: State, cmd: Command): State
    requires IsEnabled(s, cmd)
  {
    match cmd
    case Tick(to) => s.(now := to)
    case Acquire(pid, interval) =>
      if IsAccepted(s, interval)
      then s.(lock := Some(pid), runners := s.runners[pid := Runner(NormalInterval(interval), Working)])
      else s
    case Beat(pid) => s.(heartbeat := Some(Heartbeat(Running, s.now, s.runners[pid].interval)))
    case FinalBeat(pid, failed) =>
      s.(heartbeat := Some(Heartbeat(if failed then Failed else Stopped, s.now, s.runners[pid].interval)),
         runners := s.runners[pid := s.runners[pid].(phase := Closing)])
    case Release(pid) => s.(lock := None, runners := s.runners - {pid})
    case Crash(pid) => s.(runners := s.runners - {pid})
  }

  ghost predicate IsRun(s: State, cmds: seq<Command>)
    decreases |cmds|, 0
  {
    cmds != [] ==> IsRun(s, Init(cmds)) && IsEnabled(Run(s, Init(cmds)), Last(cmds))
  }

  ghost function Run(s: State, cmds: seq<Command>): State
    requires IsRun(s, cmds)
    decreases |cmds|, 1
  {
    if cmds == [] then s else Step(Run(s, Init(cmds)), Last(cmds))
  }

  // ---------------------------------------------------------------------------------
  // Mutual exclusion, exactly.
  // ---------------------------------------------------------------------------------

  predicate HasRunner(s: State) { exists pid :: pid in s.runners }

  predicate AtMostOne(s: State) { |s.runners| <= 1 }

  /** At most one process runs at every moment of a run. */
  ghost predicate AlwaysAtMostOne(s: State, cmds: seq<Command>)
    requires IsRun(s, cmds)
  {
    AtMostOne(Run(s, cmds)) && (cmds != [] ==> AlwaysAtMostOne(s, Init(cmds)))
  }

  /** The command does not try for the lock while a live runner has no heartbeat, a final one, or
      one older than the contender's bound. */
  predicate IsTimely(s: State, cmd: Command) {
    cmd.Acquire? && HasRunner(s) ==> !IsStaleLock(s.heartbeat, NormalInterval(cmd.interval), s.now)
  }

  ghost predicate AlwaysTimely(s: State, cmds: seq<Command>)
    requires IsRun(s, cmds)
  {
    cmds != [] ==> AlwaysTimely(s, Init(cmds)) && IsTimely(Run(s, Init(cmds)), Last(cmds))
  }

  /** A lone runner's name is on the lock. */
  ghost predicate HolderInv(s: State) {
    forall pid :: pid in s.runners ==> s.lock == Some(pid)
  }

  lemma SoleRunner(s: State)
    ensures HolderInv(s) ==> AtMostOne(s)
  {
    if HolderInv(s) && HasRunner(s) {
      var pid :| pid in s.runners;
      assert forall q :: q in s.runners ==> Some(q) == Some(pid);
      assert s.runners.Keys == {pid};
      assert |s.runners.Keys| == |s.runners|;
    } else if HolderInv(s) {
      assert forall pid :: pid !in s.runners.Keys;
      assert s.runners.Keys == {};
      assert |s.runners.Keys| == |s.runners|;
    }
  }

  /** Two different runners are more than one. */
  lemma TwoRunners(s: State, p: int, q: int)
    requires p in s.runners && q in s.runners && p != q
    ensures !AtMostOne(s)
  {
    assert {p, q} <= s.runners.Keys;
    var rest := s.runners.Keys - {p, q};
    assert s.runners.Keys == {p, q} + rest && |{p, q} + rest| == 2 + |rest|;
    assert |s.runners.Keys| == |s.runners|;
  }

  /** One step keeps exclusion, and with it the holder's name on the lock, exactly when it is
      timely. */
  lemma StepKeepsExclusionExactlyWhenTimely(s: State, cmd: Command)
    requires HolderInv(s) && IsEnabled(s, cmd)
    ensures AtMostOne(Step(s, cmd)) <==> IsTimely(s, cmd)
    ensures IsTimely(s, cmd) ==> HolderInv(Step(s, cmd))
  {
    var s' := Step(s, cmd);
    if IsTimely(s, cmd) {
      assert HolderInv(s');
      SoleRunner(s');
    } else {
      var pid :| pid in s.runners;
      TwoRunners(s', pid, cmd.pid);
    }
  }

  /** Over every run from a state without live runners, with whatever files an earlier crash left:
      at most one runner is ever active if and only if no process tries for the lock while a live
      runner's heartbeat is missing, final, or older than the bound of the one who tries. */
  lemma {:induction false} ExclusionExactlyWhen(s: State, cmds: seq<Command>)
    requires !HasRunner(s) && IsRun(s, cmds)
    ensures AlwaysAtMostOne(s, cmds) <==> AlwaysTimely(s, cmds)
    ensures AlwaysTimely(s, cmds) ==> HolderInv(Run(s, cmds))
  {
    if cmds == [] {
      SoleRunner(s);
    } else {
      ExclusionExactlyWhen(s, Init(cmds));
      if AlwaysTimely(s, Init(cmds)) {
        StepKeepsExclusionExactlyWhenTimely(Run(s, Init(cmds)), Last(cmds));
      }
    }
  }

  /** A contender is refused exactly when the lock exists with a running heartbeat within the
      contender's bound, and then neither file changes. */
  lemma RefusedExactlyWhen(s: State, pid: int, interval: int)
    requires pid !in s.runners
    ensures var s' := Step(s, Acquire(pid, interval));
      var isHeld := s.lock.Some? && s.heartbeat.Some? && s.heartbeat.value.status == Running
                    && s.now - s.heartbeat.value.at <= Bound(NormalInterval(interval));
      && (pid !in s'.runners <==> isHeld)
      && (isHeld ==> s' == s)
      && (!isHeld ==> s'.lock == Some(pid) && s'.heartbeat == s.heartbeat)
  {
  }

  /** In numbers: a process is seated unless the lock exists with a running heartbeat that is at
      most 300 seconds or at most three of the contender's own intervals old, an interval of 0
      counting as 60 and a negative one as 1. */
  lemma SeatedExactlyWhen(s: State, pid: int, interval: int)
    requires pid !in s.runners
    ensures var k := if interval == 0 then 60 else if interval < 0 then 1 else interval;
      var s' := Step(s, Acquire(pid, interval));
      && (pid in s'.runners
          <==> match (s.lock, s.heartbeat)
               case (Some(_), Some(h)) => h.status != Running || (s.now - h.at > 300 && s.now - h.at > 3 * k)
               case _ => true)
      && (pid in s'.runners ==> s' == State(s.now, Some(pid), s.heartbeat, s.runners[pid := Runner(k, Working)]))
      && (pid !in s'.runners ==> s' == s)
  {
  }

  /** What the other steps of a runner write: a heartbeat tells the time, its own interval, and in the
      end whether the run failed; a release leaves no lock, and a crash everything as it is. */
  lemma RunnersWrite(s: State, pid: int, failed: bool)
    requires pid in s.runners
    ensures var runner := s.runners[pid];
      && Step(s, Crash(pid)) == s.(runners := s.runners - {pid})
      && (runner.phase == Working ==>
            && Step(s, Beat(pid)) == s.(heartbeat := Some(Heartbeat(Running, s.now, runner.interval)))
            && Step(s, FinalBeat(pid, true)).heartbeat == Some(Heartbeat(Failed, s.now, runner.interval))
            && Step(s, FinalBeat(pid, false)).heartbeat == Some(Heartbeat(Stopped, s.now, runner.interval))
            && Step(s, FinalBeat(pid, failed)).runners == s.runners[pid := Runner(runner.interval, Closing)]
            && Step(s, FinalBeat(pid, failed)).lock == s.lock)
      && (runner.phase == Closing ==> Step(s, Release(pid)) == s.(lock := None, runners := s.runners - {pid}))
  {
  }

  /** The heartbeat of whoever runs is a running one and at most five minutes old. */
  predicate IsFresh(s: State) {
    s.heartbeat.Some? && s.heartbeat.value.status == Running && s.now - s.heartbeat.value.at <= 300
  }

  ghost predicate AttemptsFindFresh(s: State, cmds: seq<Command>)
    requires IsRun(s, cmds)
  {
    cmds != [] ==>
      && AttemptsFindFresh(s, Init(cmds))
      && (Last(cmds).Acquire? && HasRunner(Run(s, Init(cmds))) ==> IsFresh(Run(s, Init(cmds))))
  }

  lemma {:induction false} FreshAttemptsAreTimely(s: State, cmds: seq<Command>)
    requires IsRun(s, cmds) && AttemptsFindFresh(s, cmds)
    ensures AlwaysTimely(s, cmds)
  {
    if cmds != [] {
      FreshAttemptsAreTimely(s, Init(cmds));
    }
  }

  /** Whatever the intervals, beating every five minutes is enough: if every attempt finds a live
      runner's heartbeat running and at most 300 seconds old, at most one runner is ever active. */
  lemma FiveMinutesAreEnough(s: State, cmds: seq<Command>)
    requires !HasRunner(s) && IsRun(s, cmds) && AttemptsFindFresh(s, cmds)
    ensures AlwaysAtMostOne(s, cmds)
  {
    FreshAttemptsAreTimely(s, cmds);
    ExclusionExactlyWhen(s, cmds);
  }

  /** A crash leaves the files as they are, and the lock can then be taken over exactly once the
      last heartbeat is older than the contender's bound (at once if there was none). */
  lemma TakeoverAfterCrashExactlyWhen(s: State, dead: int, to: int, pid: int, interval: int)
    requires s.runners.Keys == {dead} && HolderInv(s) && to >= s.now && pid != dead
    requires s.runners[dead].phase == Working
    requires s.heartbeat.Some? ==> s.heartbeat.value.status == Running
    ensures var later := Step(Step(s, Crash(dead)), Tick(to));
      pid in Step(later, Acquire(pid, interval)).runners
      <==> s.heartbeat.None? || to - s.heartbeat.value.at > Bound(NormalInterval(interval))
  {
  }

  // ---------------------------------------------------------------------------------
  // Taking the lock together with the first heartbeat.
  // ---------------------------------------------------------------------------------

  /** Runs in which nothing comes between taking the lock and the first heartbeat, nor between
      the final heartbeat and the release. */
  datatype Move =
    | Wait(to: int)
    | Start(pid: int, interval: int)
    | KeepAlive(pid: int)
    | Finish(pid: int, failed: bool)
    | Die(pid: int)

  predicate CanMove(s: State, m: Move) {
    match m
    case Wait(to) => to >= s.now
    case Start(pid, _) => pid !in s.runners
    case KeepAlive(pid) => pid in s.runners && s.runners[pid].phase == Working
    case Finish(pid, _) => pid in s.runners && s.runners[pid].phase == Working
    case Die(pid) => pid in s.runners
  }

  function Make(s: State, m: Move): State
    requires CanMove(s, m)
  {
    match m
    case Wait(to) => Step(s, Tick(to))
    case Start(pid, interval) =>
      if IsAccepted(s, interval) then Step(Step(s, Acquire(pid, interval)), Beat(pid)) else s
    case KeepAlive(pid) => Step(s, Beat(pid))
    case Finish(pid, failed) => Step(Step(s, FinalBeat(pid, failed)), Release(pid))
    case Die(pid) => Step(s, Crash(pid))
  }

  ghost predicate IsPlay(s: State, moves: seq<Move>)
    decreases |moves|, 0
  {
    moves != [] ==> IsPlay(s, Init(moves)) && CanMove(Play(s, Init(moves)), Last(moves))
  }

  ghost function Play(s: State, moves: seq<Move>): State
    requires IsPlay(s, moves)
    decreases |moves|, 1
  {
    if moves == [] then s else Make(Play(s, Init(moves)), Last(moves))
  }

  ghost predicate PlaysAtMostOne(s: State, moves: seq<Move>)
    requires IsPlay(s, moves)
  {
    AtMostOne(Play(s, moves)) && (moves != [] ==> PlaysAtMostOne(s, Init(moves)))
  }

  /** No start finds a live runner whose heartbeat has aged past the starter's bound. */
  predicate FindsFreshHeartbeat(s: State, m: Move) {
    m.Start? && HasRunner(s) && s.heartbeat.Some? ==>
      s.now - s.heartbeat.value.at <= Bound(NormalInterval(m.interval))
  }

  ghost predicate AlwaysFresh(s: State, moves: seq<Move>)
    requires IsPlay(s, moves)
  {
    moves != [] ==> AlwaysFresh(s, Init(moves)) && FindsFreshHeartbeat(Play(s, Init(moves)), Last(moves))
  }

  /** A live runner is on the lock, at work, and its heartbeat says so. */
  ghost predicate SessionInv(s: State) {
    && HolderInv(s)
    && (HasRunner(s) ==> s.heartbeat.Some? && s.heartbeat.value.status == Running)
    && forall pid :: pid in s.runners ==> s.runners[pid].phase == Working
  }

  lemma MoveKeepsExclusionExactlyWhenFresh(s: State, m: Move)
    requires SessionInv(s) && CanMove(s, m)
    ensures AtMostOne(Make(s, m)) <==> FindsFreshHeartbeat(s, m)
    ensures FindsFreshHeartbeat(s, m) ==> SessionInv(Make(s, m))
  {
    var s' := Make(s, m);
    if FindsFreshHeartbeat(s, m) {
      assert SessionInv(s') by {
        if m.Finish? || m.Die? {
          assert forall pid :: pid in s.runners ==> pid == m.pid;
          assert !HasRunner(s');
        }
      }
      SoleRunner(s');
    } else {
      var pid :| pid in s.runners;
      TwoRunners(s', pid, m.pid);
    }
  }

  /** With those pairs of writes undivided, at most one runner is ever active if and only if no
      start finds a live runner whose heartbeat is older than the starter's bound. */
  lemma {:induction false} UndividedExclusionExactlyWhen(s: State, moves: seq<Move>)
    requires !HasRunner(s) && IsPlay(s, moves)
    ensures PlaysAtMostOne(s, moves) <==> AlwaysFresh(s, moves)
    ensures AlwaysFresh(s, moves) ==> SessionInv(Play(s, moves))
  {
    if moves == [] {
      SoleRunner(s);
    } else {
      UndividedExclusionExactlyWhen(s, Init(moves));
      if AlwaysFresh(s, Init(moves)) {
        MoveKeepsExclusionExactlyWhenFresh(Play(s, Init(moves)), Last(moves));
      }
    }
  }

  // ---------------------------------------------------------------------------------
  // How exclusion is lost.
  // ---------------------------------------------------------------------------------

  /** Between taking the lock and the first heartbeat, any other process takes the lock too. */
  lemma FirstHeartbeatComesTooLate(now: int, p: int, q: int, interval: int)
    requires p != q
    ensures var s := Step(State(now, None, None, map[]), Acquire(p, interval));
      !AtMostOne(Step(s, Acquire(q, interval)))
  {
  }

  /** The bound is the contender's: a runner that sleeps long enough between heartbeats loses its
      lock to one with a short interval, though its own bound is far from passed. */
  lemma LongSleeperIsSeized(s: State, p: int, q: int, holderInterval: int, interval: int)
    requires !HasRunner(s) && s.lock.None? && p != q
    requires NormalInterval(holderInterval) > Bound(NormalInterval(interval))
    ensures var held := Make(s, Start(p, holderInterval));
      var slept := Make(held, Wait(s.now + NormalInterval(holderInterval)));
      && slept.heartbeat.Some? && slept.now - slept.heartbeat.value.at < Bound(NormalInterval(holderInterval))
      && !AtMostOne(Make(slept, Start(q, interval)))
  {
  }

  /** With two runners, the release of the one that lost the lock unlinks the other's, and a
      third process gets in although the heartbeat is fresh. */
  lemma ReleaseUnlinksAnothersLock(s: State, p: int, q: int, r: int, interval: int)
    requires p in s.runners && s.runners[p].phase == Closing
    requires q in s.runners && s.runners[q].phase == Working && s.lock == Some(q)
    requires r !in s.runners
    ensures p != q
    ensures var released := Step(Step(s, Beat(q)), Release(p));
      && released.heartbeat == Some(Heartbeat(Running, released.now, s.runners[q].interval))
      && !AtMostOne(Step(released, Acquire(r, interval)))
  {
  }

  // ---------------------------------------------------------------------------------
  // The status page.
  // ---------------------------------------------------------------------------------

  datatype LockState = Released | Active | Stale

  /** What the status page says about the lock; it goes by the holder's interval. */
  function ShownLockState(lock: Option<int>, heartbeat: Option<Heartbeat>, now: int): LockState {
    if lock.None? then Released
    else if heartbeat.None? then Stale
    else if heartbeat.value.status == Running
         && Larger(0, now - heartbeat.value.at)
            > (if heartbeat.value.interval > 0 then Bound(heartbeat.value.interval) else 300)
      then Stale
    else Active
  }

  /** A lock is shown as active exactly when a contender would be refused, unless the last
      heartbeat is final or its age lies between the two bounds. */
  lemma ShownActiveMeansRefusedExactlyWhen(s: State, interval: int)
    requires s.lock.Some? && s.heartbeat.Some? && s.heartbeat.value.interval > 0
    ensures var h := s.heartbeat.value; var age := s.now - h.at;
      var shown, contender := Bound(h.interval), Bound(NormalInterval(interval));
      (ShownLockState(s.lock, s.heartbeat, s.now) == Active <==> !IsAccepted(s, interval))
      <==> h.status == Running && !(contender < age <= shown) && !(shown < age <= contender)
  {
  }

  /** In numbers: it is shown as active unless its heartbeat is missing, or a running one older than
      300 seconds and than three of the holder's own intervals. */
  lemma ShownExactlyWhen(lock: Option<int>, heartbeat: Option<Heartbeat>, now: int)
    ensures var shown := ShownLockState(lock, heartbeat, now);
      && (shown == Released <==> lock.None?)
      && (shown == Active <==>
            && lock.Some? && heartbeat.Some?
            && var h := heartbeat.value;
              h.status != Running || now - h.at <= 300 || now - h.at <= 3 * h.interval)
  {
  }

  // ---------------------------------------------------------------------------------
  // One process.
  // ---------------------------------------------------------------------------------

  /** What happens in a cycle: the patrol and its reports succeed; the reports fail, or the process
      is interrupted in them, when the patrol is already recorded; the patrol fails, or the process
      is interrupted in it. Where a script of cycles ends, the process is interrupted asleep after
      the last one, or right before the first. */
  datatype Cycle =
    | Patrolled(summary: int)
    | ReportFailed(summary: int)
    | InterruptedInReports(summary: int)
    | PatrolFailed
    | InterruptedInPatrol

  datatype StopReason = MaxIterationsReached | WasInterrupted | DidFail

  /** A contender is refused, or a cycle's failure is raised again at the end. */
  datatype Error = AlreadyRunning | CycleFailed

  datatype Outcome = Outcome(reason: StopReason, patrols: seq<int>)

  /** What else the heartbeat file shows: the cycles so far, the last of them, and in the final
      heartbeat why the run ended. */
  datatype Progress = Progress(cycles: nat, recent: seq<int>, reason: Option<StopReason>)

  const MAX_RECENT_PATROLS := 8

  /** The last so many elements. */
  function LastN(xs: seq<int>, n: nat): seq<int> { if |xs| <= n then xs else xs[|xs| - n..] }

  /** How many cycles succeed before the loop ends, the first n having done so: the least number
      at which the limit is reached, the script ends or a cycle does not succeed. */
  function Completed(script: seq<Cycle>, max: nat, n: nat): (m: nat)
    requires n <= |script| && (max > 0 ==> n <= max)
    ensures n <= m <= |script| && (max > 0 ==> m <= max)
    ensures forall i :: n <= i < m ==> script[i].Patrolled?
    ensures m == max > 0 || m == |script| || !script[m].Patrolled?
    decreases |script| - n
  {
    if (max > 0 && n == max) || n == |script| || !script[n].Patrolled? then n
    else Completed(script, max, n + 1)
  }

  function Summaries(script: seq<Cycle>, n: nat): (xs: seq<int>)
    requires n <= |script| && forall i :: 0 <= i < n ==> script[i].Patrolled?
    ensures |xs| == n
  {
    if n == 0 then [] else Summaries(script, n - 1) + [script[n - 1].summary]
  }

  /** The loop is left in the middle of its cycle n. */
  predicate EndsInCycle(script: seq<Cycle>, max: nat, n: nat) { n < |script| && !(max > 0 && n == max) }

  /** The summary of a patrol that was recorded before its cycle ended early. */
  function LatePatrol(script: seq<Cycle>, max: nat, n: nat): seq<int> {
    if EndsInCycle(script, max, n) && (script[n].ReportFailed? || script[n].InterruptedInReports?)
    then [script[n].summary]
    else []
  }

  function StopReasonOf(script: seq<Cycle>, max: nat, n: nat): StopReason {
    if max > 0 && n == max then MaxIterationsReached
    else if n < |script| && (script[n].PatrolFailed? || script[n].ReportFailed?) then DidFail
    else WasInterrupted
  }

  /** One heartbeat before the loop, two in every completed cycle, one in a cycle cut short. */
  function RunningBeats(script: seq<Cycle>, max: nat, n: nat): nat {
    1 + 2 * n + if EndsInCycle(script, max, n) then 1 else 0
  }

  lemma {:induction false} SummaryAt(script: seq<Cycle>, n: nat, i: nat)
    requires i < n <= |script| && forall j :: 0 <= j < n ==> script[j].Patrolled?
    ensures Summaries(script, n)[i] == script[i].summary
  {
    if i < n - 1 {
      SummaryAt(script, n - 1, i);
    }
  }

  /** What is on record when a run ends: the summaries of all completed cycles, and of the one cut
      short if its patrol was done. The limit stops the run if it is positive and reached; a
      failed patrol or report does if the limit is not, and an interrupt otherwise. */
  lemma RunEndsAsScripted(script: seq<Cycle>, maxIterations: int)
    ensures var max := NormalIterations(maxIterations); var n := Completed(script, max, 0);
      var patrols, reason := Summaries(script, n) + LatePatrol(script, max, n), StopReasonOf(script, max, n);
      && n <= |patrols| <= |script|
      && (forall i :: 0 <= i < n ==> script[i].Patrolled? && patrols[i] == script[i].summary)
      && (reason == MaxIterationsReached <==> maxIterations > 0 && n == maxIterations)
      && (maxIterations > 0 ==> n <= maxIterations)
      && (reason == DidFail <==>
            reason != MaxIterationsReached && n < |script| && (script[n].PatrolFailed? || script[n].ReportFailed?))
      && (reason != MaxIterationsReached && n < |script| ==> !script[n].Patrolled?)
      && (|patrols| > n <==>
            reason != MaxIterationsReached && n < |script| && !script[n].PatrolFailed?
                && !script[n].InterruptedInPatrol?)
      && (|patrols| > n ==> |patrols| == n + 1 && patrols[n] == script[n].summary)
  {
    var n := Completed(script, NormalIterations(maxIterations), 0);
    forall i | 0 <= i < n
      ensures Summaries(script, n)[i] == script[i].summary
    {
      SummaryAt(script, n, i);
    }
  }

  /** Eight patrols are shown, or all if there are fewer, and they are the last ones. */
  lemma LastEightAreShown(patrols: seq<int>)
    ensures var shown := LastN(patrols, MAX_RECENT_PATROLS);
      && |shown| == (if |patrols| < 8 then |patrols| else 8)
      && shown == patrols[|patrols| - |shown|..]
  {
  }

  /** Trimming after every cycle keeps the last patrols. */
  lemma TrimmingKeepsLast(xs: seq<int>, x: int, n: nat)
    requires n > 0
    ensures LastN(LastN(xs, n) + [x], n) == LastN(xs + [x], n)
  {
  }

  /** From a position on, all heartbeats are running ones of that interval. */
  ghost predicate AllRunning(beats: seq<Heartbeat>, from: nat, interval: int) {
    forall i :: from <= i < |beats| ==> beats[i].status == Running && beats[i].interval == interval
  }

  lemma NoneRunning(beats: seq<Heartbeat>, interval: int)
    ensures AllRunning(beats, |beats|, interval)
  {
  }

  lemma RunningAppended(beats: seq<Heartbeat>, from: nat, beat: Heartbeat)
    requires AllRunning(beats, from, beat.interval) && beat.status == Running
    ensures AllRunning(beats + [beat], from, beat.interval)
  {
  }

  class UnattendedPatrolRunnerService {
    var lock: Option<int>
    var heartbeat: Option<Heartbeat>
    var progress: Option<Progress>
    /** Every heartbeat written, in order. */
    ghost var beats: seq<Heartbeat>

    constructor (lock: Option<int>, heartbeat: Option<Heartbeat>, progress: Option<Progress>)
      ensures this.lock == lock && this.heartbeat == heartbeat && this.progress == progress && beats == []
    {
      this.lock, this.heartbeat, this.progress, beats := lock, heartbeat, progress, [];
    }

    /** The files as another process would see them. */
    ghost function View(now: int, runners: map<int, Runner>): State
      reads this
    {
      State(now, lock, heartbeat, runners)
    }

    method AcquireLock(pid: int, interval: int, startedAt: int,
        ghost runners: map<int, Runner>) returns (r: Result<(), Error>)
      requires pid !in runners
      modifies this`lock
      ensures r == if IsAccepted(old(View(startedAt, runners)), interval) then Ok(()) else Err(AlreadyRunning)
      ensures View(startedAt, if r.Ok? then runners[pid := Runner(NormalInterval(interval), Working)] else runners)
           == Step(old(View(startedAt, runners)), Acquire(pid, interval))
    {
      if lock.Some? {
        if !IsStaleLock(heartbeat, NormalInterval(interval), startedAt) {
          return Err(AlreadyRunning);
        }
        lock := None;
      }
      lock := Some(pid);
      r := Ok(());
    }

    method WriteHeartbeat(status: Status, at: int, interval: int, shown: Progress)
      modifies this`heartbeat, this`progress, this`beats
      ensures heartbeat == Some(Heartbeat(status, at, interval)) && progress == Some(shown)
      ensures beats == old(beats) + [Heartbeat(status, at, interval)]
    {
      heartbeat, progress := Some(Heartbeat(status, at, interval)), Some(shown);
      beats := beats + [heartbeat.value];
    }

    method ReleaseLock()
      modifies this`lock
      ensures lock == None
    {
      lock := None;
    }

    /** The cycles of one process, going as the script says. `clock` gives the time of each
        heartbeat. */
    method RunCycles(interval: int, max: nat, clock: nat -> int, script: seq<Cycle>)
        returns (reason: StopReason, patrols: seq<int>, recent: seq<int>, ticks: nat)
      modifies this`heartbeat, this`progress, this`beats
      ensures var n := Completed(script, max, 0);
        && reason == StopReasonOf(script, max, n)
        && patrols == Summaries(script, n) + LatePatrol(script, max, n)
        && ticks == RunningBeats(script, max, n)
      ensures recent == LastN(patrols, MAX_RECENT_PATROLS)
      ensures |beats| == |old(beats)| + ticks && old(beats) <= beats && AllRunning(beats, |old(beats)|, interval)
    {
      var n := 0;
      patrols, recent, reason, ticks := [], [], WasInterrupted, 1;
      assert recent == LastN(patrols, MAX_RECENT_PATROLS);
      hide LastN, AllRunning;
      NoneRunning(beats, interval);
      RunningAppended(beats, |beats|, Heartbeat(Running, clock(0), interval));
      WriteHeartbeat(Running, clock(0), interval, Progress(0, recent, None));
      while n < |script|
        invariant n <= |script| && (max > 0 ==> n < max)
        invariant forall i :: 0 <= i < n ==> script[i].Patrolled?
        invariant patrols == Summaries(script, n) && recent == LastN(patrols, MAX_RECENT_PATROLS)
        invariant Completed(script, max, 0) == Completed(script, max, n)
        invariant reason == WasInterrupted && ticks == 1 + 2 * n
        invariant |beats| == |old(beats)| + ticks && old(beats) <= beats && AllRunning(beats, |old(beats)|, interval)
      {
        RunningAppended(beats, |old(beats)|, Heartbeat(Running, clock(ticks), interval));
        WriteHeartbeat(Running, clock(ticks), interval, Progress(|patrols|, recent, None));
        ticks := ticks + 1;
        if script[n].InterruptedInPatrol? {
          break;
        }
        if script[n].PatrolFailed? {
          reason := DidFail;
          break;
        }
        TrimmingKeepsLast(patrols, script[n].summary, MAX_RECENT_PATROLS);
        patrols := patrols + [script[n].summary];
        recent := LastN(recent + [script[n].summary], MAX_RECENT_PATROLS);
        if script[n].InterruptedInReports? {
          break;
        }
        if script[n].ReportFailed? {
          reason := DidFail;
          break;
        }
        RunningAppended(beats, |old(beats)|, Heartbeat(Running, clock(ticks), interval));
        WriteHeartbeat(Running, clock(ticks), interval, Progress(|patrols|, recent, None));
        n, ticks := n + 1, ticks + 1;
        if max > 0 && |patrols| >= max {
          reason := MaxIterationsReached;
          break;
        }
      }
    }

    /** A run of one process: refused without a trace, or ended, however the cycles went, with a
        final heartbeat that tells how and the lock released; a failure is then raised again. */
    method Run(pid: int, intervalSeconds: int, maxIterations: int, startedAt: int, clock: nat -> int,
        script: seq<Cycle>)
        returns (r: Result<Outcome, Error>)
      modifies this
      ensures r == Err(AlreadyRunning)
        <==> old(lock).Some? && !IsStaleLock(old(heartbeat), NormalInterval(intervalSeconds), startedAt)
      ensures r == Err(AlreadyRunning) ==>
        lock == old(lock) && heartbeat == old(heartbeat) && progress == old(progress) && beats == old(beats)
      ensures r != Err(AlreadyRunning) ==>
        var max := NormalIterations(maxIterations); var n := Completed(script, max, 0);
        var reason, patrols := StopReasonOf(script, max, n), Summaries(script, n) + LatePatrol(script, max, n);
        && r == (if reason == DidFail then Err(CycleFailed) else Ok(Outcome(reason, patrols)))
        && progress == Some(Progress(|patrols|, LastN(patrols, MAX_RECENT_PATROLS), Some(reason)))
        && lock == None && |beats| == |old(beats)| + RunningBeats(script, max, n) + 1 && heartbeat == Some(Last(beats))
        && heartbeat.value.status == (if reason == DidFail then Failed else Stopped)
        && AllRunning(Init(beats), |old(beats)|, NormalInterval(intervalSeconds))
    {
      var interval, max := NormalInterval(intervalSeconds), NormalIterations(maxIterations);
      var acquired := AcquireLock(pid, intervalSeconds, startedAt, map[]);
      if acquired.Err? {
        return Err(AlreadyRunning);
      }
      var reason, patrols, recent, ticks := RunCycles(interval, max, clock, script);
      var shown := Progress(|patrols|, recent, Some(reason));
      WriteHeartbeat(if reason == DidFail then Failed else Stopped, clock(ticks), interval, shown);
      ReleaseLock();
      r := if reason == DidFail then Err(CycleFailed) else Ok(Outcome(reason, patrols));
    }
  }
}
