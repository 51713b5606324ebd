/** What an operation comes to when nothing interrupts it, as a table over the outcomes of
    its commands, and that the machine's steps lead there. */
module LifecycleOutcomes {
  import opened Options
  import opened Lifecycle
  import opened LifecycleProof

  // ---- running an operation to its end --------------------------------------------

  /** What the environment decides at each step of an operation. */
  type Env = Pc -> Choice

  /** The fields after an operation that goes on alone from pc. */
  function Ends(r: Runtime, pc: Pc, env: Env): Runtime
    decreases Rank(pc)
  {
    if pc == DONE then r
    else
      StepsAreBounded(r, pc, env(pc));
      Ends(NextRuntime(r, pc, env(pc)), NextPc(r, pc, env(pc)), env)
  }

  function After(s: State, t: nat, env: Env): State
    requires t < |s.threads|
    decreases Rank(s.threads[t])
  {
    if !Enabled(s, t) then s
    else
      StepsAreBounded(s.rt, s.threads[t], env(s.threads[t]));
      StepThreads(s, t, env(s.threads[t]));
      After(Step(s, t, env(s.threads[t])), t, env)
  }

  /** Nobody else holds a lock that the thread may want. */
  predicate Undisturbed(s: State, t: nat) {
    && t < |s.threads|
    && (s.coreOp == None || s.coreOp == Some(t)) && (s.switchMu == None || s.switchMu == Some(t))
    && (s.coreOp == Some(t) <==> HoldsCore(s.threads[t])) && (s.switchMu == Some(t) <==> HoldsSwitch(s.threads[t]))
  }

  lemma UndisturbedStep(s: State, t: nat, c: Choice)
    requires Undisturbed(s, t) && s.threads[t] != DONE
    ensures Enabled(s, t) && Undisturbed(Step(s, t, c), t)
    ensures var s' := Step(s, t, c);
            s'.threads[t] == NextPc(s.rt, s.threads[t], c) && s'.rt == NextRuntime(s.rt, s.threads[t], c)
  {
    assert Enabled(s, t);
    StepThreads(s, t, c);
    PcMovesLocks(s.rt, s.threads[t], c);
  }

  /** The steps of a thread whose locks are free lead to its end, with both locks given
      back. */
  lemma {:induction false} AloneToTheEnd(s: State, t: nat, env: Env)
    requires Undisturbed(s, t)
    ensures var s' := After(s, t, env);
            && t < |s'.threads| && s'.threads[t] == DONE && s'.rt == Ends(s.rt, s.threads[t], env)
            && s'.coreOp == None && s'.switchMu == None
    decreases Rank(s.threads[t])
  {
    if s.threads[t] != DONE {
      var c := env(s.threads[t]);
      UndisturbedStep(s, t, c);
      StepsAreBounded(s.rt, s.threads[t], c);
      AloneToTheEnd(Step(s, t, c), t, env);
    }
  }

  /** Below, `ends` is where an operation ends; all that the proofs use of it is that a
      step does not change the end. */
  ghost predicate Follows(ends: (Runtime, Pc) -> Runtime, env: Env) {
    forall r, pc {:trigger NextPc(r, pc, env(pc))} ::
      pc != DONE ==> ends(r, pc) == ends(NextRuntime(r, pc, env(pc)), NextPc(r, pc, env(pc)))
  }

  function EndsOf(env: Env): (Runtime, Pc) -> Runtime { (r: Runtime, pc: Pc) => Ends(r, pc, env) }

  lemma EndsFollow(env: Env)
    ensures Follows(EndsOf(env), env)
  {
    forall r, pc {:trigger NextPc(r, pc, env(pc))} | pc != DONE
      ensures EndsOf(env)(r, pc) == EndsOf(env)(NextRuntime(r, pc, env(pc)), NextPc(r, pc, env(pc)))
    {
    }
  }

  lemma WorkFollows(ends: (Runtime, Pc) -> Runtime, env: Env, r: Runtime, job: Job, at: At, c: Choice)
    requires Follows(ends, env) && !at.Release? && c == env(Working(job, at))
    ensures ends(r, Working(job, at)) == ends(WorkEffect(r, job, at, c), Working(job, WorkNext(r, job, at, c)))
  {
    assert NextPc(r, Working(job, at), env(Working(job, at))) == Working(job, WorkNext(r, job, at, c));
  }

  lemma ReleaseFollows(ends: (Runtime, Pc) -> Runtime, env: Env, r: Runtime, job: Job, ready: bool)
    requires Follows(ends, env)
    ensures ends(r, Working(job, Release(ready))) == ends(r, AfterRelease(job, ready))
  {
    var pc := Working(job, Release(ready));
    assert NextPc(r, pc, env(pc)) == AfterRelease(job, ready);
  }

  // ---- starting ---------------------------------------------------------------------

  /** The tracker of the running core is closed. */
  function Untracked(tr: Trackers): Trackers {
    Trackers(None, tr.started, tr.closed + (if tr.current.Some? then {tr.current.value} else {}), tr.faulted)
  }

  /** One attempt to take over the traffic: the rules it leaves, and whether it succeeded.
      Policy routing clears before it installs; the default-route takeover does not touch
      the rules. */
  function Attempt(rules: bool, route: Choice, install: Choice): (bool, bool) {
    if route.hijack then (rules, route.ok)
    else if route.other then (rules, false)
    else (install.ok || install.partial, install.ok)
  }

  /** At most two attempts; a second failure leaves the core running degraded. */
  function TakesOver(rules: bool, job: Job, id: nat, env: Env): (bool, bool) {
    if !env(Working(job, StartCommit(id))).tunOn then (rules, true)
    else
      var first := Attempt(rules, env(Working(job, StartRoute(false))), env(Working(job, StartInstall(false))));
      if first.1 then first
      else Attempt(first.0, env(Working(job, StartRoute(true))), env(Working(job, StartInstall(true))))
  }

  /** A new core with a new tracker and a fresh watchdog, degraded if the traffic could
      not be taken over. */
  function Launched(r: Runtime, job: Job, env: Env): Runtime {
    var (id, tracker) := (r.nextId, r.nextId + 1);
    var (rules, ok) := TakesOver(r.rules, job, id, env);
    Runtime(true, false, !ok, Some(id), r.alive + {id}, r.nextId + 2, rules,
            Trackers(Some(tracker), r.trackers.started + {tracker}, r.trackers.closed, r.trackers.faulted),
            Watchdog(0, false, false))
  }

  /** What startCore comes to when no core is there: nothing but the clearing of stale
      rules if the preparation or the launch fails, and otherwise a new core. */
  function Started(r: Runtime, job: Job, env: Env): Runtime {
    var r1 := r.(rules := r.rules && !env(Working(job, StartPrep)).tunOn);
    if env(Working(job, StartPrep)).ok && env(Working(job, StartLaunch)).ok then Launched(r1, job, env) else r1
  }

  /** A core that has died, with its tracker closed and its rules cleared. */
  function Forgotten(r: Runtime): Runtime {
    r.(core := None, running := false, degraded := false, rules := false, trackers := Untracked(r.trackers))
  }

  /** What startCore comes to: a core that runs is left alone, and one that has died is
      forgotten before another is started. */
  function StartedAnyhow(r: Runtime, job: Job, env: Env): Runtime {
    if r.running && r.core.Some? && r.core.value in r.alive then r
    else if r.running then Started(Forgotten(r), job, env)
    else Started(r, job, env)
  }

  predicate IsReady(r: Runtime) { r.running && !r.degraded }

  /** The fields between operations. */
  ghost predicate AtRest(r: Runtime) { Together(r) && !r.starting && forall i :: i in r.alive ==> i < r.nextId }

  lemma ExitEnds(ends: (Runtime, Pc) -> Runtime, env: Env, r: Runtime, job: Job, ready: bool)
    requires Follows(ends, env)
    ensures ends(r, Working(job, StartExit(ready))) == ends(r.(starting := false), AfterRelease(job, ready))
  {
    WorkFollows(ends, env, r, job, StartExit(ready), env(Working(job, StartExit(ready))));
    ReleaseFollows(ends, env, r.(starting := false), job, ready);
  }

  /** From the last check of the status to the end, with a core that is alive or none. */
  lemma StatusEnds(ends: (Runtime, Pc) -> Runtime, env: Env, r: Runtime, job: Job)
    requires Follows(ends, env) && !CoreIsDead(r)
    ensures ends(r, Working(job, StartStatus)) == ends(r.(starting := false), AfterRelease(job, IsReady(r)))
  {
    WorkFollows(ends, env, r, job, StartStatus, env(Working(job, StartStatus)));
    WorkFollows(ends, env, r, job, StartReport, env(Working(job, StartReport)));
    ExitEnds(ends, env, r, job, IsReady(r));
  }

  lemma AttemptEnds(ends: (Runtime, Pc) -> Runtime, env: Env, r: Runtime, job: Job, again: bool, route: Choice,
                    install: Choice)
    requires Follows(ends, env)
    requires route == env(Working(job, StartRoute(again))) && install == env(Working(job, StartInstall(again)))
    ensures var (rules, ok) := Attempt(r.rules, route, install);
            ends(r, Working(job, StartRoute(again))) == ends(r.(rules := rules), Working(job, Routed(again, ok)))
  {
    WorkFollows(ends, env, r, job, StartRoute(again), route);
    if route.hijack {
      assert r.(rules := r.rules) == r;
    } else if !route.other {
      WorkFollows(ends, env, r.(rules := false), job, StartInstall(again), install);
    }
  }

  lemma TakeoverEnds(ends: (Runtime, Pc) -> Runtime, env: Env, r: Runtime, job: Job, id: nat)
    requires Follows(ends, env) && !r.degraded && env(Working(job, StartCommit(id))).tunOn
    ensures var (rules, ok) := TakesOver(r.rules, job, id, env);
            ends(r, Working(job, StartRoute(false)))
            == ends(r.(rules := rules, degraded := !ok), Working(job, StartStatus))
  {
    var (route, install) := (env(Working(job, StartRoute(false))), env(Working(job, StartInstall(false))));
    var first := Attempt(r.rules, route, install);
    AttemptEnds(ends, env, r, job, false, route, install);
    if first.1 {
      assert r.(rules := first.0, degraded := false) == r.(rules := first.0);
    } else {
      SecondEnds(ends, env, r.(rules := first.0), job);
    }
  }

  lemma SecondEnds(ends: (Runtime, Pc) -> Runtime, env: Env, r: Runtime, job: Job)
    requires Follows(ends, env)
    ensures var second := Attempt(r.rules, env(Working(job, StartRoute(true))), env(Working(job, StartInstall(true))));
            ends(r, Working(job, StartRoute(true)))
            == ends(r.(rules := second.0, degraded := !second.1), Working(job, StartStatus))
  {
    var (route, install) := (env(Working(job, StartRoute(true))), env(Working(job, StartInstall(true))));
    var (rules, ok) := Attempt(r.rules, route, install);
    AttemptEnds(ends, env, r, job, true, route, install);
    WorkFollows(ends, env, r.(rules := rules), job, StartDegrade(!ok), env(Working(job, StartDegrade(!ok))));
  }

  lemma CommitEnds(ends: (Runtime, Pc) -> Runtime, env: Env, r: Runtime, job: Job, id: nat)
    requires Follows(ends, env)
    ensures var (rules, ok) := TakesOver(r.rules, job, id, env);
            ends(r, Working(job, StartCommit(id)))
            == ends(CommitSection(r, id).(rules := rules, degraded := !ok), Working(job, StartStatus))
  {
    var c := env(Working(job, StartCommit(id)));
    WorkFollows(ends, env, r, job, StartCommit(id), c);
    if c.tunOn { TakeoverEnds(ends, env, CommitSection(r, id), job, id); }
  }

  lemma LaunchedIsCommitted(r: Runtime, job: Job, env: Env)
    requires TrackersSound(r.trackers, r.nextId)
    ensures var r1 := r.(alive := r.alive + {r.nextId}, nextId := r.nextId + 1);
            var (rules, ok) := TakesOver(r.rules, job, r.nextId, env);
            CommitSection(r1, r.nextId).(rules := rules, degraded := !ok, starting := false) == Launched(r, job, env)
  {
  }

  lemma LaunchEnds(ends: (Runtime, Pc) -> Runtime, env: Env, r: Runtime, job: Job)
    requires Follows(ends, env) && TrackersSound(r.trackers, r.nextId) && !r.running
    ensures var r' := if env(Working(job, StartLaunch)).ok then Launched(r, job, env) else r.(starting := false);
            ends(r, Working(job, StartLaunch)) == ends(r', AfterRelease(job, IsReady(r')))
  {
    var c := env(Working(job, StartLaunch));
    WorkFollows(ends, env, r, job, StartLaunch, c);
    if c.ok {
      var (id, r1) := (r.nextId, r.(alive := r.alive + {r.nextId}, nextId := r.nextId + 1));
      var (rules, ok) := TakesOver(r.rules, job, id, env);
      CommitEnds(ends, env, r1, job, id);
      StatusEnds(ends, env, CommitSection(r1, id).(rules := rules, degraded := !ok), job);
      LaunchedIsCommitted(r, job, env);
    } else {
      ExitEnds(ends, env, r, job, false);
    }
  }

  /** From the claim of the start slot on. */
  lemma PrepEnds(ends: (Runtime, Pc) -> Runtime, env: Env, r: Runtime, job: Job)
    requires Follows(ends, env) && AtRest(r) && !r.running
    ensures ends(r.(starting := true), Working(job, StartPrep))
            == ends(Started(r, job, env), AfterRelease(job, IsReady(Started(r, job, env))))
  {
    var prep := env(Working(job, StartPrep));
    var r1 := r.(starting := true, rules := r.rules && !prep.tunOn);
    WorkFollows(ends, env, r.(starting := true), job, StartPrep, prep);
    if prep.ok {
      LaunchEnds(ends, env, r1, job);
    } else if prep.other {
      StatusEnds(ends, env, r1, job);
    } else {
      ExitEnds(ends, env, r1, job, false);
    }
  }

  lemma DeadEnds(ends: (Runtime, Pc) -> Runtime, env: Env, r: Runtime, job: Job)
    requires Follows(ends, env) && AtRest(r) && r.running && CoreIsDead(r)
    ensures ends(r, Working(job, StartEnter)) == ends(Forgotten(r).(starting := true), Working(job, StartPrep))
  {
    var r1 := CheckExit(r);
    WorkFollows(ends, env, r, job, StartEnter, env(Working(job, StartEnter)));
    WorkFollows(ends, env, r1, job, StartClean, env(Working(job, StartClean)));
    WorkFollows(ends, env, r1, job, StartCleanClear, env(Working(job, StartCleanClear)));
    WorkFollows(ends, env, r1.(rules := false), job, StartClaim, env(Working(job, StartClaim)));
  }

  lemma StartEnds(ends: (Runtime, Pc) -> Runtime, env: Env, r: Runtime, job: Job)
    requires Follows(ends, env) && AtRest(r)
    ensures var r' := StartedAnyhow(r, job, env);
            ends(r, Working(job, StartEnter)) == ends(r', AfterRelease(job, IsReady(r')))
  {
    if AlreadyRunning(r) {
      WorkFollows(ends, env, r, job, StartEnter, env(Working(job, StartEnter)));
      ReleaseFollows(ends, env, r, job, !r.degraded);
    } else if r.running {
      DeadEnds(ends, env, r, job);
      PrepEnds(ends, env, Forgotten(r), job);
    } else {
      WorkFollows(ends, env, r, job, StartEnter, env(Working(job, StartEnter)));
      PrepEnds(ends, env, r, job);
    }
  }

  // ---- stopping ---------------------------------------------------------------------

  /** What stopCore comes to: the core is closed, its tracker too, the rules are cleared,
      and the watchdog starts afresh unless it is the watchdog that stops. */
  function Stopped(r: Runtime, byWatchdog: bool): Runtime {
    r.(core := None, running := false, degraded := false, rules := false,
       alive := r.alive - (if r.core.Some? then {r.core.value} else {}), trackers := Untracked(r.trackers),
       watchdog := if byWatchdog then r.watchdog else Watchdog(0, false, false))
  }

  lemma StopEnds(ends: (Runtime, Pc) -> Runtime, env: Env, r: Runtime, job: Job)
    requires Follows(ends, env) && AtRest(r)
    ensures AtRest(Stopped(r, job.Auto?))
    ensures ends(r, Working(job, StopFields))
            == ends(Stopped(r, job.Auto?),
                    Working(job, if job == UserStop || job == SwitchStop then Release(false) else StartEnter))
  {
    assert CloseTracker(r.trackers) == Untracked(r.trackers) && r.alive - {} == r.alive;
    var r1 := StopSection(r, !job.Auto?);
    var r2 := r1.(alive := r.alive - (if r.core.Some? then {r.core.value} else {}));
    WorkFollows(ends, env, r, job, StopFields, env(Working(job, StopFields)));
    WorkFollows(ends, env, r1, job, StopClose(r.core), env(Working(job, StopClose(r.core))));
    WorkFollows(ends, env, r2, job, StopClear, env(Working(job, StopClear)));
    assert r2.(rules := false) == Stopped(r, job.Auto?);
  }

  // ---- the operations, one by one -----------------------------------------------------

  lemma PcFollows(ends: (Runtime, Pc) -> Runtime, env: Env, r: Runtime, pc: Pc, c: Choice)
    requires Follows(ends, env) && pc != DONE && c == env(pc)
    ensures ends(r, pc) == ends(NextRuntime(r, pc, c), NextPc(r, pc, c))
  {
    assert NextPc(r, pc, env(pc)) == NextPc(r, pc, c);
  }

  /** What a job comes to under the lock. */
  function Done(r: Runtime, job: Job, env: Env): Runtime {
    match job
    case UserStart => StartedAnyhow(r, job, env)
    case UserStop => Stopped(r, false)
    case UserRestart => Started(Stopped(r, false), job, env)
    case SwitchRestart => Started(Stopped(r, false), job, env)
    case SwitchStop => Stopped(r, false)
    case Auto(whileRunning) => if whileRunning then Started(Stopped(r, true), job, env) else StartedAnyhow(r, job, env)
  }

  lemma JobEnds(ends: (Runtime, Pc) -> Runtime, env: Env, r: Runtime, job: Job)
    requires Follows(ends, env) && AtRest(r)
    ensures ends(r, Waiting(ToRun(job)))
            == ends(Done(r, job, env),
                    AfterRelease(job, job != UserStop && job != SwitchStop && IsReady(Done(r, job, env))))
  {
    PcFollows(ends, env, r, Waiting(ToRun(job)), env(Waiting(ToRun(job))));
    if job == UserStart || job == Auto(false) {
      StartEnds(ends, env, r, job);
    } else {
      StopEnds(ends, env, r, job);
      if job == UserStop || job == SwitchStop {
        ReleaseFollows(ends, env, Stopped(r, job.Auto?), job, false);
      } else {
        StartEnds(ends, env, Stopped(r, job.Auto?), job);
      }
    }
  }

  lemma DoneEnds(env: Env, r: Runtime)
    ensures EndsOf(env)(r, DONE) == r
  {
  }

  /** A start, a stop or a restart by the user, undisturbed. */
  lemma UserJobEnds(env: Env, r: Runtime, job: Job)
    requires AtRest(r) && job in {UserStart, UserStop, UserRestart}
    ensures Ends(r, Waiting(ToRun(job)), env)
            == if job == UserStart then StartedAnyhow(r, UserStart, env)
               else if job == UserStop then Stopped(r, false)
               else Started(Stopped(r, false), UserRestart, env)
  {
    EndsFollow(env);
    JobEnds(EndsOf(env), env, r, job);
    DoneEnds(env, Done(r, job, env));
  }

  /** What CoreStatus comes to: a core that has died is forgotten, and nothing else changes. */
  lemma StatusEndsAs(env: Env, r: Runtime)
    requires AtRest(r)
    ensures Ends(r, Outside(StatusEntry), env) == if CoreIsDead(r) then Forgotten(r) else r
  {
    EndsFollow(env);
    PcFollows(EndsOf(env), env, r, Outside(StatusEntry), env(Outside(StatusEntry)));
    if CoreIsDead(r) {
      CleanupEnds(EndsOf(env), env, CheckExit(r));
      DeadIsForgotten(r);
      DoneEnds(env, Forgotten(r));
    } else {
      DoneEnds(env, r);
    }
  }

  lemma DeadIsForgotten(r: Runtime)
    requires Together(r) && CoreIsDead(r)
    ensures CheckExit(r).(rules := false) == Forgotten(r)
  {
  }

  /** A cleanup after an exit clears the rules, unless a core runs. */
  lemma CleanupEnds(ends: (Runtime, Pc) -> Runtime, env: Env, r: Runtime)
    requires Follows(ends, env)
    ensures ends(r, Waiting(ToClean)) == ends(if r.running then r else r.(rules := false), DONE)
  {
    PcFollows(ends, env, r, Waiting(ToClean), env(Waiting(ToClean)));
    PcFollows(ends, env, r, Briefly(CleanCheck), env(Briefly(CleanCheck)));
    if r.running {
      PcFollows(ends, env, r, Briefly(CleanRelease), env(Briefly(CleanRelease)));
    } else {
      PcFollows(ends, env, r, Briefly(CleanClear), env(Briefly(CleanClear)));
      PcFollows(ends, env, r.(rules := false), Briefly(CleanRelease), env(Briefly(CleanRelease)));
    }
  }

  /** The watchdog plans a restart: one more attempt, unless the limit is reached. */
  function Planned(r: Runtime, c: Choice): Runtime {
    if c.auto && (c.maxRetries <= 0 || r.watchdog.attempts < c.maxRetries) then
      r.(watchdog := Watchdog(r.watchdog.attempts + 1, true, r.watchdog.restarting))
    else r
  }

  /** What a tick of the watchdog comes to: a core that has died is forgotten; for that, and
      for a core that is degraded, a restart is planned unless one is pending; the planned
      one may stop a running core only if it is for a degraded core. */
  lemma WatchEndsAs(env: Env, r: Runtime)
    requires AtRest(r)
    ensures var (c, r1) := (env(Outside(WatchEntry)), if CoreIsDead(r) then Forgotten(r) else r);
            Ends(r, Outside(WatchEntry), env)
            == if (CoreIsDead(r) || (r.running && r.degraded)) && !r.watchdog.restarting && !r.watchdog.scheduled
               then Planned(r1, c) else r1
    ensures var c := env(Outside(WatchEntry));
            Spawned(r, Outside(WatchEntry), c)
            == if (CoreIsDead(r) || (r.running && r.degraded)) && !r.watchdog.restarting && !r.watchdog.scheduled
                  && Planned(r, c) != r
               then [Outside(AutoEntry(!CoreIsDead(r)))] else []
  {
    var c := env(Outside(WatchEntry));
    EndsFollow(env);
    PcFollows(EndsOf(env), env, r, Outside(WatchEntry), c);
    var r2 := FreeEffect(r, WatchEntry, c);
    if CoreIsDead(r) {
      CleanupEnds(EndsOf(env), env, r2);
      DeadIsForgotten(r);
      DoneEnds(env, r2.(rules := false));
    } else {
      DoneEnds(env, r2);
    }
  }

  lemma RebuildEnds(ends: (Runtime, Pc) -> Runtime, env: Env, r: Runtime)
    requires Follows(ends, env)
    ensures var (clear, install) := (env(Briefly(ReconClear)), env(Briefly(ReconInstall)));
            if clear.other then ends(r, Briefly(ReconClear)) == ends(r, Briefly(ReconRelease))
            else ends(r, Briefly(ReconClear)) == ends(r.(rules := install.ok || install.partial), DONE)
  {
    var (clear, install) := (env(Briefly(ReconClear)), env(Briefly(ReconInstall)));
    PcFollows(ends, env, r, Briefly(ReconClear), clear);
    if clear.other {
      assert r.(rules := r.rules) == r;
    } else {
      var r1 := r.(rules := false);
      PcFollows(ends, env, r1, Briefly(ReconInstall), install);
      var r2 := r1.(rules := install.ok || install.partial);
      PcFollows(ends, env, r2, Briefly(ReconRelease), env(Briefly(ReconRelease)));
    }
  }

  lemma CheckEnds(ends: (Runtime, Pc) -> Runtime, env: Env, r: Runtime)
    requires Follows(ends, env) && r.running && !r.starting
    ensures ends(r, Outside(ReconEntry))
            == ends(r, Briefly(if env(Briefly(ReconCheck)).ok then ReconClear else ReconRelease))
  {
    PcFollows(ends, env, r, Outside(ReconEntry), env(Outside(ReconEntry)));
    PcFollows(ends, env, r, Waiting(ToRecon), env(Waiting(ToRecon)));
    PcFollows(ends, env, r, Briefly(ReconCheck), env(Briefly(ReconCheck)));
  }

  lemma NoReconcile(ends: (Runtime, Pc) -> Runtime, env: Env, r: Runtime)
    requires Follows(ends, env) && !r.running
    ensures ends(r, Outside(ReconEntry)) == ends(r, DONE)
  {
    PcFollows(ends, env, r, Outside(ReconEntry), env(Outside(ReconEntry)));
  }

  lemma ReconcileEnds(ends: (Runtime, Pc) -> Runtime, env: Env, r: Runtime)
    requires Follows(ends, env) && !r.starting
    ensures var (check, clear) := (env(Briefly(ReconCheck)), env(Briefly(ReconClear)));
            var install := env(Briefly(ReconInstall));
            ends(r, Outside(ReconEntry))
            == ends(if !r.running || !check.ok || clear.other then r else r.(rules := install.ok || install.partial),
                    DONE)
  {
    if r.running {
      CheckEnds(ends, env, r);
      PcFollows(ends, env, r, Briefly(ReconRelease), env(Briefly(ReconRelease)));
      if env(Briefly(ReconCheck)).ok { RebuildEnds(ends, env, r); }
    } else {
      NoReconcile(ends, env, r);
    }
  }

  /** What a tick of the reconciliation comes to, between operations: without a core, or
      with nothing to rebuild, nothing; otherwise the rules are those of the rebuild,
      unless it gives up before its clearing. */
  lemma ReconcileEndsAs(env: Env, r: Runtime)
    requires AtRest(r)
    ensures var (check, clear) := (env(Briefly(ReconCheck)), env(Briefly(ReconClear)));
            var install := env(Briefly(ReconInstall));
            Ends(r, Outside(ReconEntry), env)
            == if !r.running || !check.ok || clear.other then r else r.(rules := install.ok || install.partial)
  {
    var (check, clear) := (env(Briefly(ReconCheck)), env(Briefly(ReconClear)));
    var install := env(Briefly(ReconInstall));
    EndsFollow(env);
    ReconcileEnds(EndsOf(env), env, r);
    DoneEnds(env, if !r.running || !check.ok || clear.other then r else r.(rules := install.ok || install.partial));
  }

  lemma SwitchBegins(ends: (Runtime, Pc) -> Runtime, env: Env, r: Runtime, stop: bool)
    requires Follows(ends, env)
    ensures ends(r, Outside(SwitchEntry(stop)))
            == ends(r, if r.running then Waiting(ToRun(if stop then SwitchStop else SwitchRestart)) else DONE)
  {
    PcFollows(ends, env, r, Outside(SwitchEntry(stop)), env(Outside(SwitchEntry(stop))));
    if r.running {
      PcFollows(ends, env, r, Outside(WantSwitch(stop)), env(Outside(WantSwitch(stop))));
      PcFollows(ends, env, r, Outside(SwitchCheck(stop)), env(Outside(SwitchCheck(stop))));
    }
  }

  lemma SwitchEnds(ends: (Runtime, Pc) -> Runtime, env: Env, r: Runtime, stop: bool)
    requires Follows(ends, env) && AtRest(r)
    ensures ends(r, Outside(SwitchEntry(stop)))
            == ends(if r.running then Done(r, if stop then SwitchStop else SwitchRestart, env) else r, DONE)
  {
    SwitchBegins(ends, env, r, stop);
    if r.running {
      var job := if stop then SwitchStop else SwitchRestart;
      JobEnds(ends, env, r, job);
      PcFollows(ends, env, Done(r, job, env), Outside(SwitchRelease), env(Outside(SwitchRelease)));
    }
  }

  /** What a change of the selection, the configuration or the routing comes to: a running
      core is stopped or restarted, and nothing happens without one. */
  lemma SwitchEndsAs(env: Env, r: Runtime, stop: bool)
    requires AtRest(r)
    ensures Ends(r, Outside(SwitchEntry(stop)), env)
            == if !r.running then r
               else if stop then Stopped(r, false)
               else Started(Stopped(r, false), SwitchRestart, env)
  {
    EndsFollow(env);
    SwitchEnds(EndsOf(env), env, r, stop);
    DoneEnds(env, r);
    DoneEnds(env, Done(r, if stop then SwitchStop else SwitchRestart, env));
  }

  lemma ClearsFirst(ends: (Runtime, Pc) -> Runtime, env: Env, r: Runtime, repair: bool)
    requires Follows(ends, env)
    ensures var c := env(Briefly(ClearRelease(repair)));
            ends(r, Waiting(ToClear(repair)))
            == ends(r.(rules := false),
                    if !repair then Outside(SwitchEntry(false))
                    else if !c.ok then DONE
                    else Waiting(ToRun(if c.other then UserRestart else UserStart)))
  {
    PcFollows(ends, env, r, Waiting(ToClear(repair)), env(Waiting(ToClear(repair))));
    PcFollows(ends, env, r, Briefly(ClearNow(repair)), env(Briefly(ClearNow(repair))));
    PcFollows(ends, env, r.(rules := false), Briefly(ClearRelease(repair)), env(Briefly(ClearRelease(repair))));
  }

  /** What a configuration change comes to: if it turns TUN off, the rules go first. */
  lemma ConfigEndsAs(env: Env, r: Runtime, turnsTunOff: bool)
    requires AtRest(r)
    ensures var r1 := if turnsTunOff then r.(rules := false) else r;
            Ends(r, Outside(ConfigEntry(turnsTunOff)), env)
            == if !r.running then r1 else Started(Stopped(r1, false), SwitchRestart, env)
  {
    var (ends, entry) := (EndsOf(env), Outside(ConfigEntry(turnsTunOff)));
    EndsFollow(env);
    PcFollows(ends, env, r, entry, env(entry));
    if turnsTunOff { ClearsFirst(ends, env, r, false); }
    SwitchEndsAs(env, if turnsTunOff then r.(rules := false) else r, false);
  }

  function Repaired(r: Runtime, c: Choice, env: Env): Runtime {
    if !c.ok then r else Done(r, if c.other then UserRestart else UserStart, env)
  }

  lemma RepairEnds(ends: (Runtime, Pc) -> Runtime, env: Env, r: Runtime)
    requires Follows(ends, env) && AtRest(r)
    ensures ends(r, Outside(RepairEntry))
            == ends(Repaired(r.(rules := false), env(Briefly(ClearRelease(true))), env), DONE)
  {
    var c := env(Briefly(ClearRelease(true)));
    PcFollows(ends, env, r, Outside(RepairEntry), env(Outside(RepairEntry)));
    ClearsFirst(ends, env, r, true);
    if c.ok { JobEnds(ends, env, r.(rules := false), if c.other then UserRestart else UserStart); }
  }

  /** What a repair comes to: the rules go, and unless the device cannot be removed the core
      is restarted if it was running when the repair began, and started otherwise. */
  lemma RepairEndsAs(env: Env, r: Runtime)
    requires AtRest(r)
    ensures var (c, r1) := (env(Briefly(ClearRelease(true))), r.(rules := false));
            Ends(r, Outside(RepairEntry), env)
            == if !c.ok then r1
               else if c.other then Started(Stopped(r1, false), UserRestart, env)
               else StartedAnyhow(r1, UserStart, env)
  {
    EndsFollow(env);
    RepairEnds(EndsOf(env), env, r);
    DoneEnds(env, Repaired(r.(rules := false), env(Briefly(ClearRelease(true))), env));
  }

  /** What a planned restart comes to: nothing if a stop by the user or a commit has called
      it off; it is dropped for a core that is running and may not be stopped; otherwise the
      core is started, after a stop if it may be running, and a result that is not ready
      plans the next one, unless the start has committed and another is planned. */
  lemma AutoEndsAs(env: Env, r: Runtime, whileRunning: bool)
    requires AtRest(r)
    ensures var w := r.watchdog;
            var job := Auto(whileRunning);
            var r1 := r.(watchdog := Watchdog(w.attempts, false, true));
            var r2 := if whileRunning then Started(Stopped(r1, true), job, env) else StartedAnyhow(r1, job, env);
            var r3 := r2.(watchdog := r2.watchdog.(restarting := false));
            Ends(r, Outside(AutoEntry(whileRunning)), env)
            == if !w.scheduled then r
               else if r.running && !whileRunning then r.(watchdog := w.(scheduled := false))
               else if IsReady(r2) then r3.(watchdog := r3.watchdog.(attempts := 0))
               else if r3.watchdog.scheduled then r3
               else Planned(r3, env(Outside(AutoResult(false))))
  {
    var (ends, entry) := (EndsOf(env), Outside(AutoEntry(whileRunning)));
    EndsFollow(env);
    PcFollows(ends, env, r, entry, env(entry));
    if !r.watchdog.scheduled {
      DoneEnds(env, r);
    } else if r.running && !whileRunning {
      DoneEnds(env, r.(watchdog := r.watchdog.(scheduled := false)));
    } else {
      var r1 := r.(watchdog := Watchdog(r.watchdog.attempts, false, true));
      JobEnds(ends, env, r1, Auto(whileRunning));
      ResultEnds(ends, env, Done(r1, Auto(whileRunning), env));
      DoneEnds(env, Resulted(Done(r1, Auto(whileRunning), env), env));
    }
  }

  function Resulted(r: Runtime, env: Env): Runtime {
    var r1 := r.(watchdog := r.watchdog.(restarting := false));
    if IsReady(r) then r1.(watchdog := r1.watchdog.(attempts := 0))
    else if r1.watchdog.scheduled then r1
    else Planned(r1, env(Outside(AutoResult(false))))
  }

  lemma ResultEnds(ends: (Runtime, Pc) -> Runtime, env: Env, r: Runtime)
    requires Follows(ends, env)
    ensures ends(r, Outside(AutoResult(IsReady(r)))) == ends(Resulted(r, env), DONE)
  {
    var pc := Outside(AutoResult(IsReady(r)));
    PcFollows(ends, env, r, pc, env(pc));
  }
}
