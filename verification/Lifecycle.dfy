/** The core lifecycle as a step machine: every operation of the service is a
    thread with a program counter, every critical section of `mu` and every
    external command is one atomic step. `coreOpMu` and `switchMu` are held
    across steps. */
module Lifecycle {
  import opened Options

  // ---- program counters -------------------------------------------------------

  /** Why a thread runs stopCore and startCore under `coreOpMu`. */
  datatype Job =
    | UserStart
    | UserStop
    | UserRestart
    | SwitchRestart  // RestartCore while holding switchMu
    | SwitchStop     // StopCore while holding switchMu
    | Auto(whileRunning: bool)

  /** Steps of stopCore, startCore and their release, all under `coreOpMu`. */
  datatype At =
    | StopFields
    | StopClose(inst: Option<nat>)
    | StopClear
    | StartEnter
    | StartClean
    | StartCleanClear
    | StartClaim
    | StartPrep
    | StartLaunch
    | StartCommit(id: nat)
    | StartRoute(again: bool)
    | StartInstall(again: bool)
    | StartDegrade(degraded: bool)
    | StartStatus
    | StartStatusClean
    | StartStatusClear
    | StartReport
    | StartExit(ready: bool)
    | Release(ready: bool)

  /** Steps under `coreOpMu` outside stopCore and startCore. */
  datatype Brief =
    | CleanCheck               // cleanupAfterCoreExit
    | CleanClear
    | CleanRelease
    | ClearNow(repair: bool)   // a bare clearTunRouting
    | ClearRelease(repair: bool)
    | ReconCheck               // reconcileTunPolicyRouting
    | ReconClear
    | ReconInstall
    | ReconRelease

  /** Steps without `coreOpMu`. */
  datatype Free =
    | StatusEntry
    | WatchEntry
    | ReconEntry
    | AutoEntry(whileRunning: bool)
    | AutoResult(ready: bool)
    | SwitchEntry(stop: bool)
    | ConfigEntry(turnsTunOff: bool)
    | RepairEntry
    | WantSwitch(stop: bool)
    | SwitchCheck(stop: bool)
    | SwitchRelease
    | Finished

  /** Waiting for `coreOpMu`. */
  datatype Want =
    | ToClean                  // saw the core dead: cleanupAfterCoreExit
    | ToRun(job: Job)
    | ToClear(repair: bool)
    | ToRecon

  datatype Pc = Outside(free: Free) | Waiting(want: Want) | Briefly(brief: Brief) | Working(job: Job, at: At)

  const DONE: Pc := Outside(Finished)

  // ---- state ------------------------------------------------------------------

  /** The stats tracker of the running core, and every tracker ever started or
      closed. Closing a tracker twice, or starting one twice, is a fault. */
  datatype Trackers = Trackers(current: Option<nat>, started: set<nat>, closed: set<nat>, faulted: bool)

  datatype Watchdog = Watchdog(attempts: nat, scheduled: bool, restarting: bool)

  /** The fields of Service that the lifecycle uses, the core instances that are
      really alive, and whether managed policy rules are in the kernel. */
  datatype Runtime = Runtime(
    running: bool,
    starting: bool,
    degraded: bool,
    core: Option<nat>,
    alive: set<nat>,
    nextId: nat,
    rules: bool,
    trackers: Trackers,
    watchdog: Watchdog)

  datatype State = State(threads: seq<Pc>, coreOp: Option<nat>, switchMu: Option<nat>, rt: Runtime)

  /** What the environment decides in one step: outcomes of commands and the
      configuration values read. */
  datatype Choice = Choice(ok: bool, other: bool, tunOn: bool, hijack: bool, partial: bool, auto: bool, maxRetries: int)

  /** A service that has just been created. A process that was killed may have left its
      managed rules in the kernel, and creating the service clears nothing. */
  function Boot(leftover: bool): State {
    State([], None, None,
      Runtime(false, false, false, None, {}, 0, leftover, Trackers(None, {}, {}, false), Watchdog(0, false, false)))
  }

  // ---- critical sections of mu --------------------------------------------------

  /** stats.shutdown(): closing a stop channel twice would panic. */
  function CloseTracker(tr: Trackers): Trackers {
    if tr.current.None? then tr
    else Trackers(None, tr.started, tr.closed + {tr.current.value}, tr.faulted || tr.current.value in tr.closed)
  }

  function StartTracker(tr: Trackers, id: nat): Trackers {
    Trackers(Some(id), tr.started + {id}, tr.closed, tr.faulted || id in tr.started)
  }

  predicate CoreIsDead(r: Runtime) { r.core.Some? && r.core.value !in r.alive }

  /** checkProcExitedLocked; it reports CoreIsDead of the state before. */
  function CheckExit(r: Runtime): Runtime {
    if CoreIsDead(r) then
      r.(core := None, running := false, degraded := false, trackers := CloseTracker(r.trackers))
    else
      r
  }

  /** stopCore's critical section. */
  function StopSection(r: Runtime, resetWatchdog: bool): Runtime {
    r.(core := None, running := false, degraded := false, trackers := CloseTracker(r.trackers),
       watchdog := if resetWatchdog then Watchdog(0, false, false) else r.watchdog)
  }

  /** The commit section of startCore, with a new tracker that is started at once. */
  function CommitSection(r: Runtime, id: nat): Runtime {
    r.(core := Some(id), running := true, degraded := false, watchdog := Watchdog(0, false, false),
       trackers := StartTracker(r.trackers, r.nextId), nextId := r.nextId + 1)
  }

  /** Whether scheduleAutoRestartLocked launches a restart. */
  predicate Schedules(r: Runtime, c: Choice) {
    c.auto && !(c.maxRetries > 0 && r.watchdog.attempts >= c.maxRetries)
  }

  /** watchdogTick: the reasons for a restart, after the exit check. */
  predicate WatchExited(r: Runtime) { r.running && !CheckExit(r).running }

  predicate WatchWantsRestart(r: Runtime) {
    var r1 := CheckExit(r);
    (WatchExited(r) || (r1.running && r1.degraded)) && !r1.watchdog.restarting && !r1.watchdog.scheduled
  }

  predicate ResultWantsRestart(r: Runtime, ready: bool) { !ready && !r.watchdog.scheduled }

  /** The first critical section of startCore finds a core running. */
  predicate AlreadyRunning(r: Runtime) { r.running && !CoreIsDead(r) }

  // ---- steps ------------------------------------------------------------------

  /** Where a thread goes from a step without `coreOpMu`. */
  function FreeNext(r: Runtime, pc: Free, c: Choice): Pc {
    match pc
    case StatusEntry => if CoreIsDead(r) then Waiting(ToClean) else DONE
    case WatchEntry => if CoreIsDead(r) then Waiting(ToClean) else DONE
    case ReconEntry => if !r.running || r.starting then DONE else Waiting(ToRecon)
    case AutoEntry(w) => if !r.watchdog.scheduled || (r.running && !w) then DONE else Waiting(ToRun(Auto(w)))
    case AutoResult(_) => DONE
    case SwitchEntry(stop) => if r.running then Outside(WantSwitch(stop)) else DONE
    case ConfigEntry(off) => if off then Waiting(ToClear(false)) else Outside(SwitchEntry(false))
    case RepairEntry => Waiting(ToClear(true))
    case WantSwitch(stop) => Outside(SwitchCheck(stop))
    case SwitchCheck(stop) =>
      if !r.running then Outside(SwitchRelease) else Waiting(ToRun(if stop then SwitchStop else SwitchRestart))
    case SwitchRelease => DONE
    case Finished => DONE
  }

  /** Where a thread goes once it has `coreOpMu`. */
  function WantNext(want: Want): Pc {
    match want
    case ToClean => Briefly(CleanCheck)
    case ToRun(job) => Working(job, if job == UserStart || job == Auto(false) then StartEnter else StopFields)
    case ToClear(repair) => Briefly(ClearNow(repair))
    case ToRecon => Briefly(ReconCheck)
  }

  function BriefNext(r: Runtime, pc: Brief, c: Choice): Pc {
    match pc
    case CleanCheck => Briefly(if r.running then CleanRelease else CleanClear)
    case CleanClear => Briefly(CleanRelease)
    case CleanRelease => DONE
    case ClearNow(repair) => Briefly(ClearRelease(repair))
    case ClearRelease(repair) =>
      if !repair then Outside(SwitchEntry(false))
      else if !c.ok then DONE
      else Waiting(ToRun(if c.other then UserRestart else UserStart))
    case ReconCheck => Briefly(if !r.running || !c.ok then ReconRelease else ReconClear)
    case ReconClear => Briefly(if c.other then ReconRelease else ReconInstall)
    case ReconInstall => Briefly(ReconRelease)
    case ReconRelease => DONE
  }

  /** The next step of stopCore or startCore; not for the release. */
  function WorkNext(r: Runtime, job: Job, at: At, c: Choice): At {
    match at
    case StopFields => StopClose(r.core)
    case StopClose(_) => StopClear
    case StopClear => if job == UserStop || job == SwitchStop then Release(false) else StartEnter
    case StartEnter =>
      if AlreadyRunning(r) then Release(!r.degraded) else if r.running then StartClean else Claimed(r)
    case StartClean => if r.running then StartClaim else StartCleanClear
    case StartCleanClear => StartClaim
    case StartClaim => Claimed(r)
    case StartPrep => if c.ok then StartLaunch else if c.other then StartStatus else StartExit(false)
    case StartLaunch => if c.ok then StartCommit(r.nextId) else StartExit(false)
    case StartCommit(_) => if c.tunOn then StartRoute(false) else StartStatus
    case StartRoute(again) =>
      if c.hijack then Routed(again, c.ok) else if c.other then Routed(again, false) else StartInstall(again)
    case StartInstall(again) => Routed(again, c.ok)
    case StartDegrade(_) => StartStatus
    case StartStatus => if CoreIsDead(r) then StartStatusClean else StartReport
    case StartStatusClean => if r.running then StartReport else StartStatusClear
    case StartStatusClear => StartReport
    case StartReport => StartExit(r.running && !r.degraded)
    case StartExit(ready) => Release(ready)
    case Release(ready) => Release(ready)
  }

  /** The end of the first critical section of startCore. */
  function Claimed(r: Runtime): At {
    if r.starting then Release(r.running && !r.degraded) else StartPrep
  }

  function Routed(again: bool, ok: bool): At {
    if again then StartDegrade(!ok) else if ok then StartStatus else StartRoute(true)
  }

  /** Where a thread goes after giving `coreOpMu` back. */
  function AfterRelease(job: Job, ready: bool): Pc {
    if job.Auto? then Outside(AutoResult(ready))
    else if job == SwitchRestart || job == SwitchStop then Outside(SwitchRelease)
    else DONE
  }

  function NextPc(r: Runtime, pc: Pc, c: Choice): Pc {
    match pc
    case Outside(free) => FreeNext(r, free, c)
    case Waiting(want) => WantNext(want)
    case Briefly(brief) => BriefNext(r, brief, c)
    case Working(job, at) => if at.Release? then AfterRelease(job, at.ready) else Working(job, WorkNext(r, job, at, c))
  }

  /** The bookkeeping of a restart that was scheduled. */
  function Counted(r: Runtime, scheduled: bool): Runtime {
    if scheduled then r.(watchdog := r.watchdog.(attempts := r.watchdog.attempts + 1, scheduled := true)) else r
  }

  /** What a step without `coreOpMu` does to the fields. */
  function FreeEffect(r: Runtime, pc: Free, c: Choice): Runtime {
    match pc
    case StatusEntry => CheckExit(r)
    case WatchEntry => Counted(CheckExit(r), WatchWantsRestart(r) && Schedules(CheckExit(r), c))
    case AutoEntry(w) =>
      if !r.watchdog.scheduled then r
      else if r.running && !w then r.(watchdog := r.watchdog.(scheduled := false))
      else r.(watchdog := r.watchdog.(scheduled := false, restarting := true))
    case AutoResult(ready) =>
      var r1 := r.(watchdog := r.watchdog.(restarting := false));
      if ready then r1.(watchdog := r1.watchdog.(attempts := 0))
      else Counted(r1, ResultWantsRestart(r, ready) && Schedules(r, c))
    case _ => r
  }

  /** The managed policy rules after a command. A failing installation may leave some of
      them behind. The set-up of policy routing may give up before its clearing, when the
      device does not come up or the main table cannot be read: `other` at StartRoute and
      at ReconClear. */
  predicate BriefRules(rules: bool, pc: Brief, c: Choice) {
    match pc
    case CleanClear => false
    case ClearNow(_) => false
    case ReconClear => rules && c.other
    case ReconInstall => rules || c.ok || c.partial
    case _ => rules
  }

  predicate WorkRules(rules: bool, at: At, c: Choice) {
    match at
    case StopClear => false
    case StartCleanClear => false
    case StartPrep => rules && !c.tunOn
    case StartRoute(_) => rules && (c.hijack || c.other)
    case StartInstall(_) => rules || c.ok || c.partial
    case StartStatusClear => false
    case _ => rules
  }

  /** What a step of stopCore or startCore does to the fields and the instances. */
  function WorkEffect(r: Runtime, job: Job, at: At, c: Choice): Runtime {
    match at
    case StopFields => StopSection(r, !job.Auto?)
    case StopClose(inst) => if inst.Some? then r.(alive := r.alive - {inst.value}) else r
    case StartEnter => if AlreadyRunning(r) then r else if r.running then CheckExit(r) else r.(starting := true)
    case StartClaim => r.(starting := true)
    case StartLaunch => if c.ok then r.(alive := r.alive + {r.nextId}, nextId := r.nextId + 1) else r
    case StartCommit(id) => CommitSection(r, id)
    case StartDegrade(d) => r.(degraded := d)
    case StartStatus => CheckExit(r)
    case StartExit(_) => r.(starting := false)
    case _ => r.(rules := WorkRules(r.rules, at, c))
  }

  function NextRuntime(r: Runtime, pc: Pc, c: Choice): Runtime {
    match pc
    case Outside(free) => FreeEffect(r, free, c)
    case Waiting(_) => r
    case Briefly(brief) => r.(rules := BriefRules(r.rules, brief, c))
    case Working(job, at) => WorkEffect(r, job, at, c)
  }

  /** A restart that the step launches in a thread of its own. */
  function Spawned(r: Runtime, pc: Pc, c: Choice): seq<Pc> {
    match pc
    case Outside(WatchEntry) =>
      if WatchWantsRestart(r) && Schedules(CheckExit(r), c) then [Outside(AutoEntry(!WatchExited(r)))] else []
    case Outside(AutoResult(ready)) =>
      if ResultWantsRestart(r, ready) && Schedules(r, c) then [Outside(AutoEntry(false))] else []
    case _ => []
  }

  predicate ReleasesCore(pc: Pc) {
    match pc
    case Briefly(brief) => brief.CleanRelease? || brief.ClearRelease? || brief.ReconRelease?
    case Working(_, at) => at.Release?
    case _ => false
  }

  function NextCoreOp(coreOp: Option<nat>, pc: Pc, t: nat): Option<nat> {
    if pc.Waiting? then Some(t) else if ReleasesCore(pc) then None else coreOp
  }

  function NextSwitch(switchMu: Option<nat>, pc: Pc, t: nat): Option<nat> {
    if pc.Outside? && pc.free.WantSwitch? then Some(t)
    else if pc == Outside(SwitchRelease) then None
    else switchMu
  }

  predicate Enabled(s: State, t: nat) {
    && t < |s.threads|
    && s.threads[t] != DONE
    && (s.threads[t].Waiting? ==> s.coreOp == None)
    && (s.threads[t].Outside? && s.threads[t].free.WantSwitch? ==> s.switchMu == None)
  }

  function Step(s: State, t: nat, c: Choice): State
    requires Enabled(s, t)
  {
    var pc := s.threads[t];
    State(s.threads[t := NextPc(s.rt, pc, c)] + Spawned(s.rt, pc, c),
          NextCoreOp(s.coreOp, pc, t),
          NextSwitch(s.switchMu, pc, t),
          NextRuntime(s.rt, pc, c))
  }

  /** Operations that the API, the watchdog ticker and the reconcile ticker begin. */
  predicate IsEntry(pc: Pc) {
    match pc
    case Outside(free) =>
      || free.StatusEntry? || free.WatchEntry? || free.ReconEntry?
      || free.SwitchEntry? || free.ConfigEntry? || free.RepairEntry?
    case Waiting(want) => want in {ToRun(UserStart), ToRun(UserStop), ToRun(UserRestart)}
    case _ => false
  }

  /** One step of the whole system: a thread moves, a core dies on its own, or a
      new operation begins. */
  ghost predicate Next(s: State, s': State) {
    || (exists t, c :: Enabled(s, t) && s' == Step(s, t, c))
    || (exists id :: s' == s.(rt := s.rt.(alive := s.rt.alive - {id})))
    || (exists pc :: IsEntry(pc) && s' == s.(threads := s.threads + [pc]))
  }

  ghost predicate IsRun(run: seq<State>) {
    && run != [] && run[0] == Boot(run[0].rt.rules)
    && forall i, j :: 0 <= i < j < |run| && j == i + 1 ==> Next(run[i], run[j])
  }

  // ---- invariants ---------------------------------------------------------------

  predicate HoldsCore(pc: Pc) { pc.Briefly? || pc.Working? }

  predicate SwitchJob(job: Job) { job == SwitchRestart || job == SwitchStop }

  predicate HoldsSwitch(pc: Pc) {
    match pc
    case Outside(free) => free.SwitchCheck? || free.SwitchRelease?
    case Waiting(want) => want.ToRun? && SwitchJob(want.job)
    case Briefly(_) => false
    case Working(job, _) => SwitchJob(job)
  }

  ghost predicate CoreLock(s: State) {
    && (forall t :: 0 <= t < |s.threads| ==> (HoldsCore(s.threads[t]) <==> s.coreOp == Some(t)))
    && (s.coreOp.Some? ==> s.coreOp.value < |s.threads|)
  }

  ghost predicate SwitchLock(s: State) {
    && (forall t :: 0 <= t < |s.threads| ==> (HoldsSwitch(s.threads[t]) <==> s.switchMu == Some(t)))
    && (s.switchMu.Some? ==> s.switchMu.value < |s.threads|)
  }

  ghost predicate Locks(s: State) { CoreLock(s) && SwitchLock(s) }

  /** A thread that will still clear the routing, or find a newer core running. */
  predicate Owes(pc: Pc) {
    match pc
    case Outside(_) => false
    case Waiting(want) => want.ToClean?
    case Briefly(brief) => brief.CleanCheck? || brief.CleanClear?
    case Working(_, at) =>
      || at.StopClose? || at.StopClear? || at.StartClean? || at.StartCleanClear?
      || at.StartStatusClean? || at.StartStatusClear?
  }

  predicate MayInstall(pc: Pc) {
    match pc
    case Briefly(brief) => brief.ReconClear? || brief.ReconInstall?
    case Working(_, at) => at.StartRoute? || at.StartInstall?
    case _ => false
  }

  ghost predicate SomeoneOwes(s: State) { exists t :: 0 <= t < |s.threads| && Owes(s.threads[t]) }

  /** Nobody installs rules without a running core or a cleanup that is still owed. */
  ghost predicate InstallsCovered(s: State) {
    forall t :: 0 <= t < |s.threads| && MayInstall(s.threads[t]) ==> s.rt.running || SomeoneOwes(s)
  }

  /** Managed rules in the kernel belong to a running core or to such a cleanup. */
  ghost predicate RulesCovered(s: State) { s.rt.rules ==> s.rt.running || SomeoneOwes(s) }

  /** The runtime fields move together, and each tracker is started once and
      closed at most once. */
  ghost predicate Together(r: Runtime) {
    && (r.running <==> r.core.Some?)
    && (r.running <==> r.trackers.current.Some?)
    && TrackersSound(r.trackers, r.nextId)
  }

  ghost predicate TrackersSound(tr: Trackers, nextId: nat) {
    && (tr.current.Some? ==> tr.current.value in tr.started && tr.current.value !in tr.closed)
    && tr.closed <= tr.started
    && (forall i :: i in tr.started ==> i < nextId)
    && !tr.faulted
  }

  /** Where the holder of coreOpMu knows that no core is running. */
  predicate NoCoreAt(pc: Pc) {
    match pc
    case Working(_, at) =>
      || at.StopClose? || at.StopClear? || at.StartClean? || at.StartCleanClear? || at.StartClaim?
      || at.StartPrep? || at.StartLaunch? || at.StartCommit? || at.StartStatusClear?
    case Briefly(brief) => brief.CleanClear?
    case _ => false
  }

  /** Where startCore holds the start slot. */
  predicate InStart(pc: Pc) {
    match pc
    case Working(_, at) =>
      || at.StartPrep? || at.StartLaunch? || at.StartCommit? || at.StartRoute? || at.StartInstall? || at.StartDegrade?
      || at.StartStatus? || at.StartStatusClean? || at.StartStatusClear? || at.StartReport? || at.StartExit?
    case _ => false
  }

  ghost predicate Starting(s: State) {
    && (forall t :: 0 <= t < |s.threads| && NoCoreAt(s.threads[t]) ==> !s.rt.running)
    && (forall t :: 0 <= t < |s.threads| && HoldsCore(s.threads[t]) ==> (s.rt.starting <==> InStart(s.threads[t])))
    && (s.rt.starting ==> s.coreOp.Some?)
  }

  /** The instances that a program counter, rather than the service, holds. */
  function HeldAt(pc: Pc): set<nat> {
    match pc
    case Working(_, StartCommit(id)) => {id}
    case Working(_, StopClose(Some(id))) => {id}
    case _ => {}
  }

  function HeldByCore(r: Runtime): set<nat> { if r.core.Some? then {r.core.value} else {} }

  function HeldByHolder(s: State): set<nat> {
    if s.coreOp.Some? && s.coreOp.value < |s.threads| then HeldAt(s.threads[s.coreOp.value]) else {}
  }

  /** Every live instance is the service's core or in the hands of the thread that
      holds coreOpMu. */
  ghost predicate Instances(s: State) {
    && (forall i :: i in s.rt.alive ==> i < s.rt.nextId)
    && s.rt.alive <= HeldByCore(s.rt) + HeldByHolder(s)
  }

  ghost predicate Inv(s: State) {
    Locks(s) && Together(s.rt) && Starting(s) && Instances(s) && InstallsCovered(s)
  }
}
