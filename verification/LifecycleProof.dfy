/** What holds in every run of the lifecycle machine. */
module LifecycleProof {
  import opened Options
  import opened Lifecycle

  // ---- locks ----------------------------------------------------------------------

  lemma PcMovesLocks(r: Runtime, pc: Pc, c: Choice)
    requires pc != DONE
    ensures var pc' := NextPc(r, pc, c);
            && (HoldsCore(pc') <==> pc.Waiting? || (HoldsCore(pc) && !ReleasesCore(pc)))
            && (HoldsSwitch(pc') <==>
                  (pc.Outside? && pc.free.WantSwitch?) || (HoldsSwitch(pc) && pc != Outside(SwitchRelease)))
  {
  }

  lemma SpawnedAreEntries(r: Runtime, pc: Pc, c: Choice)
    ensures forall x :: x in Spawned(r, pc, c) ==> x.Outside? && x.free.AutoEntry?
  {
  }

  /** Only thread t moves; new threads are delayed restarts. */
  lemma StepThreads(s: State, t: nat, c: Choice)
    requires Enabled(s, t)
    ensures var s' := Step(s, t, c);
            && |s.threads| <= |s'.threads|
            && s'.threads[t] == NextPc(s.rt, s.threads[t], c)
            && (forall u :: 0 <= u < |s.threads| && u != t ==> s'.threads[u] == s.threads[u])
            && (forall u :: |s.threads| <= u < |s'.threads| ==> s'.threads[u].Outside? && s'.threads[u].free.AutoEntry?)
  {
    SpawnedAreEntries(s.rt, s.threads[t], c);
    var new' := Spawned(s.rt, s.threads[t], c);
    assert forall i :: 0 <= i < |new'| ==> new'[i] in new';
  }

  lemma StepKeepsCoreLock(s: State, t: nat, c: Choice)
    requires CoreLock(s) && Enabled(s, t)
    ensures CoreLock(Step(s, t, c))
  {
    StepThreads(s, t, c);
    PcMovesLocks(s.rt, s.threads[t], c);
  }

  lemma StepKeepsSwitchLock(s: State, t: nat, c: Choice)
    requires SwitchLock(s) && Enabled(s, t)
    ensures SwitchLock(Step(s, t, c))
  {
    StepThreads(s, t, c);
    PcMovesLocks(s.rt, s.threads[t], c);
  }

  lemma StepKeepsLocks(s: State, t: nat, c: Choice)
    requires Locks(s) && Enabled(s, t)
    ensures Locks(Step(s, t, c))
  {
    StepKeepsCoreLock(s, t, c);
    StepKeepsSwitchLock(s, t, c);
  }

  // ---- fields ----------------------------------------------------------------------

  lemma SectionsKeepTogether(r: Runtime, reset: bool, id: nat)
    requires Together(r)
    ensures Together(CheckExit(r)) && Together(StopSection(r, reset))
    ensures !r.running ==> Together(CommitSection(r, id))
  {
  }

  /** checkProcExitedLocked clears `running` exactly when the core was dead. */
  lemma CheckExitRunning(r: Runtime)
    requires Together(r)
    ensures CheckExit(r).running <==> r.running && !CoreIsDead(r)
    ensures CheckExit(r).starting == r.starting && CheckExit(r).rules == r.rules
    ensures CheckExit(r).alive == r.alive && CheckExit(r).nextId == r.nextId
    ensures CheckExit(r).core == if CoreIsDead(r) then None else r.core
  {
  }

  /** A step without coreOpMu touches the core only through the exit check. */
  ghost predicate SameCore(r: Runtime, r': Runtime) {
    r' == r.(watchdog := r'.watchdog)
  }

  lemma FreeEffectOnCore(r: Runtime, free: Free, c: Choice)
    ensures SameCore(if free.StatusEntry? || free.WatchEntry? then CheckExit(r) else r, FreeEffect(r, free, c))
  {
  }

  lemma FreeMovesStart(r: Runtime, free: Free, c: Choice)
    requires Together(r)
    ensures var (r', pc') := (FreeEffect(r, free, c), FreeNext(r, free, c));
            && Together(r')
            && (r'.running ==> r.running) && r'.starting == r.starting && r'.rules == r.rules
            && r'.alive == r.alive && r'.nextId == r.nextId
            && (r.running && !r'.running ==> pc' == Waiting(ToClean)) && !HoldsCore(pc')
            && HeldByCore(r) * r.alive <= HeldByCore(r')
  {
    FreeEffectOnCore(r, free, c);
    CheckExitRunning(r);
    SectionsKeepTogether(r, true, 0);
  }

  /** The steps of stopCore and startCore that change the core's fields. */
  predicate ChangesCore(at: At) { at.StopFields? || at.StartEnter? || at.StartCommit? || at.StartStatus? }

  /** The others leave them alone. */
  lemma WorkEffectOnCore(r: Runtime, job: Job, at: At, c: Choice)
    requires !ChangesCore(at)
    ensures var r' := WorkEffect(r, job, at, c);
            r'.running == r.running && r'.core == r.core && r'.trackers == r.trackers && r'.nextId >= r.nextId
  {
  }

  lemma WorkKeepsTogether(r: Runtime, job: Job, at: At, c: Choice)
    requires Together(r) && (NoCoreAt(Working(job, at)) ==> !r.running)
    ensures Together(WorkEffect(r, job, at, c))
  {
    if ChangesCore(at) {
      SectionsKeepTogether(r, !job.Auto?, if at.StartCommit? then at.id else 0);
    } else {
      WorkEffectOnCore(r, job, at, c);
    }
  }

  lemma StepKeepsTogether(r: Runtime, pc: Pc, c: Choice)
    requires Together(r) && (NoCoreAt(pc) ==> !r.running)
    ensures Together(NextRuntime(r, pc, c))
  {
    match pc
    case Outside(free) => FreeMovesStart(r, free, c);
    case Waiting(_) =>
    case Briefly(_) =>
    case Working(job, at) => WorkKeepsTogether(r, job, at, c);
  }

  lemma CoreStepMovesStart(r: Runtime, job: Job, at: At, c: Choice)
    requires ChangesCore(at)
    requires Together(r) && (NoCoreAt(Working(job, at)) ==> !r.running) && (r.starting <==> InStart(Working(job, at)))
    ensures var (r', pc') := (WorkEffect(r, job, at, c), Working(job, WorkNext(r, job, at, c)));
            && (r'.running && !r.running ==> at.StartCommit?)
            && (!at.Release? ==> (NoCoreAt(pc') ==> !r'.running) && (r'.starting <==> InStart(pc')))
            && (at.Release? ==> r' == r)
  {
    CheckExitRunning(r);
  }

  lemma OtherStepMovesStart(r: Runtime, job: Job, at: At, c: Choice)
    requires !ChangesCore(at)
    requires Together(r) && (NoCoreAt(Working(job, at)) ==> !r.running) && (r.starting <==> InStart(Working(job, at)))
    ensures var (r', pc') := (WorkEffect(r, job, at, c), Working(job, WorkNext(r, job, at, c)));
            && (r'.running && !r.running ==> at.StartCommit?)
            && (!at.Release? ==> (NoCoreAt(pc') ==> !r'.running) && (r'.starting <==> InStart(pc')))
            && (at.Release? ==> r' == r)
  {
    WorkEffectOnCore(r, job, at, c);
  }

  lemma WorkMovesStart(r: Runtime, job: Job, at: At, c: Choice)
    requires Together(r) && (NoCoreAt(Working(job, at)) ==> !r.running) && (r.starting <==> InStart(Working(job, at)))
    ensures var (r', pc') := (WorkEffect(r, job, at, c), Working(job, WorkNext(r, job, at, c)));
            && (r'.running && !r.running ==> at.StartCommit?)
            && (!at.Release? ==> (NoCoreAt(pc') ==> !r'.running) && (r'.starting <==> InStart(pc')))
            && (at.Release? ==> r' == r)
  {
    if ChangesCore(at) { CoreStepMovesStart(r, job, at, c); } else { OtherStepMovesStart(r, job, at, c); }
  }

  lemma StepMovesStart(r: Runtime, pc: Pc, c: Choice)
    requires Together(r) && pc != DONE && (NoCoreAt(pc) ==> !r.running)
             && (HoldsCore(pc) ==> (r.starting <==> InStart(pc)))
    ensures var (r', pc') := (NextRuntime(r, pc, c), NextPc(r, pc, c));
            && (r'.running && !r.running ==> pc.Working? && pc.at.StartCommit?)
            && (NoCoreAt(pc') ==> !r'.running)
            && (HoldsCore(pc) ==> (r'.starting <==> InStart(pc')))
            && (!HoldsCore(pc) ==> r'.starting == r.starting && !InStart(pc'))
            && (InStart(pc') ==> HoldsCore(pc) && !ReleasesCore(pc))
  {
    match pc
    case Outside(free) => FreeMovesStart(r, free, c);
    case Waiting(_) =>
    case Briefly(_) =>
    case Working(job, at) => WorkMovesStart(r, job, at, c);
  }

  lemma StepKeepsStarting(s: State, t: nat, c: Choice)
    requires Locks(s) && Together(s.rt) && Starting(s) && Enabled(s, t)
    ensures Starting(Step(s, t, c))
  {
    StepThreads(s, t, c);
    StepMovesStart(s.rt, s.threads[t], c);
    PcMovesLocks(s.rt, s.threads[t], c);
    assert forall pc: Pc :: NoCoreAt(pc) ==> HoldsCore(pc);
  }

  // ---- instances -------------------------------------------------------------------

  /** How a step may move instances between the service and a thread. */
  ghost predicate InstanceMove(r: Runtime, pc: Pc, r': Runtime, pc': Pc) {
    && (forall i :: i in r'.alive ==> i < r'.nextId)
    && r'.alive - r.alive <= HeldAt(pc')
    && HeldByCore(r) * r'.alive <= HeldByCore(r') + HeldAt(pc')
    && HeldAt(pc) * r'.alive <= HeldByCore(r')
  }

  lemma HeldUnderLock(pc: Pc)
    ensures HeldAt(pc) != {} ==> HoldsCore(pc)
  {
  }

  lemma CoreStepMovesInstances(r: Runtime, job: Job, at: At, c: Choice)
    requires ChangesCore(at)
    requires Together(r) && (NoCoreAt(Working(job, at)) ==> !r.running) && !at.Release?
    requires forall i :: i in r.alive ==> i < r.nextId
    ensures InstanceMove(r, Working(job, at), WorkEffect(r, job, at, c), Working(job, WorkNext(r, job, at, c)))
  {
    CheckExitRunning(r);
  }

  lemma OtherStepMovesInstances(r: Runtime, job: Job, at: At, c: Choice)
    requires !ChangesCore(at)
    requires Together(r) && (NoCoreAt(Working(job, at)) ==> !r.running) && !at.Release?
    requires forall i :: i in r.alive ==> i < r.nextId
    ensures InstanceMove(r, Working(job, at), WorkEffect(r, job, at, c), Working(job, WorkNext(r, job, at, c)))
  {
    WorkEffectOnCore(r, job, at, c);
  }

  lemma WorkMovesInstances(r: Runtime, job: Job, at: At, c: Choice)
    requires Together(r) && (NoCoreAt(Working(job, at)) ==> !r.running) && !at.Release?
    requires forall i :: i in r.alive ==> i < r.nextId
    ensures InstanceMove(r, Working(job, at), WorkEffect(r, job, at, c), Working(job, WorkNext(r, job, at, c)))
  {
    if ChangesCore(at) { CoreStepMovesInstances(r, job, at, c); } else { OtherStepMovesInstances(r, job, at, c); }
  }

  lemma StepMovesInstances(r: Runtime, pc: Pc, c: Choice)
    requires Together(r) && pc != DONE && (NoCoreAt(pc) ==> !r.running)
    requires forall i :: i in r.alive ==> i < r.nextId
    ensures InstanceMove(r, pc, NextRuntime(r, pc, c), NextPc(r, pc, c))
  {
    match pc
    case Outside(free) => FreeMovesStart(r, free, c);
    case Waiting(_) =>
    case Briefly(_) =>
    case Working(job, at) =>
      if !at.Release? { WorkMovesInstances(r, job, at, c); }
  }

  lemma StepKeepsInstances(s: State, t: nat, c: Choice)
    requires Locks(s) && Together(s.rt) && Starting(s) && Instances(s) && Enabled(s, t)
    ensures Instances(Step(s, t, c))
  {
    StepThreads(s, t, c);
    PcMovesLocks(s.rt, s.threads[t], c);
    StepMovesInstances(s.rt, s.threads[t], c);
    HeldUnderLock(s.threads[t]);
    HeldUnderLock(NextPc(s.rt, s.threads[t], c));
  }

  // ---- rules -----------------------------------------------------------------------

  /** How a step may change the rules, and who owes a cleanup. */
  predicate CoverMove(r: Runtime, pc: Pc, r': Runtime, pc': Pc) {
    && (r'.rules && !r.rules ==> MayInstall(pc))
    && (r.running && !r'.running ==> Owes(pc'))
    && (Owes(pc) && !Owes(pc') ==> HoldsCore(pc) && (r'.running || !r'.rules))
    && (MayInstall(pc') ==> HoldsCore(pc) && (MayInstall(pc) || r'.running))
  }

  lemma CoreStepMovesCover(r: Runtime, job: Job, at: At, c: Choice)
    requires ChangesCore(at)
    requires Together(r) && (NoCoreAt(Working(job, at)) ==> !r.running) && !at.Release?
    ensures CoverMove(r, Working(job, at), WorkEffect(r, job, at, c), Working(job, WorkNext(r, job, at, c)))
  {
    CheckExitRunning(r);
  }

  lemma OtherStepMovesCover(r: Runtime, job: Job, at: At, c: Choice)
    requires !ChangesCore(at)
    requires Together(r) && (NoCoreAt(Working(job, at)) ==> !r.running) && !at.Release?
    ensures CoverMove(r, Working(job, at), WorkEffect(r, job, at, c), Working(job, WorkNext(r, job, at, c)))
  {
    WorkEffectOnCore(r, job, at, c);
  }

  lemma WorkMovesCover(r: Runtime, job: Job, at: At, c: Choice)
    requires Together(r) && (NoCoreAt(Working(job, at)) ==> !r.running) && !at.Release?
    ensures CoverMove(r, Working(job, at), WorkEffect(r, job, at, c), Working(job, WorkNext(r, job, at, c)))
  {
    if ChangesCore(at) { CoreStepMovesCover(r, job, at, c); } else { OtherStepMovesCover(r, job, at, c); }
  }

  lemma StepMovesCover(r: Runtime, pc: Pc, c: Choice)
    requires Together(r) && pc != DONE && (NoCoreAt(pc) ==> !r.running)
    ensures CoverMove(r, pc, NextRuntime(r, pc, c), NextPc(r, pc, c))
  {
    match pc
    case Outside(free) => FreeMovesStart(r, free, c);
    case Waiting(_) =>
    case Briefly(_) =>
    case Working(job, at) =>
      if !at.Release? { WorkMovesCover(r, job, at, c); }
  }

  lemma StepKeepsCover(s: State, t: nat, c: Choice)
    requires Inv(s) && Enabled(s, t)
    ensures InstallsCovered(Step(s, t, c)) && (RulesCovered(s) ==> RulesCovered(Step(s, t, c)))
  {
    StepThreads(s, t, c);
    StepMovesCover(s.rt, s.threads[t], c);
    var s' := Step(s, t, c);
    assert forall pc: Pc :: MayInstall(pc) ==> HoldsCore(pc);
    if SomeoneOwes(s) {
      var u :| 0 <= u < |s.threads| && Owes(s.threads[u]);
      assert u != t ==> Owes(s'.threads[u]);
    }
  }

  // ---- every run -------------------------------------------------------------------

  lemma StepKeepsInv(s: State, t: nat, c: Choice)
    requires Inv(s) && Enabled(s, t)
    ensures Inv(Step(s, t, c))
  {
    StepKeepsLocks(s, t, c);
    StepKeepsTogether(s.rt, s.threads[t], c);
    StepKeepsStarting(s, t, c);
    StepKeepsInstances(s, t, c);
    StepKeepsCover(s, t, c);
  }

  lemma NewThreadKeepsInv(s: State, pc: Pc)
    requires Inv(s) && IsEntry(pc)
    ensures var s' := s.(threads := s.threads + [pc]); Inv(s') && (RulesCovered(s) ==> RulesCovered(s'))
  {
    var s' := s.(threads := s.threads + [pc]);
    assert !HoldsCore(pc) && !HoldsSwitch(pc);
    assert forall u :: 0 <= u < |s.threads| ==> s'.threads[u] == s.threads[u];
    if SomeoneOwes(s) {
      var u :| 0 <= u < |s.threads| && Owes(s.threads[u]);
      assert Owes(s'.threads[u]);
    }
  }

  lemma DeathKeepsInv(s: State, id: nat)
    requires Inv(s)
    ensures var s' := s.(rt := s.rt.(alive := s.rt.alive - {id})); Inv(s') && (RulesCovered(s) ==> RulesCovered(s'))
  {
    var s' := s.(rt := s.rt.(alive := s.rt.alive - {id}));
    assert SomeoneOwes(s) ==> SomeoneOwes(s');
  }

  lemma NextKeepsInv(s: State, s': State)
    requires Inv(s) && Next(s, s')
    ensures Inv(s') && (RulesCovered(s) ==> RulesCovered(s'))
  {
    if t, c :| Enabled(s, t) && s' == Step(s, t, c) {
      StepKeepsInv(s, t, c);
      StepKeepsCover(s, t, c);
    } else if id :| s' == s.(rt := s.rt.(alive := s.rt.alive - {id})) {
      DeathKeepsInv(s, id);
    } else {
      var pc :| IsEntry(pc) && s' == s.(threads := s.threads + [pc]);
      NewThreadKeepsInv(s, pc);
    }
  }

  lemma {:induction false} InvOnRun(run: seq<State>, i: nat)
    requires IsRun(run) && i < |run|
    ensures Inv(run[i])
  {
    if i > 0 {
      InvOnRun(run, i - 1);
      NextKeepsInv(run[i - 1], run[i]);
    }
  }

  lemma CoverOnRun(run: seq<State>, i: nat)
    requires IsRun(run) && 0 < i < |run|
    ensures RulesCovered(run[i - 1]) ==> RulesCovered(run[i])
  {
    InvOnRun(run, i - 1);
    NextKeepsInv(run[i - 1], run[i]);
  }

  /** Over every run: rules that have once been gone are covered from then on. */
  lemma {:induction false} CoveredOrLeftOver(run: seq<State>, i: nat)
    requires IsRun(run) && i < |run|
    ensures RulesCovered(run[i]) || forall j :: 0 <= j <= i ==> run[j].rt.rules
  {
    if i > 0 {
      CoveredOrLeftOver(run, i - 1);
      CoverOnRun(run, i);
    }
  }

  /** Over every run: once nobody holds the lifecycle lock and nobody owes a cleanup,
      managed rules in the kernel belong to a running core, or they were there at boot
      and no step has cleared them since. */
  lemma NoOrphanedRules(run: seq<State>, i: nat)
    requires IsRun(run) && i < |run|
    requires run[i].coreOp == None && Waiting(ToClean) !in run[i].threads
    ensures run[i].rt.rules ==> run[i].rt.running || forall j :: 0 <= j <= i ==> run[j].rt.rules
  {
    InvOnRun(run, i);
    CoveredOrLeftOver(run, i);
    var s := run[i];
    assert forall u :: 0 <= u < |s.threads| ==> s.threads[u] in s.threads && !HoldsCore(s.threads[u]);
  }

  /** The exception is real: the rules of a killed process are there at boot, without a
      core and without anyone who owes a cleanup. */
  lemma RulesLeftAtBoot()
    ensures var run := [Boot(true)];
            IsRun(run) && run[0].coreOp == None && Waiting(ToClean) !in run[0].threads && run[0].rt.rules
              && !run[0].rt.running
  {
  }

  /** Over every run: at most one core instance is alive at any moment. */
  lemma AtMostOneCore(run: seq<State>, i: nat, a: nat, b: nat)
    requires IsRun(run) && i < |run| && a in run[i].rt.alive && b in run[i].rt.alive
    ensures a == b
  {
    InvOnRun(run, i);
    var s := run[i];
    if s.coreOp.Some? {
      var pc := s.threads[s.coreOp.value];
      assert HeldAt(pc) != {} ==> NoCoreAt(pc);
    }
  }

  /** Over every run: `running`, the core and the stats tracker come and go
      together, and no tracker is started or closed twice. */
  lemma FieldsMoveTogether(run: seq<State>, i: nat)
    requires IsRun(run) && i < |run|
    ensures var r := run[i].rt;
            && (r.running <==> r.core.Some?) && (r.running <==> r.trackers.current.Some?)
            && !r.trackers.faulted && r.trackers.closed <= r.trackers.started
  {
    InvOnRun(run, i);
  }

  /** Over every run: a cleanup after an exit never clears the rules of a core that
      was started in the meantime, and a start is committed only when no other core
      is running. */
  lemma CleanupSparesNewCore(run: seq<State>, i: nat, t: nat)
    requires IsRun(run) && i < |run| && t < |run[i].threads|
    ensures var pc := run[i].threads[t];
            || pc == Briefly(CleanClear)
            || (pc.Working? && (pc.at.StartCleanClear? || pc.at.StartStatusClear? || pc.at.StartCommit?))
            ==> !run[i].rt.running
  {
    InvOnRun(run, i);
  }

  /** Over every run: under the lifecycle lock the start slot is always free where
      startCore tests it, so its early return for a concurrent start is never taken. */
  lemma StartSlotIsFree(run: seq<State>, i: nat, t: nat)
    requires IsRun(run) && i < |run| && t < |run[i].threads|
    requires var pc := run[i].threads[t]; pc.Working? && (pc.at.StartEnter? || pc.at.StartClaim?)
    ensures !run[i].rt.starting
  {
    InvOnRun(run, i);
  }

  // ---- progress --------------------------------------------------------------------

  ghost predicate SomeoneCanStep(s: State) { exists t :: 0 <= t < |s.threads| && Enabled(s, t) }

  /** Over every run: while an operation is unfinished, some thread can step. */
  lemma DeadlockFree(run: seq<State>, i: nat, t: nat)
    requires IsRun(run) && i < |run| && t < |run[i].threads| && run[i].threads[t] != DONE
    ensures SomeoneCanStep(run[i])
  {
    InvOnRun(run, i);
    var s := run[i];
    if s.coreOp.Some? {
      assert HoldsCore(s.threads[s.coreOp.value]);
      assert Enabled(s, s.coreOp.value);
    } else if s.switchMu.Some? {
      assert HoldsSwitch(s.threads[s.switchMu.value]);
      assert Enabled(s, s.switchMu.value);
    } else {
      assert Enabled(s, t);
    }
  }

  function BriefRank(pc: Brief): nat {
    match pc
    case CleanCheck => 3
    case CleanClear => 2
    case CleanRelease => 1
    case ClearNow(_) => 28
    case ClearRelease(_) => 27
    case ReconCheck => 4
    case ReconClear => 3
    case ReconInstall => 2
    case ReconRelease => 1
  }

  function WorkRank(at: At): nat {
    match at
    case StopFields => 22
    case StopClose(_) => 21
    case StopClear => 20
    case StartEnter => 19
    case StartClean => 18
    case StartCleanClear => 17
    case StartClaim => 16
    case StartPrep => 15
    case StartLaunch => 14
    case StartCommit(_) => 13
    case StartRoute(again) => if again then 10 else 12
    case StartInstall(again) => if again then 9 else 11
    case StartDegrade(_) => 8
    case StartStatus => 7
    case StartStatusClean => 6
    case StartStatusClear => 5
    case StartReport => 4
    case StartExit(_) => 3
    case Release(_) => 2
  }

  function FreeRank(pc: Free): nat {
    match pc
    case StatusEntry => 5
    case WatchEntry => 5
    case ReconEntry => 6
    case AutoEntry(_) => 24
    case AutoResult(_) => 1
    case SwitchEntry(_) => 26
    case ConfigEntry(_) => 30
    case RepairEntry => 30
    case WantSwitch(_) => 25
    case SwitchCheck(_) => 24
    case SwitchRelease => 1
    case Finished => 0
  }

  /** How many own steps a thread has left at most. */
  function Rank(pc: Pc): nat {
    match pc
    case Outside(free) => FreeRank(free)
    case Waiting(ToClean) => 4
    case Waiting(ToRun(_)) => 23
    case Waiting(ToClear(_)) => 29
    case Waiting(ToRecon) => 5
    case Briefly(brief) => BriefRank(brief)
    case Working(_, at) => WorkRank(at)
  }

  /** Every step of a thread brings it closer to its end: an operation takes at
      most thirty steps of its own, and so nobody keeps a lock for longer. */
  lemma StepsAreBounded(r: Runtime, pc: Pc, c: Choice)
    requires pc != DONE
    ensures Rank(NextPc(r, pc, c)) < Rank(pc) <= 30
  {
    match pc
    case Outside(free) => FreeStepIsBounded(r, free, c);
    case Waiting(want) =>
    case Briefly(brief) => BriefStepIsBounded(r, brief, c);
    case Working(job, at) => if !at.Release? { WorkStepIsBounded(r, job, at, c); }
  }

  lemma FreeStepIsBounded(r: Runtime, free: Free, c: Choice)
    requires free != Finished
    ensures Rank(FreeNext(r, free, c)) < FreeRank(free)
  {
  }

  lemma BriefStepIsBounded(r: Runtime, brief: Brief, c: Choice)
    ensures Rank(BriefNext(r, brief, c)) < BriefRank(brief)
  {
  }

  lemma WorkStepIsBounded(r: Runtime, job: Job, at: At, c: Choice)
    requires !at.Release?
    ensures WorkRank(WorkNext(r, job, at, c)) < WorkRank(at)
  {
  }
}
