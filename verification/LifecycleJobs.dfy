/** What each kind of job does under the lifecycle lock, over every run: a stop stops and
    no more, a restart starts again, a start leaves a running core alone, and a job is
    reported ready only if the core was seen so. */
module LifecycleJobs {
  import opened Options
  import opened Lifecycle
  import opened LifecycleProof

  predicate IsStop(job: Job) { job == UserStop || job == SwitchStop }

  /** The jobs that stop a core and start one. */
  predicate IsRestart(job: Job) { job == UserRestart || job == SwitchRestart || job == Auto(true) }

  /** The jobs that only start. */
  predicate IsStart(job: Job) { job == UserStart || job == Auto(false) }

  predicate InStop(at: At) { at.StopFields? || at.StopClose? || at.StopClear? }

  // ---- one step of a run -----------------------------------------------------------

  /** In a step of the system a thread stands still or makes its own step. */
  lemma ThreadMoves(s: State, s': State, t: nat) returns (moved: bool, c: Choice)
    requires Next(s, s') && t < |s.threads|
    ensures t < |s'.threads|
    ensures !moved ==> s'.threads[t] == s.threads[t]
    ensures moved ==> Enabled(s, t) && s' == Step(s, t, c) && s'.threads[t] == NextPc(s.rt, s.threads[t], c)
  {
    c := Choice(false, false, false, false, false, false, 0);
    moved := false;
    if u, d :| Enabled(s, u) && s' == Step(s, u, d) {
      StepThreads(s, u, d);
      if u == t { moved, c := true, d; }
    }
  }

  // ---- a stop stops -------------------------------------------------------------------

  /** Where a job may stand, and what a stop that is over has left. */
  predicate JobStands(r: Runtime, pc: Pc) {
    pc.Working? ==>
      && (IsStop(pc.job) ==> InStop(pc.at) || pc.at == Release(false))
      && (IsStop(pc.job) && pc.at.Release? ==> !r.running && !r.rules)
      && (IsStart(pc.job) ==> !InStop(pc.at))
  }

  ghost predicate JobsStand(s: State) {
    forall t :: 0 <= t < |s.threads| ==> JobStands(s.rt, s.threads[t])
  }

  lemma WorkStands(r: Runtime, job: Job, at: At, c: Choice)
    requires !at.Release? && JobStands(r, Working(job, at)) && (at.StopClear? ==> !r.running)
    ensures JobStands(WorkEffect(r, job, at, c), Working(job, WorkNext(r, job, at, c)))
  {
  }

  lemma OwnStepStands(r: Runtime, pc: Pc, c: Choice)
    requires pc != DONE && JobStands(r, pc) && (NoCoreAt(pc) ==> !r.running)
    ensures JobStands(NextRuntime(r, pc, c), NextPc(r, pc, c))
  {
    match pc
    case Outside(_) =>
    case Waiting(_) =>
    case Briefly(_) =>
    case Working(job, at) => if !at.Release? { WorkStands(r, job, at, c); }
  }

  /** While one thread holds the lifecycle lock, the steps of the others neither install
      rules nor start a core. */
  lemma OtherStepStands(s: State, t: nat, u: nat, c: Choice)
    requires Inv(s) && Enabled(s, u) && t < |s.threads| && t != u && JobStands(s.rt, s.threads[t])
    ensures JobStands(Step(s, u, c).rt, s.threads[t])
  {
    if s.threads[t].Working? {
      assert HoldsCore(s.threads[t]) && !HoldsCore(s.threads[u]);
      if s.threads[u].Outside? { FreeMovesStart(s.rt, s.threads[u].free, c); }
    }
  }

  lemma StepKeepsStands(s: State, u: nat, c: Choice)
    requires Inv(s) && JobsStand(s) && Enabled(s, u)
    ensures JobsStand(Step(s, u, c))
  {
    var s' := Step(s, u, c);
    StepThreads(s, u, c);
    forall t | 0 <= t < |s'.threads| ensures JobStands(s'.rt, s'.threads[t]) {
      if t == u {
        OwnStepStands(s.rt, s.threads[u], c);
      } else if t < |s.threads| {
        OtherStepStands(s, t, u, c);
      }
    }
  }

  lemma NextKeepsStands(s: State, s': State)
    requires Inv(s) && JobsStand(s) && Next(s, s')
    ensures JobsStand(s')
  {
    if t, c :| Enabled(s, t) && s' == Step(s, t, c) {
      StepKeepsStands(s, t, c);
    } else if id :| s' == s.(rt := s.rt.(alive := s.rt.alive - {id})) {
    } else {
      var pc :| IsEntry(pc) && s' == s.(threads := s.threads + [pc]);
    }
  }

  lemma StandsNext(run: seq<State>, i: nat)
    requires IsRun(run) && 0 < i < |run| && JobsStand(run[i - 1])
    ensures JobsStand(run[i])
  {
    InvOnRun(run, i - 1);
    NextKeepsStands(run[i - 1], run[i]);
  }

  lemma {:induction false} StandsOnRun(run: seq<State>, i: nat)
    requires IsRun(run) && i < |run|
    ensures JobsStand(run[i])
  {
    if i == 0 {
      assert run[0].threads == [];
    } else {
      StandsOnRun(run, i - 1);
      StandsNext(run, i);
    }
  }

  /** Over every run: a stop goes through the steps of stopCore and then gives the lock
      back; when it does, no core is running, none is held or alive, no tracker is left,
      and there is no managed rule in the kernel. */
  lemma StopLeavesNothing(run: seq<State>, i: nat, t: nat)
    requires IsRun(run) && i < |run| && t < |run[i].threads|
    requires run[i].threads[t].Working? && run[i].threads[t].job in {UserStop, SwitchStop}
    ensures var (at, r) := (run[i].threads[t].at, run[i].rt);
            && (at.StopFields? || at.StopClose? || at.StopClear? || at == Release(false))
            && (at.Release? ==> !r.running && r.core == None && r.trackers.current == None && r.alive == {} && !r.rules)
  {
    StandsOnRun(run, i);
    InvOnRun(run, i);
    assert HoldsCore(run[i].threads[t]);
  }

  // ---- a restart starts again -----------------------------------------------------------

  /** Thread t is in the steps of stopCore, for that job. */
  predicate Stopping(s: State, t: nat, job: Job) {
    t < |s.threads| && s.threads[t].Working? && s.threads[t].job == job && InStop(s.threads[t].at)
  }

  predicate Entered(s: State, t: nat, job: Job) { t < |s.threads| && s.threads[t] == Working(job, StartEnter) }

  lemma RestartStep(r: Runtime, job: Job, at: At, c: Choice)
    requires IsRestart(job) && InStop(at)
    ensures var pc' := NextPc(r, Working(job, at), c);
            pc'.Working? && pc'.job == job && (InStop(pc'.at) || pc'.at == StartEnter)
  {
  }

  lemma StoppedOrEntered(run: seq<State>, i: nat, t: nat, job: Job)
    requires IsRun(run) && i + 1 < |run| && IsRestart(job) && Stopping(run[i], t, job)
    ensures Stopping(run[i + 1], t, job) || Entered(run[i + 1], t, job)
  {
    var moved, c := ThreadMoves(run[i], run[i + 1], t);
    RestartStep(run[i].rt, job, run[i].threads[t].at, c);
  }

  /** While a property lasts from each state to the next, or something happens, it lasts or
      that has happened. */
  ghost predicate LastsUnless(run: seq<State>, lasts: State -> bool, happens: State -> bool) {
    forall i :: 0 <= i < |run| - 1 && lasts(run[i]) ==> lasts(run[i + 1]) || happens(run[i + 1])
  }

  lemma {:induction false} LastsOrHappened(run: seq<State>, lasts: State -> bool, happens: State -> bool, i: nat,
                                           j: nat)
    requires LastsUnless(run, lasts, happens) && i <= j < |run| && lasts(run[i])
    ensures lasts(run[j]) || exists k :: i < k <= j && happens(run[k])
    decreases j
  {
    if i < j { LastsOrHappened(run, lasts, happens, i, j - 1); }
  }

  /** Over every run: a restart that has left the steps of stopCore has entered startCore
      since. */
  lemma RestartStartsAgain(run: seq<State>, i: nat, j: nat, t: nat, job: Job)
    requires IsRun(run) && i <= j < |run| && t < |run[i].threads|
    requires job in {UserRestart, SwitchRestart, Auto(true)} && run[i].threads[t] == Working(job, StopFields)
    ensures || (t < |run[j].threads| && run[j].threads[t].Working? && run[j].threads[t].job == job
                && InStop(run[j].threads[t].at))
            || exists k :: i < k <= j && t < |run[k].threads| && run[k].threads[t] == Working(job, StartEnter)
  {
    var (lasts, happens) := ((s: State) => Stopping(s, t, job), (s: State) => Entered(s, t, job));
    forall k | 0 <= k < |run| - 1 && lasts(run[k]) ensures lasts(run[k + 1]) || happens(run[k + 1]) {
      StoppedOrEntered(run, k, t, job);
    }
    LastsOrHappened(run, lasts, happens, i, j);
    if !lasts(run[j]) {
      var k :| i < k <= j && happens(run[k]);
    }
  }

  // ---- a start leaves a running core alone ------------------------------------------------

  /** Over every run: a start never takes a step of stopCore; and where it finds a core
      running and alive it changes nothing and answers whether that one is degraded. */
  lemma StartSparesRunningCore(run: seq<State>, i: nat, t: nat)
    requires IsRun(run) && i + 1 < |run| && t < |run[i].threads|
    requires run[i].threads[t].Working? && run[i].threads[t].job in {UserStart, Auto(false)}
    ensures var at := run[i].threads[t].at; !at.StopFields? && !at.StopClose? && !at.StopClear?
    ensures var (s, s') := (run[i], run[i + 1]);
            s.threads[t].at.StartEnter? && s.rt.core.Some? && s.rt.core.value in s.rt.alive
            && t < |s'.threads| && s'.threads[t] != s.threads[t]
            ==> s'.rt == s.rt && s'.threads[t] == Working(s.threads[t].job, Release(!s.rt.degraded))
  {
    StandsOnRun(run, i);
    InvOnRun(run, i);
    var moved, c := ThreadMoves(run[i], run[i + 1], t);
  }

  // ---- ready means seen ready ----------------------------------------------------------------

  /** Where startCore takes its last look at the core. */
  predicate Looks(at: At) { at.StartReport? || at.StartEnter? || at.StartClaim? }

  /** The thread looked at the core in state k and found it running and not degraded. */
  predicate SawReady(s: State, t: nat, job: Job) {
    && t < |s.threads| && s.threads[t].Working? && s.threads[t].job == job && Looks(s.threads[t].at)
    && s.rt.running && !s.rt.degraded
  }

  predicate ReportsReady(at: At) { at == StartExit(true) || at == Release(true) }

  lemma ReadyStep(r: Runtime, job: Job, at: At, c: Choice)
    requires !at.Release? && ReportsReady(WorkNext(r, job, at, c))
    ensures ReportsReady(at) || (Looks(at) && r.running && !r.degraded)
  {
  }

  lemma OnlyWorkReports(r: Runtime, pc: Pc, c: Choice)
    requires pc != DONE && NextPc(r, pc, c).Working? && ReportsReady(NextPc(r, pc, c).at)
    ensures pc.Working? && !pc.at.Release? && NextPc(r, pc, c) == Working(pc.job, WorkNext(r, pc.job, pc.at, c))
  {
  }

  lemma FreshThreads(s: State, s': State, t: nat)
    requires Next(s, s') && |s.threads| <= t < |s'.threads|
    ensures !s'.threads[t].Working?
  {
    if u, c :| Enabled(s, u) && s' == Step(s, u, c) {
      StepThreads(s, u, c);
    } else if id :| s' == s.(rt := s.rt.(alive := s.rt.alive - {id})) {
    } else {
      var pc :| IsEntry(pc) && s' == s.(threads := s.threads + [pc]);
    }
  }

  predicate Reports(pc: Pc, job: Job) { pc.Working? && pc.job == job && ReportsReady(pc.at) }

  lemma NextReports(r: Runtime, pc: Pc, c: Choice, job: Job)
    requires pc != DONE && Reports(NextPc(r, pc, c), job)
    ensures Reports(pc, job) || (pc.Working? && pc.job == job && Looks(pc.at) && r.running && !r.degraded)
  {
    OnlyWorkReports(r, pc, c);
    ReadyStep(r, pc.job, pc.at, c);
  }

  lemma ReportedBefore(s: State, s': State, t: nat, job: Job)
    requires Next(s, s') && t < |s'.threads| && Reports(s'.threads[t], job)
    ensures t < |s.threads| && (Reports(s.threads[t], job) || SawReady(s, t, job))
  {
    if t >= |s.threads| {
      FreshThreads(s, s', t);
    } else {
      var moved, c := ThreadMoves(s, s', t);
      if moved { NextReports(s.rt, s.threads[t], c, job); }
    }
  }

  /** Who reports has reported, or has just looked. */
  ghost predicate ReportsFollow(run: seq<State>, t: nat, job: Job) {
    forall j :: 0 < j < |run| && t < |run[j].threads| && Reports(run[j].threads[t], job) ==>
                  t < |run[j - 1].threads| && (Reports(run[j - 1].threads[t], job) || SawReady(run[j - 1], t, job))
  }

  lemma {:induction false} ReportSince(run: seq<State>, j: nat, t: nat, job: Job) returns (k: nat)
    requires run != [] && run[0].threads == [] && ReportsFollow(run, t, job)
    requires j < |run| && t < |run[j].threads| && Reports(run[j].threads[t], job)
    ensures k < j && SawReady(run[k], t, job)
    ensures forall m :: k < m <= j ==> t < |run[m].threads| && Reports(run[m].threads[t], job)
    decreases j
  {
    k := j - 1;
    if !SawReady(run[k], t, job) { k := ReportSince(run, j - 1, t, job); }
  }

  /** Over every run: a job that reports a ready core has seen it running and not degraded,
      and has only been on its way out since. */
  lemma ReadyWasSeen(run: seq<State>, j: nat, t: nat) returns (k: nat)
    requires IsRun(run) && j < |run| && t < |run[j].threads|
    requires run[j].threads[t].Working? && run[j].threads[t].at in {StartExit(true), Release(true)}
    ensures k < j && SawReady(run[k], t, run[j].threads[t].job)
    ensures forall m :: k < m <= j ==> t < |run[m].threads| && Reports(run[m].threads[t], run[j].threads[t].job)
  {
    var job := run[j].threads[t].job;
    forall i | 0 < i < |run| && t < |run[i].threads| && Reports(run[i].threads[t], job)
      ensures t < |run[i - 1].threads| && (Reports(run[i - 1].threads[t], job) || SawReady(run[i - 1], t, job))
    {
      ReportedBefore(run[i - 1], run[i], t, job);
    }
    k := ReportSince(run, j, t, job);
  }

  /** And what the last look finds is what is reported. */
  lemma LastLookDecides(run: seq<State>, i: nat, t: nat)
    requires IsRun(run) && i + 1 < |run| && t < |run[i].threads|
    requires run[i].threads[t].Working? && run[i].threads[t].at == StartReport
    requires t < |run[i + 1].threads| && run[i + 1].threads[t] != run[i].threads[t]
    ensures run[i + 1].threads[t]
            == Working(run[i].threads[t].job, StartExit(run[i].rt.running && !run[i].rt.degraded))
  {
    var moved, c := ThreadMoves(run[i], run[i + 1], t);
  }

  // ---- ticks while a core starts ----------------------------------------------------------

  /** Over every run: a reconciliation that begins while a core starts, or without one, ends
      at once and changes nothing. */
  lemma BusyTickEnds(run: seq<State>, i: nat, t: nat)
    requires IsRun(run) && i + 1 < |run| && t < |run[i].threads|
    requires run[i].threads[t] == Outside(ReconEntry) && (run[i].rt.starting || !run[i].rt.running)
    requires t < |run[i + 1].threads| && run[i + 1].threads[t] != run[i].threads[t]
    ensures run[i + 1].threads[t] == DONE && run[i + 1].rt == run[i].rt
  {
    var moved, c := ThreadMoves(run[i], run[i + 1], t);
  }
}
