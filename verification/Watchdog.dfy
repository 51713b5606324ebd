/** What the watchdog makes of a crash, start after start, when nobody intervenes. */
module Watchdog {
  import opened Options
  import opened Restart

  /** How a start ends: without committing; committed, but the core exited before its
      status was taken; committed, but the TUN takeover failed; or ready. */
  datatype Outcome = Failed | Died | Degraded | Ready

  /** A scheduled restart, with the delay that it sleeps first. */
  datatype Launch = Launch(attempt: nat, delay: int, whileRunning: bool)

  /** A limit of zero or less is no limit. */
  predicate Allows(maxRetries: int, attempts: nat) { maxRetries <= 0 || attempts < maxRetries }

  // ---- the watchdog's fields ------------------------------------------------------

  class Service {
    const enabled: bool
    const maxRetries: int
    const baseMs: int
    var attempts: nat
    var scheduled: Option<Launch>
    var restarting: bool
    var running: bool
    var degraded: bool

    constructor (enabled: bool, maxRetries: int, baseMs: int, attempts: nat)
      ensures this.enabled == enabled && this.maxRetries == maxRetries && this.baseMs == baseMs
      ensures this.attempts == attempts && scheduled == None && !restarting && running && !degraded
    {
      this.enabled, this.maxRetries, this.baseMs, this.attempts := enabled, maxRetries, baseMs, attempts;
      scheduled, restarting, running, degraded := None, false, true, false;
    }

    /** scheduleAutoRestartLocked */
    method Schedule(whileRunning: bool)
      modifies this`attempts, this`scheduled
      ensures if enabled && Allows(maxRetries, old(attempts))
              then attempts == old(attempts) + 1
                && scheduled == Some(Launch(attempts, RestartDelay(baseMs, attempts), whileRunning))
              else attempts == old(attempts) && scheduled == old(scheduled)
    {
      if !enabled { return; }
      var limit := if maxRetries < 0 then 0 else maxRetries;
      if limit > 0 && attempts >= limit { return; }
      attempts := attempts + 1;
      var delay := AutoRestartDelay(baseMs, attempts);
      scheduled := Some(Launch(attempts, delay, whileRunning));
    }

    /** watchdogTick; `dead` is what the exit check finds. */
    method Tick(dead: bool)
      modifies this`attempts, this`scheduled, this`running, this`degraded
      ensures running == (old(running) && !dead) && degraded == (old(degraded) && !(old(running) && dead))
      ensures var wants := (old(running) && dead) || (running && degraded);
              if wants && !restarting && old(scheduled) == None && enabled && Allows(maxRetries, old(attempts))
              then attempts == old(attempts) + 1
                   && scheduled == Some(Launch(attempts, RestartDelay(baseMs, attempts), running))
              else attempts == old(attempts) && scheduled == old(scheduled)
    {
      var wasRunning := running;
      if running && dead { running, degraded := false, false; }
      if (wasRunning && !running) || (running && degraded) {
        if !restarting && scheduled == None { Schedule(running); }
      }
    }

    /** startCore, with a tick of the watchdog after its last step if `early`. */
    method StartCore(outcome: Outcome, early: bool)
      requires !running && !degraded && restarting && scheduled == None
      modifies this`attempts, this`scheduled, this`restarting, this`running, this`degraded
      ensures running == (outcome == Degraded || outcome == Ready) && degraded == (outcome == Degraded)
      ensures outcome == Failed ==> attempts == old(attempts) && scheduled == None
      ensures outcome == Ready ==> attempts == 0 && scheduled == None
      ensures outcome == Died || outcome == Degraded ==>
                if early && enabled && Allows(maxRetries, 0)
                then attempts == 1 && scheduled == Some(Launch(1, RestartDelay(baseMs, 1), outcome == Degraded))
                else attempts == 0 && scheduled == None
    {
      if outcome != Failed {
        // the commit section
        running, degraded, attempts, scheduled, restarting := true, false, 0, None, false;
        if outcome == Degraded { degraded := true; }
      }
      if early { Tick(outcome == Died); }
      if outcome == Died { running := false; }
    }

    /** runScheduledAutoRestart, after its sleep: the launch that started the core, or
        None if it was dropped. */
    method RunScheduled(outcome: Outcome, early: bool) returns (started: Option<Launch>)
      requires scheduled.Some? && (degraded ==> running) && (running ==> degraded)
      modifies this`attempts, this`scheduled, this`restarting, this`running, this`degraded
      ensures started.Some? ==> !restarting
      ensures old(running) && !old(scheduled).value.whileRunning ==>
                started == None && scheduled == None && attempts == old(attempts)
                && running && degraded == old(degraded) && restarting == old(restarting)
      ensures !(old(running) && !old(scheduled).value.whileRunning) ==>
                && started == old(scheduled)
                && running == (outcome == Degraded || outcome == Ready) && degraded == (outcome == Degraded)
                && AfterStart(old(attempts), outcome, early)
    {
      var launch := scheduled.value;
      if running && !launch.whileRunning {
        scheduled := None;
        return None;
      }
      scheduled, restarting := None, true;
      if launch.whileRunning { running, degraded := false, false; }  // stopCore
      StartCore(outcome, early);
      restarting := false;
      if outcome == Ready {
        attempts := 0;
      } else if scheduled == None {
        Schedule(false);
      }
      started := Some(launch);
    }

    /** What is scheduled after a start that was made with a counter of `was`. */
    ghost predicate AfterStart(was: nat, outcome: Outcome, early: bool)
      reads this
    {
      var from := if outcome == Failed then was else 0;
      if outcome == Ready then attempts == 0 && scheduled == None
      else if enabled && Allows(maxRetries, from) then
        attempts == from + 1
        && scheduled == Some(Launch(attempts, RestartDelay(baseMs, attempts), early && outcome == Degraded))
      else attempts == from && scheduled == None
    }

    /** One scheduled restart, and the next tick if it leaves none. */
    method Cycle(ghost crash: CrashCase, ghost k: nat, outcome: Outcome, early: bool) returns (started: Option<Launch>)
      requires enabled && !restarting && (running <==> degraded) && scheduled.Some?
      requires crash.maxRetries == maxRetries && Pending(crash, k) && outcome == crash.outcome(k)
               && early == crash.early(k)
      modifies this`attempts, this`scheduled, this`restarting, this`running, this`degraded
      ensures !restarting && (scheduled.Some? ==> (running <==> degraded))
      ensures started == None ==>
                Pending(crash, k) && old(running && !scheduled.value.whileRunning)
                  && (scheduled.Some? ==> scheduled.value.whileRunning)
      ensures started.Some? ==> IsStart(crash, k, started.value) && Pending(crash, k + 1)
    {
      started := RunScheduled(outcome, early);
      if scheduled == None { Tick(false); }
    }

    ghost predicate IsStart(crash: CrashCase, k: nat, l: Launch) {
      Attempt(crash, k) == Some(l.attempt) && l.attempt >= 1 && l.delay == RestartDelay(baseMs, l.attempt)
    }

    /** A crash and what follows from it, observed for at most `horizon` starts: the
        launches that started the core. */
    method Crash(ghost crash: CrashCase, outcome: nat -> Outcome, early: nat -> bool, horizon: nat)
      returns (starts: seq<Launch>)
      requires crash == CrashCase(maxRetries, attempts, outcome, early)
      requires running && !degraded && !restarting && scheduled == None
      modifies this`attempts, this`scheduled, this`restarting, this`running, this`degraded
      ensures !enabled ==> starts == []
      ensures enabled ==> |starts| <= horizon && (|starts| < horizon ==> Attempt(crash, |starts|) == None)
      ensures forall k :: 0 <= k < |starts| ==> IsStart(crash, k, starts[k])
    {
      starts := [];
      Tick(true);
      while scheduled.Some? && |starts| < horizon
        invariant |starts| <= horizon && (!enabled ==> scheduled == None && starts == [])
        invariant !restarting && (scheduled.Some? ==> (running <==> degraded))
        invariant enabled ==> Pending(crash, |starts|)
        invariant forall k :: 0 <= k < |starts| ==> IsStart(crash, k, starts[k])
        decreases horizon - |starts|, if running && scheduled.Some? && !scheduled.value.whileRunning then 1 else 0
      {
        var started := Cycle(crash, |starts|, outcome(|starts|), early(|starts|));
        if started.Some? { starts := starts + [started.value]; }
      }
    }

    /** What is scheduled stands for the next start of the chain: it is that start, or it
        will be dropped and the tick after it decides, or the chain has ended. */
    ghost predicate Pending(crash: CrashCase, k: nat)
      reads this
    {
      if scheduled == None then Attempt(crash, k) == None
      else
        var l := scheduled.value;
        && l.attempt == attempts >= 1 && l.delay == RestartDelay(baseMs, l.attempt)
        && if running && !l.whileRunning then attempts == 1 && degraded && Attempt(crash, k) == AfterDrop(maxRetries)
           else Attempt(crash, k) == Some(attempts)
    }
  }

  // ---- the chain of starts ------------------------------------------------------------

  /** A crash: the retry limit, the counter it finds, how each start ends, and whether a
      tick falls between the end of a start and the watchdog's look at its result. */
  datatype CrashCase = CrashCase(maxRetries: int, from: nat, outcome: nat -> Outcome, early: nat -> bool)

  /** A degraded core is running when the restart scheduled for it wakes up, so that
      restart is dropped, having used up attempt 1; the next tick schedules another. */
  function AfterDrop(maxRetries: int): Option<nat> { if Allows(maxRetries, 1) then Some(2) else None }

  /** The attempt number of the start after one with the given number. */
  function Next(maxRetries: int, attempt: nat, outcome: Outcome, early: bool): Option<nat> {
    match outcome
    case Ready => None
    case Failed => if Allows(maxRetries, attempt) then Some(attempt + 1) else None
    case Died => Some(1)
    case Degraded => if early then Some(1) else AfterDrop(maxRetries)
  }

  /** The attempt number of the k-th start after a crash; None once the chain has ended. */
  function Attempt(crash: CrashCase, k: nat): Option<nat> {
    if k == 0 then if Allows(crash.maxRetries, crash.from) then Some(crash.from + 1) else None
    else
      var a := Attempt(crash, k - 1);
      if a.None? then None else Next(crash.maxRetries, a.value, crash.outcome(k - 1), crash.early(k - 1))
  }

  lemma {:induction false} EndedStays(crash: CrashCase, j: nat, k: nat)
    requires j <= k && Attempt(crash, j) == None
    ensures Attempt(crash, k) == None
  {
    if j < k { EndedStays(crash, j, k - 1); }
  }

  /** Through n failures in a row the attempt number counts up, until it passes the limit
      and the chain ends. */
  lemma {:induction false} FailuresCount(crash: CrashCase, j: nat, n: nat)
    requires Attempt(crash, j).Some? && (n > 0 ==> forall i :: j <= i < j + n ==> crash.outcome(i) == Failed)
    requires crash.maxRetries > 0 ==> Attempt(crash, j).value <= crash.maxRetries
    ensures var a := Attempt(crash, j).value + n;
            Attempt(crash, j + n) == if crash.maxRetries <= 0 || a <= crash.maxRetries then Some(a) else None
  {
    if n > 0 { FailuresCount(crash, j, n - 1); }
  }

  lemma {:induction false} AttemptsInLimit(crash: CrashCase, k: nat)
    ensures Attempt(crash, k).Some? && crash.maxRetries > 0 ==> 1 <= Attempt(crash, k).value <= crash.maxRetries
    ensures Attempt(crash, k).Some? ==> Attempt(crash, k).value >= 1
  {
    if k > 0 { AttemptsInLimit(crash, k - 1); }
  }

  /** Without a commit, a crash is followed by exactly as many starts as the limit leaves,
      with attempt numbers counting up from the counter; without a limit, by starts for
      ever. */
  lemma AllFailed(crash: CrashCase, k: nat)
    requires forall i :: 0 <= i < k ==> crash.outcome(i) == Failed
    ensures Attempt(crash, k) ==
              if crash.maxRetries <= 0 || crash.from + k + 1 <= crash.maxRetries then Some(crash.from + k + 1) else None
  {
    if Attempt(crash, 0).Some? {
      AttemptsInLimit(crash, 0);
      FailuresCount(crash, 0, k);
    } else {
      EndedStays(crash, 0, k);
    }
  }

  predicate Commits(outcome: Outcome) { outcome == Died || outcome == Degraded }

  /** After a start that committed without being ready the count begins again: at attempt
      1, or at attempt 2 if a restart of the degraded core was dropped. So between two
      commits there are as many failed starts as the limit leaves from there. */
  lemma BetweenCommits(crash: CrashCase, j: nat, n: nat)
    requires Attempt(crash, j).Some? && Commits(crash.outcome(j))
    requires forall i :: j < i < j + 1 + n ==> crash.outcome(i) == Failed
    ensures var a := if crash.outcome(j) == Degraded && !crash.early(j) then 2 else 1;
            Attempt(crash, j + 1 + n)
            == if crash.maxRetries <= 0 || a + n <= crash.maxRetries then Some(a + n) else None
  {
    if Attempt(crash, j + 1).Some? {
      AttemptsInLimit(crash, j + 1);
      FailuresCount(crash, j + 1, n);
    } else {
      EndedStays(crash, j + 1, j + 1 + n);
    }
  }

  ghost predicate Endless(crash: CrashCase) { forall k: nat :: Attempt(crash, k).Some? }

  /** If every start comes up degraded, the watchdog restarts the core for ever, whatever
      the limit, except with a limit of one: then it stops at the first degraded start
      whose result is seen before the next tick. */
  lemma DegradedEndlessIff(crash: CrashCase)
    requires Allows(crash.maxRetries, crash.from) && forall k: nat :: crash.outcome(k) == Degraded
    ensures Endless(crash) <==> crash.maxRetries != 1 || forall k: nat :: crash.early(k)
  {
    if crash.maxRetries != 1 || forall k: nat :: crash.early(k) {
      forall k: nat ensures Attempt(crash, k).Some? { DegradedGoesOn(crash, k); }
    } else {
      var k: nat :| !crash.early(k);
      if Attempt(crash, k).Some? {
        assert Attempt(crash, k + 1) == None;
      } else {
        assert !Endless(crash);
      }
    }
  }

  lemma {:induction false} DegradedGoesOn(crash: CrashCase, k: nat)
    requires Allows(crash.maxRetries, crash.from) && forall i: nat :: crash.outcome(i) == Degraded
    requires crash.maxRetries != 1 || forall i: nat :: crash.early(i)
    ensures Attempt(crash, k).Some?
  {
    if k > 0 { DegradedGoesOn(crash, k - 1); }
  }

  /** If every start commits and the core exits at once, no limit ends the chain, and
      every start after the first is attempt 1. */
  lemma {:induction false} DyingIsEndless(crash: CrashCase, k: nat)
    requires Allows(crash.maxRetries, crash.from) && forall i: nat :: crash.outcome(i) == Died
    ensures Attempt(crash, k) == Some(if k == 0 then crash.from + 1 else 1)
  {
    if k > 0 { DyingIsEndless(crash, k - 1); }
  }
}
