/** How many restarts the watchdog launches along a schedule of the lifecycle machine:
    the limit is a bound that is reached, commits lift it, and both happen in runs from
    the start of the service. */
module LifecycleRestarts {
  import opened Options
  import opened Lifecycle

  // ---- the limit bounds restarts --------------------------------------------------------

  /** A step that forgives earlier restart attempts: a commit, a stop by the user,
      or a restart that ended ready. */
  predicate Forgives(pc: Pc) {
    match pc
    case Working(job, at) => at.StartCommit? || (at.StopFields? && !job.Auto?)
    case Outside(free) => free == AutoResult(true)
    case _ => false
  }

  /** What happens next in a schedule. */
  datatype Move = Turn(t: nat, c: Choice) | Death(id: nat) | Begin(pc: Pc)

  /** A turn of a thread that cannot move passes. */
  function After(s: State, move: Move): State {
    match move
    case Turn(t, c) => if Enabled(s, t) then Step(s, t, c) else s
    case Death(id) => s.(rt := s.rt.(alive := s.rt.alive - {id}))
    case Begin(pc) => s.(threads := s.threads + [pc])
  }

  function LaunchedBy(s: State, move: Move): nat {
    if move.Turn? && Enabled(s, move.t) then |Spawned(s.rt, s.threads[move.t], move.c)| else 0
  }

  /** The restarts that the watchdog launches along a schedule. */
  function Launched(s: State, moves: seq<Move>): nat
    decreases moves
  {
    if moves == [] then 0 else LaunchedBy(s, moves[0]) + Launched(After(s, moves[0]), moves[1..])
  }

  predicate Strict(s: State, move: Move, m: nat) {
    move.Turn? && Enabled(s, move.t) ==> move.c.maxRetries == m && !Forgives(s.threads[move.t])
  }

  /** Along the schedule the retry limit is m and no step forgives. */
  predicate Unforgiving(s: State, moves: seq<Move>, m: nat)
    decreases moves
  {
    moves == [] || (Strict(s, moves[0], m) && Unforgiving(After(s, moves[0]), moves[1..], m))
  }

  lemma FreeCountsRestarts(r: Runtime, free: Free, c: Choice)
    requires free != AutoResult(true)
    ensures FreeEffect(r, free, c).watchdog.attempts == r.watchdog.attempts + |Spawned(r, Outside(free), c)|
    ensures Spawned(r, Outside(free), c) != [] && c.maxRetries > 0 ==>
              r.watchdog.attempts < c.maxRetries && |Spawned(r, Outside(free), c)| == 1
  {
    assert CheckExit(r).watchdog == r.watchdog;
  }

  lemma WorkKeepsAttempts(r: Runtime, job: Job, at: At, c: Choice)
    requires !Forgives(Working(job, at))
    ensures WorkEffect(r, job, at, c).watchdog == r.watchdog
  {
    assert CheckExit(r).watchdog == r.watchdog;
  }

  lemma StepCountsRestarts(r: Runtime, pc: Pc, c: Choice)
    requires !Forgives(pc)
    ensures NextRuntime(r, pc, c).watchdog.attempts == r.watchdog.attempts + |Spawned(r, pc, c)|
    ensures Spawned(r, pc, c) != [] && c.maxRetries > 0
            ==> r.watchdog.attempts < c.maxRetries && |Spawned(r, pc, c)| == 1
  {
    match pc
    case Outside(free) => FreeCountsRestarts(r, free, c);
    case Waiting(_) =>
    case Briefly(_) =>
    case Working(job, at) => WorkKeepsAttempts(r, job, at, c);
  }

  lemma MoveCountsRestarts(s: State, move: Move, m: nat)
    requires m > 0 && s.rt.watchdog.attempts <= m && Strict(s, move, m)
    ensures After(s, move).rt.watchdog.attempts == s.rt.watchdog.attempts + LaunchedBy(s, move) <= m
  {
    if move.Turn? && Enabled(s, move.t) { StepCountsRestarts(s.rt, s.threads[move.t], move.c); }
  }

  /** With a positive retry limit, the watchdog launches no more restarts than the
      limit leaves, whatever else happens in between, until a start commits or the
      user intervenes. */
  lemma {:induction false} RestartsAreBounded(s: State, moves: seq<Move>, m: nat)
    requires m > 0 && s.rt.watchdog.attempts <= m && Unforgiving(s, moves, m)
    ensures s.rt.watchdog.attempts + Launched(s, moves) <= m
    decreases moves
  {
    if moves != [] {
      MoveCountsRestarts(s, moves[0], m);
      RestartsAreBounded(After(s, moves[0]), moves[1..], m);
    }
  }

  // ---- the limit is reached ---------------------------------------------------------------

  /** Where a schedule leads. */
  function Final(s: State, moves: seq<Move>): State
    decreases moves
  {
    if moves == [] then s else Final(After(s, moves[0]), moves[1..])
  }

  /** No operation begins from outside, and the retry limit is m in every step. */
  predicate Quiet(moves: seq<Move>, m: int) {
    forall i :: 0 <= i < |moves| ==> !moves[i].Begin? && (moves[i].Turn? ==> moves[i].c.maxRetries == m)
  }

  /** What a schedule comes to. */
  ghost predicate Plays(s: State, moves: seq<Move>, m: nat, launched: nat, end: State, unforgiving: bool) {
    Quiet(moves, m) && Launched(s, moves) == launched && Final(s, moves) == end
      && (unforgiving ==> Unforgiving(s, moves, m))
  }

  lemma PlaysNothing(s: State, m: nat)
    ensures Plays(s, [], m, 0, s, true)
  {
  }

  lemma MoveFirst(s: State, move: Move, rest: seq<Move>, m: nat, launched: nat, end: State, unforgiving: bool)
    requires Quiet([move], m) && (unforgiving ==> Strict(s, move, m))
    requires Plays(After(s, move), rest, m, launched, end, unforgiving)
    ensures Plays(s, [move] + rest, m, LaunchedBy(s, move) + launched, end, unforgiving)
  {
    assert ([move] + rest)[1..] == rest && [move][0] == move;
    assert forall i :: 0 < i <= |rest| ==> ([move] + rest)[i] == rest[i - 1];
  }

  lemma TurnFirst(s: State, t: nat, c: Choice, rest: seq<Move>, m: nat, launched: nat, end: State, unforgiving: bool)
    requires Enabled(s, t) && c.maxRetries == m && (unforgiving ==> !Forgives(s.threads[t]))
    requires Plays(Step(s, t, c), rest, m, launched, end, unforgiving)
    ensures Plays(s, [Turn(t, c)] + rest, m, |Spawned(s.rt, s.threads[t], c)| + launched, end, unforgiving)
  {
    MoveFirst(s, Turn(t, c), rest, m, launched, end, unforgiving);
  }

  lemma DeathFirst(s: State, id: nat, rest: seq<Move>, m: nat, launched: nat, end: State)
    requires Plays(s.(rt := s.rt.(alive := s.rt.alive - {id})), rest, m, launched, end, false)
    ensures Plays(s, [Death(id)] + rest, m, launched, end, false)
  {
    MoveFirst(s, Death(id), rest, m, launched, end, false);
  }

  /** One schedule after another. */
  lemma {:induction false} Concatenated(s: State, a: seq<Move>, b: seq<Move>)
    ensures Final(s, a + b) == Final(Final(s, a), b)
    ensures Launched(s, a + b) == Launched(s, a) + Launched(Final(s, a), b)
    decreases a
  {
    if a == [] {
      assert a + b == b;
    } else {
      assert (a + b)[0] == a[0] && (a + b)[1..] == a[1..] + b;
      Concatenated(After(s, a[0]), a[1..], b);
    }
  }

  lemma {:induction false} UnforgivingOn(s: State, a: seq<Move>, b: seq<Move>, m: nat)
    requires Unforgiving(s, a, m) && Unforgiving(Final(s, a), b, m)
    ensures Unforgiving(s, a + b, m)
    decreases a
  {
    if a == [] {
      assert a + b == b;
    } else {
      assert (a + b)[0] == a[0] && (a + b)[1..] == a[1..] + b;
      UnforgivingOn(After(s, a[0]), a[1..], b, m);
    }
  }

  lemma PlaysOn(s: State, a: seq<Move>, b: seq<Move>, m: nat, x: nat, y: nat, mid: State, end: State, unforgiving: bool)
    requires Plays(s, a, m, x, mid, unforgiving) && Plays(mid, b, m, y, end, unforgiving)
    ensures Plays(s, a + b, m, x + y, end, unforgiving)
  {
    Concatenated(s, a, b);
    if unforgiving { UnforgivingOn(s, a, b, m); }
  }

  /** The core is down and thread t is the restart that the watchdog has scheduled, the
      counter standing at a. */
  predicate Scheduled(s: State, t: nat, a: nat) {
    && t < |s.threads| && s.threads[t] == Outside(AutoEntry(false)) && s.coreOp == None
    && !s.rt.running && !s.rt.starting && s.rt.core == None
    && s.rt.watchdog == Watchdog(a, true, false)
  }

  function Always(ok: bool, m: nat): Choice { Choice(ok, false, false, false, false, true, m) }

  /** Thread t stands at a step of the restart, holding the lock. */
  predicate AtWork(s: State, t: nat, at: At, a: nat, restarting: bool) {
    && t < |s.threads| && s.threads[t] == Working(Auto(false), at) && s.coreOp == Some(t)
    && s.rt.watchdog == Watchdog(a, false, restarting)
  }

  /** From the schedule to the preparation of the start. */
  lemma Begins(s: State, t: nat, a: nat, ok: bool, m: nat) returns (mid: State, moves: seq<Move>)
    requires Scheduled(s, t, a)
    ensures Plays(s, moves, m, 0, mid, true)
    ensures AtWork(mid, t, StartPrep, a, true) && |mid.threads| == |s.threads|
    ensures !mid.rt.running && mid.rt.starting && mid.rt.core == None
  {
    var c := Always(ok, m);
    var s1 := Step(s, t, c);
    var s2 := Step(s1, t, c);
    mid := Step(s2, t, c);
    PlaysNothing(mid, m);
    TurnFirst(s2, t, c, [], m, 0, mid, true);
    TurnFirst(s1, t, c, [Turn(t, c)] + [], m, 0, mid, true);
    TurnFirst(s, t, c, [Turn(t, c)] + ([Turn(t, c)] + []), m, 0, mid, true);
    moves := [Turn(t, c)] + ([Turn(t, c)] + ([Turn(t, c)] + []));
  }

  /** From the end of a start that is not ready to the release of the lock. */
  lemma Exits(s: State, t: nat, a: nat, restarting: bool, c: Choice, m: nat) returns (end: State, moves: seq<Move>)
    requires AtWork(s, t, StartExit(false), a, restarting) && !s.rt.running && s.rt.core == None && c.maxRetries == m
    ensures Plays(s, moves, m, 0, end, true)
    ensures |end.threads| == |s.threads| && end.threads[t] == Outside(AutoResult(false)) && end.coreOp == None
    ensures end.rt == s.rt.(starting := false)
  {
    var s1 := Step(s, t, c);
    end := Step(s1, t, c);
    PlaysNothing(end, m);
    TurnFirst(s1, t, c, [], m, 0, end, true);
    TurnFirst(s, t, c, [Turn(t, c)] + [], m, 0, end, true);
    moves := [Turn(t, c)] + ([Turn(t, c)] + []);
  }

  /** From the end of a start that is not ready to the watchdog's next schedule. */
  lemma Ends(s: State, t: nat, a: nat, restarting: bool, ok: bool, m: nat) returns (end: State, moves: seq<Move>)
    requires AtWork(s, t, StartExit(false), a, restarting) && !s.rt.running && s.rt.core == None && m > 0
    ensures Plays(s, moves, m, if a < m then 1 else 0, end, true)
    ensures a < m ==> Scheduled(end, |s.threads|, a + 1)
  {
    var c := Always(ok, m);
    var result, before := Exits(s, t, a, restarting, c, m);
    end := Step(result, t, c);
    PlaysNothing(end, m);
    TurnFirst(result, t, c, [], m, 0, end, true);
    moves := before + ([Turn(t, c)] + []);
    PlaysOn(s, before, [Turn(t, c)] + [], m, 0, if a < m then 1 else 0, result, end, true);
  }

  /** One restart whose start fails without committing. */
  lemma FailedLap(s: State, t: nat, a: nat, m: nat) returns (end: State, moves: seq<Move>)
    requires Scheduled(s, t, a) && m > 0
    ensures Plays(s, moves, m, if a < m then 1 else 0, end, true)
    ensures a < m ==> Scheduled(end, |s.threads|, a + 1)
  {
    var c := Always(false, m);
    var prep, before := Begins(s, t, a, false, m);
    var exit := Step(prep, t, c);
    var end', after := Ends(exit, t, a, true, false, m);
    end := end';
    TurnFirst(prep, t, c, after, m, if a < m then 1 else 0, end, true);
    moves := before + ([Turn(t, c)] + after);
    PlaysOn(s, before, [Turn(t, c)] + after, m, 0, if a < m then 1 else 0, prep, end, true);
  }

  /** The bound of RestartsAreBounded is reached: if no start commits, exactly as many
      restarts follow as the limit leaves. */
  lemma {:induction false} LimitIsReached(s: State, t: nat, a: nat, m: nat) returns (end: State, moves: seq<Move>)
    requires Scheduled(s, t, a) && 0 < m && a <= m
    ensures Plays(s, moves, m, m - a, end, true)
    decreases m - a
  {
    if a == m {
      PlaysNothing(s, m);
      return s, [];
    }
    var next, lap := FailedLap(s, t, a, m);
    var last, rest := LimitIsReached(next, |s.threads|, a + 1, m);
    PlaysOn(s, lap, rest, m, 1, m - a - 1, next, last, true);
    end, moves := last, lap + rest;
  }

  // ---- commits lift the limit ---------------------------------------------------------------

  /** From the preparation through a commit; then the core dies, and the start finds it
      dead. */
  lemma CommitsAndDies(s: State, t: nat, a: nat, m: nat) returns (exit: State, moves: seq<Move>)
    requires AtWork(s, t, StartPrep, a, true) && !s.rt.running && s.rt.core == None
    ensures Plays(s, moves, m, 0, exit, false)
    ensures AtWork(exit, t, StartExit(false), 0, false) && |exit.threads| == |s.threads| && !exit.rt.running
            && exit.rt.core == None
  {
    var (c, id) := (Always(true, m), s.rt.nextId);
    var mid, before := Commits(s, t, a, c, m);
    var dead := mid.(rt := mid.rt.(alive := mid.rt.alive - {id}));
    var found, rest := FindsDead(dead, t, m);
    exit := found;
    DeathFirst(mid, id, rest, m, 0, exit);
    moves := before + ([Death(id)] + rest);
    PlaysOn(s, before, [Death(id)] + rest, m, 0, 0, mid, exit, false);
  }

  lemma LaunchesCore(s: State, t: nat, a: nat, c: Choice, m: nat) returns (mid: State, moves: seq<Move>)
    requires AtWork(s, t, StartPrep, a, true) && !s.rt.running && s.rt.core == None && c == Always(true, m)
    ensures Plays(s, moves, m, 0, mid, false)
    ensures AtWork(mid, t, StartCommit(s.rt.nextId), a, true) && |mid.threads| == |s.threads|
  {
    var s1 := Step(s, t, c);
    mid := Step(s1, t, c);
    PlaysNothing(mid, m);
    TurnFirst(s1, t, c, [], m, 0, mid, false);
    TurnFirst(s, t, c, [Turn(t, c)] + [], m, 0, mid, false);
    moves := [Turn(t, c)] + ([Turn(t, c)] + []);
  }

  lemma Commits(s: State, t: nat, a: nat, c: Choice, m: nat) returns (mid: State, moves: seq<Move>)
    requires AtWork(s, t, StartPrep, a, true) && !s.rt.running && s.rt.core == None && c == Always(true, m)
    ensures Plays(s, moves, m, 0, mid, false)
    ensures AtWork(mid, t, StartStatus, 0, false) && |mid.threads| == |s.threads| && mid.rt.core == Some(s.rt.nextId)
  {
    var launched, before := LaunchesCore(s, t, a, c, m);
    mid := Step(launched, t, c);
    PlaysNothing(mid, m);
    TurnFirst(launched, t, c, [], m, 0, mid, false);
    moves := before + ([Turn(t, c)] + []);
    PlaysOn(s, before, [Turn(t, c)] + [], m, 0, 0, launched, mid, false);
  }

  /** The check of the status finds the core dead, and the routing is cleaned up. */
  lemma CleansUp(s: State, t: nat, c: Choice, m: nat) returns (end: State, moves: seq<Move>)
    requires AtWork(s, t, StartStatus, 0, false) && CoreIsDead(s.rt) && c.maxRetries == m
    ensures Plays(s, moves, m, 0, end, false)
    ensures AtWork(end, t, StartStatusClear, 0, false) && |end.threads| == |s.threads| && !end.rt.running
            && end.rt.core == None
  {
    var s1 := Step(s, t, c);
    end := Step(s1, t, c);
    PlaysNothing(end, m);
    TurnFirst(s1, t, c, [], m, 0, end, false);
    TurnFirst(s, t, c, [Turn(t, c)] + [], m, 0, end, false);
    moves := [Turn(t, c)] + ([Turn(t, c)] + []);
  }

  lemma FindsDead(s: State, t: nat, m: nat) returns (exit: State, moves: seq<Move>)
    requires AtWork(s, t, StartStatus, 0, false) && CoreIsDead(s.rt)
    ensures Plays(s, moves, m, 0, exit, false)
    ensures AtWork(exit, t, StartExit(false), 0, false) && |exit.threads| == |s.threads| && !exit.rt.running
            && exit.rt.core == None
  {
    var c := Always(true, m);
    var clear, before := CleansUp(s, t, c, m);
    var report := Step(clear, t, c);
    exit := Step(report, t, c);
    PlaysNothing(exit, m);
    TurnFirst(report, t, c, [], m, 0, exit, false);
    TurnFirst(clear, t, c, [Turn(t, c)] + [], m, 0, exit, false);
    moves := before + ([Turn(t, c)] + ([Turn(t, c)] + []));
    PlaysOn(s, before, [Turn(t, c)] + ([Turn(t, c)] + []), m, 0, 0, clear, exit, false);
  }

  /** One restart whose start commits, and whose core dies at once. */
  lemma DyingLap(s: State, t: nat, a: nat, m: nat) returns (end: State, moves: seq<Move>)
    requires Scheduled(s, t, a) && m > 0
    ensures Plays(s, moves, m, 1, end, false) && Scheduled(end, |s.threads|, 1)
  {
    var prep, before := Begins(s, t, a, true, m);
    var exit, during := CommitsAndDies(prep, t, a, m);
    var last, after := Ends(exit, t, 0, false, true, m);
    PlaysOn(prep, during, after, m, 0, 1, exit, last, false);
    PlaysOn(s, before, during + after, m, 0, 1, prep, last, false);
    end, moves := last, before + (during + after);
  }

  /** A commit resets the counter: so with any limit there is, for every number, a
      schedule with that many restarts in which nobody begins anything. */
  lemma {:induction false} CommitsLiftTheLimit(s: State, t: nat, a: nat, m: nat, n: nat)
    returns (end: State, moves: seq<Move>)
    requires Scheduled(s, t, a) && m > 0
    ensures Plays(s, moves, m, n, end, false)
    decreases n
  {
    if n == 0 {
      PlaysNothing(s, m);
      return s, [];
    }
    var next, lap := DyingLap(s, t, a, m);
    var last, rest := CommitsLiftTheLimit(next, |s.threads|, 1, m, n - 1);
    PlaysOn(s, lap, rest, m, 1, n - 1, next, last, false);
    end, moves := last, lap + rest;
  }

  // ---- a crash from the start of the service -----------------------------------------------

  /** What begins in the schedule is an operation of the API or of a ticker, and the retry
      limit is m in every step. */
  predicate Legal(moves: seq<Move>, m: int) {
    forall i :: 0 <= i < |moves| ==>
                  (moves[i].Begin? ==> IsEntry(moves[i].pc)) && (moves[i].Turn? ==> moves[i].c.maxRetries == m)
  }

  ghost predicate Leads(s: State, moves: seq<Move>, m: int, launched: nat, end: State) {
    Legal(moves, m) && Launched(s, moves) == launched && Final(s, moves) == end
  }

  lemma LeadsOn(s: State, a: seq<Move>, b: seq<Move>, m: int, x: nat, y: nat, mid: State, end: State)
    requires Leads(s, a, m, x, mid) && Leads(mid, b, m, y, end)
    ensures Leads(s, a + b, m, x + y, end)
  {
    Concatenated(s, a, b);
  }

  lemma LeadsTurn(s: State, t: nat, c: Choice, m: int)
    requires Enabled(s, t) && c.maxRetries == m
    ensures Leads(s, [Turn(t, c)], m, |Spawned(s.rt, s.threads[t], c)|, Step(s, t, c))
  {
    assert [Turn(t, c)][1..] == [];
  }

  lemma LeadsBegin(s: State, pc: Pc, m: int)
    requires IsEntry(pc)
    ensures Leads(s, [Begin(pc)], m, 0, s.(threads := s.threads + [pc]))
  {
    assert [Begin(pc)][1..] == [];
  }

  lemma LeadsDeath(s: State, id: nat, m: int)
    ensures Leads(s, [Death(id)], m, 0, s.(rt := s.rt.(alive := s.rt.alive - {id})))
  {
    assert [Death(id)][1..] == [];
  }

  lemma RunOn(run: seq<State>, s: State)
    requires IsRun(run) && Next(run[|run| - 1], s)
    ensures IsRun(run + [s])
  {
    forall i | 0 < i < |run + [s]|
      ensures Next((run + [s])[i - 1], (run + [s])[i])
    {
      assert (run + [s])[i - 1] == run[i - 1];
    }
  }

  lemma MoveIsNext(s: State, move: Move)
    requires move.Begin? ==> IsEntry(move.pc)
    ensures After(s, move) == s || Next(s, After(s, move))
  {
  }

  lemma LegalTail(moves: seq<Move>, m: int)
    requires Legal(moves, m) && moves != []
    ensures Legal(moves[1..], m) && (moves[0].Begin? ==> IsEntry(moves[0].pc))
  {
    assert forall i :: 0 <= i < |moves[1..]| ==> moves[1..][i] == moves[i + 1];
  }

  /** Every legal schedule is a run of the machine. */
  lemma {:induction false} ScheduleIsRun(run: seq<State>, moves: seq<Move>, m: int) returns (longer: seq<State>)
    requires IsRun(run) && Legal(moves, m)
    ensures IsRun(longer) && longer[0] == run[0] && longer[|longer| - 1] == Final(run[|run| - 1], moves)
    decreases moves
  {
    longer := run;
    if moves != [] {
      var (s, s') := (run[|run| - 1], After(run[|run| - 1], moves[0]));
      LegalTail(moves, m);
      MoveIsNext(s, moves[0]);
      if s' != s {
        RunOn(run, s');
        longer := run + [s'];
      }
      longer := ScheduleIsRun(longer, moves[1..], m);
    }
  }

  /** The first start of a service stands at a step. */
  ghost predicate FirstStart(s: State, at: At, r: Runtime) {
    s == State([Working(UserStart, at)], Some(0), None, r)
  }

  /** The fields once the first start has committed. */
  function FirstCore(starting: bool): Runtime {
    Runtime(true, starting, false, Some(0), {0}, 2, false, Trackers(Some(1), {1}, {}, false), Watchdog(0, false, false))
  }

  lemma Arrives(m: nat) returns (mid: State, moves: seq<Move>)
    ensures Leads(Boot(false), moves, m, 0, mid) && FirstStart(mid, StartEnter, Boot(false).rt)
  {
    var (s, entry, c) := (Boot(false), Waiting(ToRun(UserStart)), Always(true, m));
    var s1 := s.(threads := s.threads + [entry]);
    mid := Step(s1, 0, c);
    LeadsBegin(s, entry, m);
    LeadsTurn(s1, 0, c, m);
    LeadsOn(s, [Begin(entry)], [Turn(0, c)], m, 0, 0, s1, mid);
    moves := [Begin(entry)] + [Turn(0, c)];
  }

  lemma StartsFirst(m: nat) returns (mid: State, moves: seq<Move>)
    ensures Leads(Boot(false), moves, m, 0, mid) && FirstStart(mid, StartPrep, Boot(false).rt.(starting := true))
  {
    var c := Always(true, m);
    var enter, before := Arrives(m);
    mid := Step(enter, 0, c);
    LeadsTurn(enter, 0, c, m);
    LeadsOn(Boot(false), before, [Turn(0, c)], m, 0, 0, enter, mid);
    moves := before + [Turn(0, c)];
  }

  lemma CommitsFirst(s: State, m: nat) returns (mid: State, moves: seq<Move>)
    requires FirstStart(s, StartPrep, Boot(false).rt.(starting := true))
    ensures Leads(s, moves, m, 0, mid) && FirstStart(mid, StartStatus, FirstCore(true))
  {
    var c := Always(true, m);
    var s1 := Step(s, 0, c);
    var s2 := Step(s1, 0, c);
    mid := Step(s2, 0, c);
    LeadsTurn(s, 0, c, m);
    LeadsTurn(s1, 0, c, m);
    LeadsTurn(s2, 0, c, m);
    LeadsOn(s1, [Turn(0, c)], [Turn(0, c)], m, 0, 0, s2, mid);
    LeadsOn(s, [Turn(0, c)], [Turn(0, c)] + [Turn(0, c)], m, 0, 0, s1, mid);
    moves := [Turn(0, c)] + ([Turn(0, c)] + [Turn(0, c)]);
  }

  lemma ReportsFirst(s: State, m: nat) returns (mid: State, moves: seq<Move>)
    requires FirstStart(s, StartStatus, FirstCore(true))
    ensures Leads(s, moves, m, 0, mid) && FirstStart(mid, StartExit(true), FirstCore(true))
  {
    var c := Always(true, m);
    var s1 := Step(s, 0, c);
    mid := Step(s1, 0, c);
    LeadsTurn(s, 0, c, m);
    LeadsTurn(s1, 0, c, m);
    LeadsOn(s, [Turn(0, c)], [Turn(0, c)], m, 0, 0, s1, mid);
    moves := [Turn(0, c)] + [Turn(0, c)];
  }

  lemma ReadyFirst(s: State, m: nat) returns (end: State, moves: seq<Move>)
    requires FirstStart(s, StartExit(true), FirstCore(true))
    ensures Leads(s, moves, m, 0, end) && end == State([DONE], None, None, FirstCore(false))
  {
    var c := Always(true, m);
    var s1 := Step(s, 0, c);
    end := Step(s1, 0, c);
    LeadsTurn(s, 0, c, m);
    LeadsTurn(s1, 0, c, m);
    LeadsOn(s, [Turn(0, c)], [Turn(0, c)], m, 0, 0, s1, end);
    moves := [Turn(0, c)] + [Turn(0, c)];
  }

  /** The core dies, and the watchdog finds it. */
  lemma DiesFirst(s: State, m: nat) returns (end: State, moves: seq<Move>)
    requires s == State([DONE], None, None, FirstCore(false)) && m > 0
    ensures Leads(s, moves, m, 1, end) && Scheduled(end, 2, 1)
  {
    var (entry, c) := (Outside(WatchEntry), Always(true, m));
    var s1 := s.(rt := s.rt.(alive := s.rt.alive - {0}));
    var s2 := s1.(threads := s1.threads + [entry]);
    end := Step(s2, 1, c);
    LeadsDeath(s, 0, m);
    LeadsBegin(s1, entry, m);
    LeadsTurn(s2, 1, c, m);
    LeadsOn(s1, [Begin(entry)], [Turn(1, c)], m, 0, 1, s2, end);
    LeadsOn(s, [Death(0)], [Begin(entry)] + [Turn(1, c)], m, 0, 1, s1, end);
    moves := [Death(0)] + ([Begin(entry)] + [Turn(1, c)]);
  }

  /** From a fresh service: a start by the user commits and is ready, its core dies, and
      the watchdog schedules the first restart. */
  lemma CrashIsScheduled(m: nat) returns (end: State, moves: seq<Move>)
    requires m > 0
    ensures Leads(Boot(false), moves, m, 1, end) && Scheduled(end, 2, 1)
  {
    var s1, a := StartsFirst(m);
    var s2, b := CommitsFirst(s1, m);
    var s3, c := ReportsFirst(s2, m);
    var s4, d := ReadyFirst(s3, m);
    var s5, e := DiesFirst(s4, m);
    LeadsOn(s3, d, e, m, 0, 1, s4, s5);
    LeadsOn(s2, c, d + e, m, 0, 1, s3, s5);
    LeadsOn(s1, b, c + (d + e), m, 0, 1, s2, s5);
    LeadsOn(Boot(false), a, b + (c + (d + e)), m, 0, 1, s1, s5);
    end, moves := s5, a + (b + (c + (d + e)));
  }

  /** So for every retry limit there is a run of the service from its start in which a
      crash is followed by exactly as many restarts as the limit. */
  lemma LimitIsReachedFromBoot(m: nat) returns (moves: seq<Move>, run: seq<State>)
    requires m > 0
    ensures Legal(moves, m) && Launched(Boot(false), moves) == m
    ensures IsRun(run) && run[0] == Boot(false) && run[|run| - 1] == Final(Boot(false), moves)
  {
    var mid, crash := CrashIsScheduled(m);
    var end, rest := LimitIsReached(mid, 2, 1, m);
    LeadsOn(Boot(false), crash, rest, m, 1, m - 1, mid, end);
    moves := crash + rest;
    run := ScheduleIsRun([Boot(false)], moves, m);
  }

  /** And for every limit and every number there is one with at least that many restarts
      after the only start that anybody asked for. */
  lemma RestartsAreUnboundedFromBoot(m: nat, n: nat) returns (moves: seq<Move>, run: seq<State>)
    requires m > 0
    ensures Legal(moves, m) && Launched(Boot(false), moves) == n + 1
    ensures IsRun(run) && run[0] == Boot(false) && run[|run| - 1] == Final(Boot(false), moves)
  {
    var mid, crash := CrashIsScheduled(m);
    var end, rest := CommitsLiftTheLimit(mid, 2, 1, m, n);
    LeadsOn(Boot(false), crash, rest, m, 1, n, mid, end);
    moves := crash + rest;
    run := ScheduleIsRun([Boot(false)], moves, m);
  }
}
