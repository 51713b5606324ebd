/** What repeated rebuilds of one bypass list come to. */
module PolicyRebuild {
  import opened Options
  import opened Numbers
  import opened Text
  import opened Address
  import opened PolicyRules
  import opened RuleTable
  import opened PolicyPlan
  import opened PolicyMeaning
  import opened PolicyRouting

  // ---- when an installation goes through --------------------------------------------

  lemma EntriesParse(f: AddrFormat, desired: seq<string>)
    requires Faithful(f) && BypassList(f, desired)
    ensures forall x :: x in desired ==> Parses(f)(x)
  {
    forall x | x in desired ensures Parses(f)(x) { CanonicalTarget(f, x); }
  }

  /** The first m rules are new, and the next one is not. */
  ghost predicate NewUpTo(plan: seq<Rule>, rules: seq<Rule>, m: nat) {
    && m <= |plan|
    && (forall k :: 0 <= k < m ==> plan[k] !in rules)
    && (m < |plan| ==> plan[m] in rules)
  }

  /** The entries of a bypass list parse, so an installation stops at the first planned
      rule that is there already. */
  lemma StopsAtPresent(parses: string -> bool, bypass: seq<string>, plan: seq<Rule>, rules: seq<Rule>)
    requires forall x :: x in bypass ==> parses(x)
    ensures NewUpTo(plan, rules, FirstFailure(Succeeds(parses, bypass, plan, rules), 0, |plan|))
  {
    var succeeds := Succeeds(parses, bypass, plan, rules);
    var m := FirstFailure(succeeds, 0, |plan|);
    forall k | 0 <= k < m ensures plan[k] !in rules { assert succeeds(k); }
  }

  lemma ReachedIs(f: AddrFormat, rules: seq<Rule>, desired: seq<string>)
    requires Faithful(f) && BypassList(f, desired)
    ensures NewUpTo(Plan(f, desired), rules, Reached(f, rules, desired))
  {
    EntriesParse(f, desired);
    StopsAtPresent(Parses(f), desired, Plan(f, desired), rules);
  }

  ghost predicate NoneIn(plan: seq<Rule>, rules: seq<Rule>) { forall k :: 0 <= k < |plan| ==> plan[k] !in rules }

  /** An installation goes through exactly if none of its rules is there yet. */
  lemma InstallableIff(f: AddrFormat, rules: seq<Rule>, desired: seq<string>)
    requires Faithful(f) && BypassList(f, desired)
    ensures Installable(f, rules, desired) <==> NoneIn(Plan(f, desired), rules)
  {
    ReachedIs(f, rules, desired);
    NoneInIff(Plan(f, desired), rules, Reached(f, rules, desired));
  }

  lemma NoneInIff(plan: seq<Rule>, rules: seq<Rule>, m: nat)
    requires NewUpTo(plan, rules, m)
    ensures m == |plan| <==> NoneIn(plan, rules)
  {
  }

  // ---- what a rebuild leaves in force --------------------------------------------------

  /** Which rules of a plan are in the table after the first m were added. */
  lemma PlannedIn(left: seq<Rule>, plan: seq<Rule>, m: nat, k: nat)
    requires Consecutive(plan) && m <= |plan| && k < |plan|
    ensures plan[k] in InsertAll(left, plan[..m]) <==> k < m || plan[k] in left
  {
    InsertAllMember(left, plan[..m], plan[k]);
    if k < m { assert plan[..m][k] == plan[k]; }
  }

  ghost predicate InForce(plan: seq<Rule>, rules: seq<Rule>) { forall k :: 0 <= k < |plan| ==> plan[k] in rules }

  /** From rule m on, the plan is what the clearing left. */
  ghost predicate RestSurvived(plan: seq<Rule>, left: seq<Rule>, m: nat) {
    forall k :: m <= k < |plan| ==> plan[k] in left
  }

  ghost predicate InForceIff(plan: seq<Rule>, left: seq<Rule>, m: nat, rules: seq<Rule>) {
    && (InForce(plan, rules) <==> RestSurvived(plan, left, m))
    && plan != [] && plan[0] in rules
    && (plan[|plan| - 1] in rules <==> m == |plan| || plan[|plan| - 1] in left)
  }

  lemma InForceOf(left: seq<Rule>, plan: seq<Rule>, m: nat)
    requires Consecutive(plan) && plan != [] && NewUpTo(plan, left, m)
    ensures InForceIff(plan, left, m, InsertAll(left, plan[..m]))
  {
    forall k | 0 <= k < |plan|
      ensures plan[k] in InsertAll(left, plan[..m]) <==> k < m || plan[k] in left
    {
      PlannedIn(left, plan, m, k);
    }
  }

  /** A rebuild leaves the whole plan in force exactly if every rule that the installation
      did not reach survived the clearing. The mark rule is always there; the catch-all
      rule is there exactly if every command succeeded or it survived. */
  lemma RebuiltInForceIff(f: AddrFormat, rules: seq<Rule>, desired: seq<string>)
    requires Faithful(f) && BypassList(f, desired)
    ensures var left := Cleared(IsManaged(f), rules);
            InForceIff(Plan(f, desired), left, Reached(f, left, desired), Rebuilt(f, rules, desired))
  {
    var left := Cleared(IsManaged(f), rules);
    PlanParts(f, desired);
    ReachedIs(f, left, desired);
    InForceOf(left, Plan(f, desired), Reached(f, left, desired));
  }

  /** A foreign rule in front of a bypass in its slot is deleted in its place. */
  lemma ClearedBehind(own: Rule -> bool, mark: Rule, x: Rule, bypass: Rule, rest: seq<Rule>)
    requires own(mark) && !own(x) && own(bypass) && mark.priority < x.priority == bypass.priority
    requires forall y :: y in rest ==> own(y) && y.priority > bypass.priority
    ensures Cleared(own, [mark, x, bypass] + rest) == [bypass]
  {
    var (one, two, three) := ([bypass] + rest, [x, bypass] + rest, [mark, x, bypass] + rest);
    assert three[1..] == two && two[1..] == one && one[1..] == rest;
    assert ManagedFirst(own, rest);
    ClearKeepsForeign(own, [bypass], rest);
    FilterNone(Not(own), rest);
    assert ClearListed(own, three, three) == ClearListed(own, two, two);
    assert ClearListed(own, two, two) == ClearListed(own, one, two) == ClearListed(own, rest, one);
  }

  lemma OneEntryIsListed(f: AddrFormat, p: Prefix, text: string)
    requires Faithful(f) && ValidPrefix(f, p) && text == PrefixText(f, p)
    ensures BypassList(f, [text]) && TargetPrefixes(f, [text]) == [p]
  {
    ParsePrefixText(f, p);
    assert Canonical(f, text);
  }

  lemma OneEntryPlan(f: AddrFormat, p: Prefix, text: string)
    requires TargetPrefixes(f, [text]) == [p]
    ensures Plan(f, [text]) == [MarkRule(PRIORITY_MIN), BypassRule(PRIORITY_MIN + 1, p), CatchAllRule(PRIORITY_MIN + 2)]
  {
    PlanShape([p]);
  }

  lemma OwnRulesRead(f: AddrFormat, p: Prefix)
    requires Faithful(f) && ValidPrefix(f, p) && p.len > 0
    ensures var (mark, bypass) := (MarkRule(PRIORITY_MIN), BypassRule(PRIORITY_MIN + 1, p));
            && IsManaged(f)(mark) && IsManaged(f)(bypass)
            && ReadBack(f)(mark) == None && ReadBack(f)(bypass) == Some(PrefixText(f, p))
  {
    MarkRuleIsManaged(f, MarkRule(PRIORITY_MIN));
    BypassRuleReadsBack(f, BypassRule(PRIORITY_MIN + 1, p), p);
  }

  lemma AbortedInstall(f: AddrFormat, desired: seq<string>, bypass: Rule)
    requires Faithful(f) && BypassList(f, desired) && |Plan(f, desired)| >= 2 && Plan(f, desired)[1] == bypass
    ensures AfterInstall(f, [bypass], desired) == [Plan(f, desired)[0], bypass] && !Installable(f, [bypass], desired)
  {
    PlanParts(f, desired);
    ReachedIs(f, [bypass], desired);
    AbortedAtSecond(bypass, Plan(f, desired), Reached(f, [bypass], desired));
  }

  lemma CleanOfTargets(f: AddrFormat, rules: seq<Rule>, desired: seq<string>)
    requires InstalledTargets(f, rules) == SetOf(desired)
    ensures Clean(f, desired)(rules)
  {
  }

  lemma OneTargetIsClean(f: AddrFormat, p: Prefix)
    requires Faithful(f) && ValidPrefix(f, p) && p.len > 0
    ensures Clean(f, [PrefixText(f, p)])([MarkRule(PRIORITY_MIN), BypassRule(PRIORITY_MIN + 1, p)])
  {
    var (mark, bypass) := (MarkRule(PRIORITY_MIN), BypassRule(PRIORITY_MIN + 1, p));
    OwnRulesRead(f, p);
    OneTarget(ReadBack(f), mark, bypass, PrefixText(f, p));
    CleanOfTargets(f, [mark, bypass], [PrefixText(f, p)]);
  }

  lemma ClearedBehindOf(f: AddrFormat, p: Prefix, x: Rule, rest: seq<Rule>)
    requires Faithful(f) && ValidPrefix(f, p) && p.len > 0 && x.priority == PRIORITY_MIN + 1 && !IsManaged(f)(x)
    requires forall y :: y in rest ==> IsManaged(f)(y) && y.priority > PRIORITY_MIN + 1
    ensures Cleared(IsManaged(f), Behind(p, x, rest)) == [BypassRule(PRIORITY_MIN + 1, p)]
  {
    OwnRulesRead(f, p);
    ClearedBehind(IsManaged(f), MarkRule(PRIORITY_MIN), x, BypassRule(PRIORITY_MIN + 1, p), rest);
  }

  /** The mark rule, a rule x, behind it in the same slot the first bypass, and `rest`. */
  function Behind(p: Prefix, x: Rule, rest: seq<Rule>): seq<Rule> {
    [MarkRule(PRIORITY_MIN), x, BypassRule(PRIORITY_MIN + 1, p)] + rest
  }

  /** A foreign rule x stood in the slot of the only bypass before it was installed, and
      the list has not changed, or other bypasses were withdrawn (`rest` is what the
      service had installed behind). The rebuild deletes x in place of the bypass and
      aborts at the bypass: the catch-all is gone, and with it every rule that leads into
      the device, while the comparison is clean, so that no later tick repairs it. */
  lemma CleanWithoutCatchAll(f: AddrFormat, p: Prefix, desired: seq<string>, x: Rule, rest: seq<Rule>)
    requires Faithful(f) && ValidPrefix(f, p) && p.len > 0 && desired == [PrefixText(f, p)]
    requires x.priority == PRIORITY_MIN + 1 && !IsManaged(f)(x)
    requires forall y :: y in rest ==> IsManaged(f)(y) && y.priority > PRIORITY_MIN + 1
    ensures var (mark, bypass) := (MarkRule(PRIORITY_MIN), BypassRule(PRIORITY_MIN + 1, p));
            && Plan(f, desired) == [mark, bypass, CatchAllRule(PRIORITY_MIN + 2)]
            && Rebuilt(f, Behind(p, x, rest), desired) == [mark, bypass]
            && Clean(f, desired)([mark, bypass])
  {
    ClearedBehindOf(f, p, x, rest);
    OneEntryIsListed(f, p, PrefixText(f, p));
    OneEntryPlan(f, p, PrefixText(f, p));
    AbortedInstall(f, desired, BypassRule(PRIORITY_MIN + 1, p));
    OneTargetIsClean(f, p);
  }

  lemma AbortedAtSecond(bypass: Rule, plan: seq<Rule>, m: nat)
    requires |plan| >= 2 && Consecutive(plan) && plan[1] == bypass && NewUpTo(plan, [bypass], m)
    ensures m == 1 && InsertAll([bypass], plan[..m]) == [plan[0], bypass]
  {
    assert m == 1 by {
      assert plan[0] != bypass && bypass in [bypass];
    }
    assert plan[..1] == [plan[0]] && [plan[0]][1..] == [];
    assert Insert([bypass], plan[0]) == [plan[0], bypass];
  }

  lemma EmptyPlan(f: AddrFormat, desired: seq<string>)
    requires desired == []
    ensures Plan(f, desired) == [MarkRule(PRIORITY_MIN), CatchAllRule(PRIORITY_MIN + 1)]
  {
    PlanShape(TargetPrefixes(f, desired));
  }

  /** A failed installation can leave the whole plan in force all the same: here the
      catch-all rule is the one that survives the clearing and that stops it. */
  lemma InForceThoughOneSurvived(f: AddrFormat, desired: seq<string>, x: Rule, rest: seq<Rule>)
    requires Faithful(f) && desired == [] && rest == [] && x.priority == PRIORITY_MIN + 1 && !IsManaged(f)(x)
    ensures var (mark, all) := (MarkRule(PRIORITY_MIN), CatchAllRule(PRIORITY_MIN + 1));
            && Plan(f, desired) == [mark, all] && Cleared(IsManaged(f), [mark, x, all] + rest) == [all]
            && !Installable(f, [all], desired) && Rebuilt(f, [mark, x, all] + rest, desired) == [mark, all]
  {
    EmptyPlan(f, desired);
    MarkReads(f, MarkRule(PRIORITY_MIN));
    CatchAllReads(f, CatchAllRule(PRIORITY_MIN + 1));
    ClearedBehind(IsManaged(f), MarkRule(PRIORITY_MIN), x, CatchAllRule(PRIORITY_MIN + 1), rest);
    AbortedInstall(f, desired, CatchAllRule(PRIORITY_MIN + 1));
  }

  lemma OneTarget(read: Rule -> Option<string>, mark: Rule, bypass: Rule, text: string)
    requires read(mark) == None && read(bypass) == Some(text)
    ensures TargetsRead(read, [mark, bypass]) == {text} == SetOf([text])
  {
    forall y ensures y in TargetsRead(read, [mark, bypass]) <==> y == text {
      TargetsReadMember(read, [mark, bypass], y);
      if y == text { assert bypass in [mark, bypass]; }
    }
  }

  // ---- tables where foreign rules stand in front ------------------------------------------

  function Iterate(step: seq<Rule> -> seq<Rule>, rules: seq<Rule>, n: nat): seq<Rule>
    decreases n
  {
    if n == 0 then rules else Iterate(step, step(rules), n - 1)
  }

  lemma {:induction false} IterateLast(step: seq<Rule> -> seq<Rule>, rules: seq<Rule>, n: nat)
    ensures Iterate(step, rules, n + 1) == step(Iterate(step, rules, n))
    decreases n
  {
    if n > 0 { IterateLast(step, step(rules), n - 1); }
  }

  lemma {:induction false} IterateKeeps(holds: seq<Rule> -> bool, step: seq<Rule> -> seq<Rule>, rules: seq<Rule>,
                                        n: nat)
    requires holds(rules) && forall t {:trigger step(t)} :: holds(t) ==> holds(step(t))
    ensures holds(Iterate(step, rules, n))
    decreases n
  {
    if n > 0 { IterateKeeps(holds, step, step(rules), n - 1); }
  }

  lemma {:induction false} IterateStays(step: seq<Rule> -> seq<Rule>, rules: seq<Rule>, n: nat, m: nat)
    requires n <= m && step(Iterate(step, rules, n)) == Iterate(step, rules, n)
    ensures Iterate(step, rules, m) == Iterate(step, rules, n)
    decreases m
  {
    if n < m {
      IterateStays(step, rules, n, m - 1);
      IterateLast(step, rules, m - 1);
    }
  }

  function Round(f: AddrFormat, desired: seq<string>): seq<Rule> -> seq<Rule> {
    (rules: seq<Rule>) => Rebuilt(f, rules, desired)
  }

  /** The table after a number of rebuilds of one list. */
  function Rounds(f: AddrFormat, rules: seq<Rule>, desired: seq<string>, n: nat): seq<Rule> {
    Iterate(Round(f, desired), rules, n)
  }

  /** A rebuild costs at least one foreign rule whenever one stands in front of a managed
      one in its slot, and none otherwise. */
  lemma RoundCostsForeign(f: AddrFormat, rules: seq<Rule>, desired: seq<string>)
    requires Faithful(f) && BypassList(f, desired) && NoZeroLength(f, desired) && Sorted(rules)
    ensures var (own, rebuilt) := (IsManaged(f), Rebuilt(f, rules, desired));
            && Sorted(rebuilt) && Foreign(own, rebuilt) <= Foreign(own, rules)
            && (Foreign(own, rebuilt) == Foreign(own, rules) <==> ManagedFirst(own, rules))
  {
    PlanIsOwned(f, desired);
    AllOwnedIff(IsManaged(f), IsZeroLength(f), desired, Plan(f, desired));
    CostOfRound(IsManaged(f), rules, Plan(f, desired), Reached(f, Cleared(IsManaged(f), rules), desired));
  }

  lemma CostOfRound(own: Rule -> bool, rules: seq<Rule>, plan: seq<Rule>, m: nat)
    requires Sorted(rules) && AllOwned(own, plan) && m <= |plan|
    ensures var rebuilt := InsertAll(Cleared(own, rules), plan[..m]);
            && Sorted(rebuilt) && Foreign(own, rebuilt) <= Foreign(own, rules)
            && (Foreign(own, rebuilt) == Foreign(own, rules) <==> ManagedFirst(own, rules))
  {
    var base := Cleared(own, rules);
    ClearListedSorted(own, rules, rules);
    ClearCostsForeign(own, rules);
    FilterInsertNone(Not(own), base, plan[..m]);
    InsertAllSorted(base, plan[..m]);
  }

  /** The whole plan stands in the table, installed on foreign rules. */
  ghost predicate InPlace(own: Rule -> bool, plan: seq<Rule>, rules: seq<Rule>) {
    exists base :: InstalledOn(own, plan, base, rules)
  }

  ghost predicate InstalledOn(own: Rule -> bool, plan: seq<Rule>, base: seq<Rule>, rules: seq<Rule>) {
    Sorted(base) && (forall x :: x in base ==> !own(x) && x !in plan) && rules == InsertAll(base, plan)
  }

  /** On a table whose foreign rules stand behind, one rebuild installs everything. */
  lemma CleanRound(f: AddrFormat, rules: seq<Rule>, desired: seq<string>)
    requires Faithful(f) && BypassList(f, desired) && NoZeroLength(f, desired)
    requires Sorted(rules) && ManagedFirst(IsManaged(f), rules)
    ensures InPlace(IsManaged(f), Plan(f, desired), Rebuilt(f, rules, desired))
  {
    var (own, plan) := (IsManaged(f), Plan(f, desired));
    ClearedIsUnmanaged(own, rules);
    PlanIsOwned(f, desired);
    AllOwnedIff(own, IsZeroLength(f), desired, plan);
    InstallableIff(f, Cleared(own, rules), desired);
    ClearListedSorted(own, rules, rules);
    InPlaceAfter(own, plan, Cleared(own, rules), Reached(f, Cleared(own, rules), desired));
  }

  lemma InPlaceAfter(own: Rule -> bool, plan: seq<Rule>, base: seq<Rule>, m: nat)
    requires AllOwned(own, plan) && m == |plan| && Sorted(base) && forall x :: x in base ==> !own(x)
    ensures InPlace(own, plan, InsertAll(base, plan[..m]))
  {
    assert plan[..m] == plan;
    assert InstalledOn(own, plan, base, InsertAll(base, plan));
  }

  /** A step that costs something or gets there, gets there. */
  lemma {:induction false} IterateArrives(legal: seq<Rule> -> bool, cost: seq<Rule> -> nat,
                                          step: seq<Rule> -> seq<Rule>,
                                          there: seq<Rule> -> bool, rules: seq<Rule>)
    returns (n: nat)
    requires legal(rules)
    requires forall t {:trigger step(t)} ::
      legal(t) ==> legal(step(t)) && (there(step(t)) || cost(step(t)) < cost(t))
    ensures 1 <= n <= cost(rules) + 1 && there(Iterate(step, rules, n))
    decreases cost(rules)
  {
    var next := step(rules);
    if there(next) {
      n := 1;
      assert Iterate(step, rules, 1) == Iterate(step, next, 0);
    } else {
      n := IterateArrives(legal, cost, step, there, next);
      n := n + 1;
    }
  }

  ghost function IsSorted(): seq<Rule> -> bool { (rules: seq<Rule>) => Sorted(rules) }

  function ForeignIn(own: Rule -> bool): seq<Rule> -> nat { (rules: seq<Rule>) => Foreign(own, rules) }

  ghost function IsInPlace(own: Rule -> bool, plan: seq<Rule>): seq<Rule> -> bool {
    (rules: seq<Rule>) => InPlace(own, plan, rules)
  }

  lemma RoundArrives(f: AddrFormat, rules: seq<Rule>, desired: seq<string>)
    requires Faithful(f) && BypassList(f, desired) && NoZeroLength(f, desired) && Sorted(rules)
    ensures var (own, rebuilt) := (IsManaged(f), Rebuilt(f, rules, desired));
            && Sorted(rebuilt)
            && (InPlace(own, Plan(f, desired), rebuilt) || Foreign(own, rebuilt) < Foreign(own, rules))
  {
    RoundCostsForeign(f, rules, desired);
    if ManagedFirst(IsManaged(f), rules) { CleanRound(f, rules, desired); }
  }

  lemma RoundsArrive(f: AddrFormat, rules: seq<Rule>, desired: seq<string>) returns (n: nat)
    requires Faithful(f) && BypassList(f, desired) && NoZeroLength(f, desired) && Sorted(rules)
    ensures 1 <= n <= Foreign(IsManaged(f), rules) + 1
    ensures InPlace(IsManaged(f), Plan(f, desired), Rounds(f, rules, desired, n))
  {
    var (legal, cost, step) := (IsSorted(), ForeignIn(IsManaged(f)), Round(f, desired));
    var there := IsInPlace(IsManaged(f), Plan(f, desired));
    forall t {:trigger step(t)} | legal(t)
      ensures legal(step(t)) && (there(step(t)) || cost(step(t)) < cost(t))
    {
      RoundArrives(f, t, desired);
    }
    n := IterateArrives(legal, cost, step, there, rules);
  }

  lemma InPlaceDrift(f: AddrFormat, rules: seq<Rule>, desired: seq<string>)
    requires Faithful(f) && BypassList(f, desired) && InPlace(IsManaged(f), Plan(f, desired), rules)
    ensures Missing(f, rules, desired) == Unrepresentable(f, desired) && Stale(f, rules, desired) == {}
    ensures InForce(Plan(f, desired), rules)
  {
    var base :| InstalledOn(IsManaged(f), Plan(f, desired), base, rules);
    DriftAfterInstall(f, base, desired);
    forall r | r in Plan(f, desired) ensures r in rules { InsertAllMember(base, Plan(f, desired), r); }
  }

  /** From any table at all, at most one rebuild more than there are foreign rules leads
      to a table with the whole plan in place, mark, bypasses and catch-all, where nothing
      is stale and missing is exactly what does not fit: the comparison is clean if and
      only if the list has at most 998 entries. */
  lemma RebuildsConverge(f: AddrFormat, rules: seq<Rule>, inp: Inputs) returns (n: nat)
    requires Faithful(f) && Sorted(rules) && NoZeroLength(f, Desired(f, inp))
    ensures 1 <= n <= Foreign(IsManaged(f), rules) + 1
    ensures var (desired, table) := (Desired(f, inp), Rounds(f, rules, Desired(f, inp), n));
            && InPlace(IsManaged(f), Plan(f, desired), table) && InForce(Plan(f, desired), table)
            && Missing(f, table, desired) == Unrepresentable(f, desired) && Stale(f, table, desired) == {}
            && (Settled(f, table, inp) <==> |desired| <= CAPACITY)
  {
    DesiredIsBypassList(f, inp);
    n := RoundsArrive(f, rules, Desired(f, inp));
    InPlaceDrift(f, Rounds(f, rules, Desired(f, inp), n), Desired(f, inp));
    NothingLostIff(IsZeroLength(f), Desired(f, inp));
  }

  /** What such a table does to a packet: the plan decides unless a foreign rule of the
      window that applies stands at the deciding slot or before; and the plan leads into
      the device exactly the packets without the mark whose destination was not listed. */
  lemma InPlaceMeans(f: AddrFormat, rules: seq<Rule>, desired: seq<string>, pkt: Packet)
    requires Faithful(f) && BypassList(f, desired) && pkt.dst < Pow2(f.bits)
    requires InPlace(IsManaged(f), Plan(f, desired), rules)
    ensures var (all, plan) := (Deciding(Relevant(f, pkt), rules), Deciding(Relevant(f, pkt), Plan(f, desired)));
            && plan.Some? && plan.value.table == (if Bypassed(f, desired, pkt) then "main" else TABLE_TEXT)
            && (all == plan <==> forall r :: r in rules && r !in Plan(f, desired) && Relevant(f, pkt)(r)
                                             ==> r.priority > plan.value.priority)
  {
    var base :| InstalledOn(IsManaged(f), Plan(f, desired), base, rules);
    InstalledPolicyMeans(f, base, desired, pkt);
    forall r ensures r in base <==> r in rules && r !in Plan(f, desired) {
      InsertAllMember(base, Plan(f, desired), r);
    }
  }

  /** With the default of table 20230 on the device, such a table captures what it should. */
  lemma InPlaceCaptures(f: AddrFormat, rules: seq<Rule>, desired: seq<string>, device: string)
    requires Faithful(f) && BypassList(f, desired) && InPlace(IsManaged(f), Plan(f, desired), rules)
    ensures Captures(f, rules, Some(device), desired, device)
  {
    var base :| InstalledOn(IsManaged(f), Plan(f, desired), base, rules);
    InstallationCaptures(f, base, desired, device);
  }

  // ---- rebuilding only when the comparison is not clean ----------------------------------------

  /** The comparison that decides whether a tick rebuilds. */
  function Clean(f: AddrFormat, desired: seq<string>): seq<Rule> -> bool {
    (rules: seq<Rule>) => Missing(f, rules, desired) == {} && Stale(f, rules, desired) == {}
  }

  /** One tick of the reconciliation, for a list that does not change. */
  function Tick(f: AddrFormat, desired: seq<string>): seq<Rule> -> seq<Rule> {
    (rules: seq<Rule>) => if Clean(f, desired)(rules) then rules else Rebuilt(f, rules, desired)
  }

  lemma TickArrives(f: AddrFormat, rules: seq<Rule>, desired: seq<string>)
    requires Faithful(f) && BypassList(f, desired) && NoZeroLength(f, desired) && |desired| <= CAPACITY && Sorted(rules)
    ensures var (own, next) := (IsManaged(f), Tick(f, desired)(rules));
            Sorted(next) && (Clean(f, desired)(next) || Foreign(own, next) < Foreign(own, rules))
  {
    if !Clean(f, desired)(rules) {
      RoundArrives(f, rules, desired);
      if InPlace(IsManaged(f), Plan(f, desired), Rebuilt(f, rules, desired)) {
        InPlaceDrift(f, Rebuilt(f, rules, desired), desired);
        NothingLostIff(IsZeroLength(f), desired);
      }
    }
  }

  /** A step that costs something or gets there comes to rest there, if it rests there. */
  lemma IterateSettles(legal: seq<Rule> -> bool, cost: seq<Rule> -> nat, step: seq<Rule> -> seq<Rule>,
                       there: seq<Rule> -> bool, rules: seq<Rule>)
    returns (n: nat)
    requires legal(rules)
    requires forall t {:trigger step(t)} ::
      legal(t) ==> legal(step(t)) && (there(step(t)) || cost(step(t)) < cost(t))
    requires forall t {:trigger step(t)} :: there(t) ==> step(t) == t
    ensures 1 <= n <= cost(rules) + 1 && there(Iterate(step, rules, n))
    ensures forall m: nat :: n <= m ==> Iterate(step, rules, m) == Iterate(step, rules, n)
  {
    n := IterateArrives(legal, cost, step, there, rules);
    forall m: nat | n <= m ensures Iterate(step, rules, m) == Iterate(step, rules, n) {
      IterateStays(step, rules, n, m);
    }
  }

  /** Ticks come to rest: after at most one more than there are foreign rules the
      comparison is clean, and from then on nothing changes any more, whether the plan is
      in force or not. */
  lemma TicksSettle(f: AddrFormat, rules: seq<Rule>, desired: seq<string>) returns (n: nat)
    requires Faithful(f) && BypassList(f, desired) && NoZeroLength(f, desired) && |desired| <= CAPACITY && Sorted(rules)
    ensures 1 <= n <= Foreign(IsManaged(f), rules) + 1
    ensures Clean(f, desired)(Iterate(Tick(f, desired), rules, n))
    ensures forall m: nat :: n <= m ==> Iterate(Tick(f, desired), rules, m) == Iterate(Tick(f, desired), rules, n)
  {
    var (legal, cost, step, there) := (IsSorted(), ForeignIn(IsManaged(f)), Tick(f, desired), Clean(f, desired));
    forall t {:trigger step(t)} | legal(t)
      ensures legal(step(t)) && (there(step(t)) || cost(step(t)) < cost(t))
    {
      TickArrives(f, t, desired);
    }
    forall t {:trigger step(t)} | there(t) ensures step(t) == t { TickRests(f, t, desired); }
    n := IterateSettles(legal, cost, step, there, rules);
  }

  lemma TickRests(f: AddrFormat, rules: seq<Rule>, desired: seq<string>)
    requires Clean(f, desired)(rules)
    ensures Tick(f, desired)(rules) == rules
  {
  }

  // ---- entries of length zero ----------------------------------------------------------

  /** After an installation and a clearing, the same list can be installed again exactly
      if none of its entries that fit has length zero. */
  lemma ReinstallableIff(f: AddrFormat, base: seq<Rule>, desired: seq<string>)
    requires Faithful(f) && BypassList(f, desired) && Sorted(base) && Installable(f, base, desired)
    requires forall x :: x in base ==> !IsManaged(f)(x)
    requires ManagedFirst(IsManaged(f), InsertAll(base, Plan(f, desired)))
    ensures Installable(f, Cleared(IsManaged(f), InsertAll(base, Plan(f, desired))), desired)
            <==> NoZeroLength(f, desired)
  {
    var (own, plan) := (IsManaged(f), Plan(f, desired));
    InstallableIff(f, base, desired);
    InstallableIff(f, Cleared(own, InsertAll(base, plan)), desired);
    PlanIsOwned(f, desired);
    AllOwnedIff(own, IsZeroLength(f), desired, plan);
    NoneLeftIff(own, base, plan);
  }

  lemma NoneLeftIff(own: Rule -> bool, base: seq<Rule>, plan: seq<Rule>)
    requires NoneIn(plan, base) && (forall x :: x in base ==> !own(x)) && ManagedFirst(own, InsertAll(base, plan))
    ensures NoneIn(plan, Cleared(own, InsertAll(base, plan))) <==> AllOwned(own, plan)
  {
    var left := Cleared(own, InsertAll(base, plan));
    ClearedOfInstalled(own, base, plan);
    forall k | 0 <= k < |plan| ensures plan[k] !in left <==> own(plan[k]) {
      assert plan[k] in plan;
    }
  }

  /** Clearing leaves, of an installation on a table without managed rules, what is not
      recognised. */
  lemma ClearedOfInstalled(own: Rule -> bool, base: seq<Rule>, plan: seq<Rule>)
    requires ManagedFirst(own, InsertAll(base, plan)) && forall x :: x in base ==> !own(x)
    ensures forall x :: x in Cleared(own, InsertAll(base, plan)) <==> x in base || (x in plan && !own(x))
  {
    ClearedIsForeignIff(own, InsertAll(base, plan));
    forall x ensures x in Cleared(own, InsertAll(base, plan)) <==> x in base || (x in plan && !own(x)) {
      FilterMember(Not(own), InsertAll(base, plan), x);
      InsertAllMember(base, plan, x);
    }
  }

  /** An entry of length zero is installed as a rule that the service does not recognise,
      and clearing leaves it behind; every other entry is cleared, unless a foreign rule
      goes in its place. */
  lemma ZeroLengthEntryLeaksIff(f: AddrFormat, base: seq<Rule>, desired: seq<string>, k: nat)
    requires Faithful(f) && BypassList(f, desired) && Sorted(base) && 1 <= k <= Min(|desired|, CAPACITY)
    requires |Plan(f, desired)| == Min(|desired|, CAPACITY) + 2 && Plan(f, desired)[k] !in base
    requires forall x :: x in base ==> !IsManaged(f)(x)
    ensures var left := Cleared(IsManaged(f), InsertAll(base, Plan(f, desired)));
            && (IsZeroLength(f)(desired[k - 1]) ==> Plan(f, desired)[k] in left)
            && (ManagedFirst(IsManaged(f), InsertAll(base, Plan(f, desired))) ==>
                  (IsZeroLength(f)(desired[k - 1]) <==> Plan(f, desired)[k] in left))
  {
    PlanIsOwned(f, desired);
    LeaksIff(IsManaged(f), base, Plan(f, desired), k);
  }

  lemma LeaksIff(own: Rule -> bool, base: seq<Rule>, plan: seq<Rule>, k: nat)
    requires Consecutive(plan) && k < |plan| && plan[k] !in base && forall x :: x in base ==> !own(x)
    ensures var left := Cleared(own, InsertAll(base, plan));
            && (!own(plan[k]) ==> plan[k] in left)
            && (ManagedFirst(own, InsertAll(base, plan)) ==> (!own(plan[k]) <==> plan[k] in left))
  {
    if !own(plan[k]) {
      BlocksAfterInstall(own, base, plan, k);
      BlockingStays(own, plan[k], InsertAll(base, plan));
    }
    if ManagedFirst(own, InsertAll(base, plan)) { ClearedOfInstalled(own, base, plan); }
  }

  /** A rule that clearing does not recognise, in a slot without managed rules. */
  ghost predicate Blocks(own: Rule -> bool, r: Rule, rules: seq<Rule>) {
    r in rules && forall x :: x in rules && own(x) ==> x.priority != r.priority
  }

  lemma BlocksAfterInstall(own: Rule -> bool, base: seq<Rule>, plan: seq<Rule>, k: nat)
    requires Consecutive(plan) && k < |plan| && !own(plan[k]) && forall x :: x in base ==> !own(x)
    ensures Blocks(own, plan[k], InsertAll(base, plan))
  {
    InsertAllMember(base, plan, plan[k]);
    forall x | x in InsertAll(base, plan) && own(x)
      ensures x.priority != plan[k].priority
    {
      InsertAllMember(base, plan, x);
    }
  }

  lemma BlockingStays(own: Rule -> bool, r: Rule, rules: seq<Rule>)
    requires Blocks(own, r, rules)
    ensures r in Cleared(own, rules)
  {
    var slot := Filter(Slot(r.priority), rules);
    forall x | x in slot ensures !own(x) { FilterMember(Slot(r.priority), rules, x); }
    FilterNone(own, slot);
    OwnedAtMostSlot(own, rules, r.priority);
    ClearDropsFront(own, rules, rules, r.priority);
    assert slot[0..] == slot;
    FilterMember(Slot(r.priority), rules, r);
    FilterMember(Slot(r.priority), Cleared(own, rules), r);
  }

  /** A planned rule that blocks stops the installation at its slot, and goes on
      blocking. */
  lemma StillBlocks(own: Rule -> bool, plan: seq<Rule>, rules: seq<Rule>, k: nat, m: nat)
    requires Consecutive(plan) && k < |plan| && Blocks(own, plan[k], rules)
    requires NewUpTo(plan, Cleared(own, rules), m)
    ensures m <= k && Blocks(own, plan[k], InsertAll(Cleared(own, rules), plan[..m]))
  {
    var left := Cleared(own, rules);
    BlockingStays(own, plan[k], rules);
    InsertAllMember(left, plan[..m], plan[k]);
    forall x | x in InsertAll(left, plan[..m]) && own(x)
      ensures x.priority != plan[k].priority
    {
      InsertAllMember(left, plan[..m], x);
      ClearListedMember(own, rules, rules, x);
    }
  }

  ghost function IsBlocked(own: Rule -> bool, r: Rule): seq<Rule> -> bool {
    (rules: seq<Rule>) => Blocks(own, r, rules)
  }

  lemma BlocksForever(f: AddrFormat, rules: seq<Rule>, desired: seq<string>, k: nat, n: nat)
    requires Faithful(f) && BypassList(f, desired) && k < |Plan(f, desired)|
    requires Blocks(IsManaged(f), Plan(f, desired)[k], rules)
    ensures Blocks(IsManaged(f), Plan(f, desired)[k], Rounds(f, rules, desired, n))
  {
    var (holds, step) := (IsBlocked(IsManaged(f), Plan(f, desired)[k]), Round(f, desired));
    forall t {:trigger step(t)} | holds(t) ensures holds(step(t)) { BlockedRound(f, t, desired, k); }
    IterateKeeps(holds, step, rules, n);
  }

  lemma BlockedRound(f: AddrFormat, rules: seq<Rule>, desired: seq<string>, k: nat)
    requires Faithful(f) && BypassList(f, desired) && k < |Plan(f, desired)|
    requires Blocks(IsManaged(f), Plan(f, desired)[k], rules)
    ensures Blocks(IsManaged(f), Plan(f, desired)[k], Rebuilt(f, rules, desired))
    ensures Reached(f, Cleared(IsManaged(f), rules), desired) <= k
  {
    PlanParts(f, desired);
    ReachedIs(f, Cleared(IsManaged(f), rules), desired);
    StillBlocks(IsManaged(f), Plan(f, desired), rules, k, Reached(f, Cleared(IsManaged(f), rules), desired));
  }

  /** Once a list with an entry of length zero has been installed, no rebuild of it goes
      through again, however often it is tried and whatever foreign rules there are; and
      the catch-all rule is there for as many rebuilds as there were foreign rules in its
      slot, and never again afterwards. */
  lemma ZeroLengthStopsRebuilds(f: AddrFormat, base: seq<Rule>, desired: seq<string>, n: nat)
    requires Faithful(f) && BypassList(f, desired) && !NoZeroLength(f, desired)
    requires Sorted(base) && forall x :: x in base ==> !IsManaged(f)(x)
    ensures var (p, table) := (CatchAllPriority(desired), Rounds(f, InsertAll(base, Plan(f, desired)), desired, n));
            && !Installable(f, Cleared(IsManaged(f), table), desired)
            && (CatchAllRule(p) in table <==> n <= |Filter(Slot(p), base)|)
  {
    var k := ZeroLengthBlocks(f, base, desired);
    BlocksForever(f, InsertAll(base, Plan(f, desired)), desired, k, n);
    BlockedRound(f, Rounds(f, InsertAll(base, Plan(f, desired)), desired, n), desired, k);
    CatchAllSlotAfter(f, base, desired, k, n);
    CatchAllIsOwned(f, desired);
    CatchAllSlotHolds(CatchAllPriority(desired), base, Rounds(f, InsertAll(base, Plan(f, desired)), desired, n), n);
  }

  /** The catch-all rule comes behind the last bypass that fits. */
  function CatchAllPriority(desired: seq<string>): nat { PRIORITY_MIN + 1 + Min(|desired|, CAPACITY) }

  lemma ZeroLengthBlocks(f: AddrFormat, base: seq<Rule>, desired: seq<string>) returns (k: nat)
    requires Faithful(f) && BypassList(f, desired) && !NoZeroLength(f, desired)
    requires forall x :: x in base ==> !IsManaged(f)(x)
    ensures k < |Plan(f, desired)| - 1 && Blocks(IsManaged(f), Plan(f, desired)[k], InsertAll(base, Plan(f, desired)))
  {
    PlanIsOwned(f, desired);
    k := FirstUnowned(IsManaged(f), IsZeroLength(f), desired, Plan(f, desired));
    BlocksAfterInstall(IsManaged(f), base, Plan(f, desired), k);
  }

  lemma FirstUnowned(own: Rule -> bool, zero: string -> bool, desired: seq<string>, plan: seq<Rule>) returns (k: nat)
    requires OwnsPlan(own, zero, desired, plan) && !NoneFits(zero, desired)
    ensures k < |plan| - 1 && !own(plan[k])
  {
    var i :| 0 <= i < Min(|desired|, CAPACITY) && zero(desired[i]);
    k := i + 1;
  }

  /** Foreign rules, and behind them at most one of the service's own. */
  ghost predicate OnlyLastOwned(own: Rule -> bool, slot: seq<Rule>) {
    slot != [] ==> own(slot[|slot| - 1]) && forall i :: 0 <= i < |slot| - 1 ==> !own(slot[i])
  }

  function Shrunk(slot: seq<Rule>, n: nat): seq<Rule> { slot[Min(n, |slot|)..] }

  lemma OwnedOfSlot(own: Rule -> bool, slot: seq<Rule>)
    requires OnlyLastOwned(own, slot)
    ensures |Filter(own, slot)| == (if slot == [] then 0 else 1) && OnlyLastOwned(own, Shrunk(slot, 1))
  {
    if slot != [] {
      var (foreign, last) := (slot[..|slot| - 1], slot[|slot| - 1]);
      assert slot == foreign + [last];
      FilterConcat(own, foreign, [last]);
      FilterNone(own, foreign);
      assert [last][1..] == [];
    }
  }

  /** A table whose slot p loses its first rule to every clearing. */
  ghost predicate Loses(own: Rule -> bool, p: nat, r: Rule, rules: seq<Rule>) {
    Sorted(rules) && Blocks(own, r, rules) && OnlyLastOwned(own, Filter(Slot(p), rules))
  }

  lemma SlotLoses(own: Rule -> bool, p: nat, rules: seq<Rule>, added: seq<Rule>)
    requires Sorted(rules) && OnlyLastOwned(own, Filter(Slot(p), rules)) && forall x :: x in added ==> x.priority != p
    ensures var next := InsertAll(Cleared(own, rules), added);
            && Sorted(next) && Filter(Slot(p), next) == Shrunk(Filter(Slot(p), rules), 1)
            && OnlyLastOwned(own, Filter(Slot(p), next))
  {
    ClearListedSorted(own, rules, rules);
    InsertAllSorted(Cleared(own, rules), added);
    FilterInsertNone(Slot(p), Cleared(own, rules), added);
    OwnedAtMostSlot(own, rules, p);
    ClearDropsFront(own, rules, rules, p);
    OwnedOfSlot(own, Filter(Slot(p), rules));
  }

  lemma RoundLoses(f: AddrFormat, rules: seq<Rule>, desired: seq<string>, k: nat)
    requires Faithful(f) && BypassList(f, desired) && k < |Plan(f, desired)| - 1
    requires Loses(IsManaged(f), CatchAllPriority(desired), Plan(f, desired)[k], rules)
    ensures Loses(IsManaged(f), CatchAllPriority(desired), Plan(f, desired)[k], Rebuilt(f, rules, desired))
    ensures Filter(Slot(CatchAllPriority(desired)), Rebuilt(f, rules, desired))
            == Shrunk(Filter(Slot(CatchAllPriority(desired)), rules), 1)
  {
    PlanParts(f, desired);
    BlockedRound(f, rules, desired, k);
    FrontIsBelow(Plan(f, desired), Reached(f, Cleared(IsManaged(f), rules), desired), CatchAllPriority(desired));
    SlotLoses(IsManaged(f), CatchAllPriority(desired), rules,
              Plan(f, desired)[..Reached(f, Cleared(IsManaged(f), rules), desired)]);
  }

  lemma FrontIsBelow(plan: seq<Rule>, m: nat, p: nat)
    requires Consecutive(plan) && m <= |plan| && m <= p - PRIORITY_MIN
    ensures forall x :: x in plan[..m] ==> x.priority != p
  {
  }

  function SlotOf(p: nat): seq<Rule> -> seq<Rule> { (rules: seq<Rule>) => Filter(Slot(p), rules) }

  function Shrinking(): seq<Rule> -> seq<Rule> { (slot: seq<Rule>) => Shrunk(slot, 1) }

  /** What each step does to a part of the table, many steps do many times. */
  lemma {:induction false} IterateFollows(holds: seq<Rule> -> bool, partOf: seq<Rule> -> seq<Rule>,
                                          step: seq<Rule> -> seq<Rule>, change: seq<Rule> -> seq<Rule>,
                                          rules: seq<Rule>, n: nat)
    requires holds(rules)
    requires forall t {:trigger step(t)} :: holds(t) ==> holds(step(t)) && partOf(step(t)) == change(partOf(t))
    ensures partOf(Iterate(step, rules, n)) == Iterate(change, partOf(rules), n)
    decreases n
  {
    if n > 0 { IterateFollows(holds, partOf, step, change, step(rules), n - 1); }
  }

  lemma {:induction false} ShrinksMany(slot: seq<Rule>, n: nat)
    ensures Iterate(Shrinking(), slot, n) == Shrunk(slot, n)
    decreases n
  {
    if n > 0 {
      ShrinksMany(Shrunk(slot, 1), n - 1);
      ShrunkTwice(slot, n - 1);
    }
  }

  lemma ShrunkTwice(slot: seq<Rule>, n: nat)
    ensures Shrunk(Shrunk(slot, 1), n) == Shrunk(slot, n + 1)
  {
  }

  ghost function IsLosing(own: Rule -> bool, p: nat, r: Rule): seq<Rule> -> bool {
    (rules: seq<Rule>) => Loses(own, p, r, rules)
  }

  lemma CatchAllSlotAfter(f: AddrFormat, base: seq<Rule>, desired: seq<string>, k: nat, n: nat)
    requires Faithful(f) && BypassList(f, desired) && Sorted(base) && forall x :: x in base ==> !IsManaged(f)(x)
    requires k < |Plan(f, desired)| - 1 && Blocks(IsManaged(f), Plan(f, desired)[k], InsertAll(base, Plan(f, desired)))
    ensures var p := CatchAllPriority(desired);
            Filter(Slot(p), Rounds(f, InsertAll(base, Plan(f, desired)), desired, n))
            == Shrunk(Filter(Slot(p), base) + [CatchAllRule(p)], n)
  {
    var (p, start) := (CatchAllPriority(desired), InsertAll(base, Plan(f, desired)));
    var (holds, slotOf, step) := (IsLosing(IsManaged(f), p, Plan(f, desired)[k]), SlotOf(p), Round(f, desired));
    CatchAllSlotAtFirst(f, base, desired);
    assert holds(start);
    forall t {:trigger step(t)} | holds(t) ensures holds(step(t)) && slotOf(step(t)) == Shrinking()(slotOf(t)) {
      RoundLoses(f, t, desired, k);
    }
    IterateFollows(holds, slotOf, step, Shrinking(), start, n);
    ShrinksMany(slotOf(start), n);
  }

  lemma CatchAllIsOwned(f: AddrFormat, desired: seq<string>)
    requires Faithful(f)
    ensures IsManaged(f)(CatchAllRule(CatchAllPriority(desired)))
  {
    CatchAllRuleIsManaged(f, CatchAllRule(CatchAllPriority(desired)));
  }

  lemma CatchAllSlotAtFirst(f: AddrFormat, base: seq<Rule>, desired: seq<string>)
    requires Faithful(f) && BypassList(f, desired) && Sorted(base) && forall x :: x in base ==> !IsManaged(f)(x)
    ensures var (p, start) := (CatchAllPriority(desired), InsertAll(base, Plan(f, desired)));
            && Sorted(start) && Filter(Slot(p), start) == Filter(Slot(p), base) + [CatchAllRule(p)]
            && OnlyLastOwned(IsManaged(f), Filter(Slot(p), start))
  {
    PlanParts(f, desired);
    CatchAllIsOwned(f, desired);
    SlotOfLast(IsManaged(f), base, Plan(f, desired));
  }

  lemma SlotOfLast(own: Rule -> bool, base: seq<Rule>, plan: seq<Rule>)
    requires Sorted(base) && Consecutive(plan) && plan != [] && own(plan[|plan| - 1])
    requires forall x :: x in base ==> !own(x)
    ensures var (last, start) := (plan[|plan| - 1], InsertAll(base, plan));
            && Sorted(start) && Filter(Slot(last.priority), start) == Filter(Slot(last.priority), base) + [last]
            && OnlyLastOwned(own, Filter(Slot(last.priority), start))
  {
    InsertAllSorted(base, plan);
    SlotAfterInstall(base, plan, |plan| - 1);
    forall x | x in Filter(Slot(plan[|plan| - 1].priority), base) ensures !own(x) {
      FilterMember(Slot(plan[|plan| - 1].priority), base, x);
    }
  }

  lemma CatchAllSlotHolds(p: nat, base: seq<Rule>, table: seq<Rule>, n: nat)
    requires Filter(Slot(p), table) == Shrunk(Filter(Slot(p), base) + [CatchAllRule(p)], n)
    requires CatchAllRule(p) !in base
    ensures CatchAllRule(p) in table <==> n <= |Filter(Slot(p), base)|
  {
    var (foreign, last) := (Filter(Slot(p), base), CatchAllRule(p));
    FilterMember(Slot(p), table, last);
    FilterMember(Slot(p), base, last);
    if n <= |foreign| { assert Shrunk(foreign + [last], n)[|foreign| - n] == last; }
  }

  /** If no foreign rule sits in a slot that the plan uses, the aborted table does not
      change any more. */
  lemma AbortedTableStays(f: AddrFormat, base: seq<Rule>, desired: seq<string>)
    requires Faithful(f) && BypassList(f, desired) && Sorted(base) && Installable(f, base, desired)
    requires forall x :: x in base ==> !IsManaged(f)(x)
    requires forall x :: x in base ==> !(PRIORITY_MIN <= x.priority < PRIORITY_MIN + |Plan(f, desired)|)
    requires !NoZeroLength(f, desired)
    ensures var aborted := Rounds(f, InsertAll(base, Plan(f, desired)), desired, 1);
            Rebuilt(f, aborted, desired) == aborted
  {
    var (own, plan) := (IsManaged(f), Plan(f, desired));
    PlanIsOwned(f, desired);
    InstallableIff(f, base, desired);
    NoSharedSlot(own, base, plan);
    var left := Cleared(own, InsertAll(base, plan));
    LeftAfter(own, base, plan);
    ReinstallableIff(f, base, desired);
    ReachedIs(f, left, desired);
    AbortedTable(own, base, plan, left, Reached(f, left, desired));
    assert Rounds(f, InsertAll(base, plan), desired, 1) == Rebuilt(f, InsertAll(base, plan), desired) by {
      IterateLast(Round(f, desired), InsertAll(base, plan), 0);
    }
  }

  lemma NoSharedSlot(own: Rule -> bool, base: seq<Rule>, plan: seq<Rule>)
    requires Sorted(base) && forall x :: x in base ==> !own(x)
    requires Consecutive(plan)
    requires forall x :: x in base ==> !(PRIORITY_MIN <= x.priority < PRIORITY_MIN + |plan|)
    ensures ManagedFirst(own, InsertAll(base, plan))
  {
    SharedSlotIsUnordered(own, base, plan);
  }

  lemma LeftAfter(own: Rule -> bool, base: seq<Rule>, plan: seq<Rule>)
    requires Sorted(base) && (forall x :: x in base ==> !own(x)) && ManagedFirst(own, InsertAll(base, plan))
    ensures var left := Cleared(own, InsertAll(base, plan));
            Sorted(left) && forall x :: x in left <==> x in base || (x in plan && !own(x))
  {
    InsertAllSorted(base, plan);
    ClearListedSorted(own, InsertAll(base, plan), InsertAll(base, plan));
    ClearedOfInstalled(own, base, plan);
  }

  lemma AbortedTable(own: Rule -> bool, base: seq<Rule>, plan: seq<Rule>, left: seq<Rule>, n: nat)
    requires Sorted(left) && n < |plan| && Consecutive(plan)
    requires forall x :: x in base ==> !own(x) && !(PRIORITY_MIN <= x.priority < PRIORITY_MIN + |plan|)
    requires forall x :: x in left <==> x in base || (x in plan && !own(x))
    requires forall k :: 0 <= k < n ==> plan[k] !in left
    ensures Cleared(own, InsertAll(left, plan[..n])) == left
  {
    var front := plan[..n];
    forall k | 0 <= k < n ensures own(front[k]) && front[k].priority == PRIORITY_MIN + k { assert plan[k] in plan; }
    forall x | x in left ensures !(PRIORITY_MIN <= x.priority < PRIORITY_MIN + n) {
      if x in plan {
        var j :| 0 <= j < |plan| && plan[j] == x;
      }
    }
    InstallThenClearOwned(own, left, front);
  }

  lemma EverythingText()
    ensures PrefixText(V4, Prefix(0, 0)) == "0.0.0.0/0"
  {
    assert Itoa(0) == "0";
    assert PrintV4(0) == DottedText(0, 0, 0, 0);
  }

  /** On an empty table the list installs, once; no rebuild goes through again, and each
      leaves a table without the catch-all rule. */
  ghost predicate InstallsOnce(f: AddrFormat, desired: seq<string>) {
    && BypassList(f, desired) && Installable(f, [], desired)
    && forall n: nat ::
         var table := Rounds(f, AfterInstall(f, [], desired), desired, n);
         && !Installable(f, Cleared(IsManaged(f), table), desired)
         && (CatchAllRule(CatchAllPriority(desired)) in table <==> n == 0)
  }

  lemma ZeroLengthInstallsOnce(f: AddrFormat, p: Prefix, text: string)
    requires Faithful(f) && ValidPrefix(f, p) && p.len == 0 && text == PrefixText(f, p)
    ensures InstallsOnce(f, [text])
  {
    OneEntryIsListed(f, p, text);
    assert TargetPrefix(f, text) == TargetPrefixes(f, [text])[0] == p;
    assert IsZeroLength(f)([text][0]);
    forall n: nat { OnEmptyTable(f, [text], n); }
    OnEmptyTable(f, [text], 0);
  }

  /** An input that meets all this: the IPv4 list whose one entry is 0.0.0.0/0. */
  lemma EverythingInstallsOnce()
    ensures InstallsOnce(V4, ["0.0.0.0/0"])
  {
    V4IsFaithful();
    EverythingText();
    ZeroLengthInstallsOnce(V4, Prefix(0, 0), "0.0.0.0/0");
  }

  lemma OnEmptyTable(f: AddrFormat, desired: seq<string>, n: nat)
    requires Faithful(f) && BypassList(f, desired) && !NoZeroLength(f, desired)
    ensures var table := Rounds(f, AfterInstall(f, [], desired), desired, n);
            && Installable(f, [], desired)
            && !Installable(f, Cleared(IsManaged(f), table), desired)
            && (CatchAllRule(CatchAllPriority(desired)) in table <==> n == 0)
  {
    InstallableIff(f, [], desired);
    assert Plan(f, desired)[..|Plan(f, desired)|] == Plan(f, desired);
    ZeroLengthStopsRebuilds(f, [], desired, n);
  }

  // ---- an entry of length zero is always missing ---------------------------------------------

  /** The word "to" only announces a destination: no other selector of the rule is that. */
  predicate PlainSelectors(r: Rule) { r.src != Some("to") && "to" !in r.extra }

  lemma {:induction false} DestinationAfter(front: seq<string>, rest: seq<string>)
    requires "to" !in front
    ensures Destination(front + rest) == Destination(rest)
  {
    if front == [] {
      assert front + rest == rest;
    } else {
      assert (front + rest)[1..] == front[1..] + rest;
      DestinationAfter(front[1..], rest);
      if |front + rest| == 1 { assert front[1..] + rest == []; }
    }
  }

  lemma ToDestination(tag: string, source: string, text: string, more: seq<string>)
    requires tag != "to" && source != "to"
    ensures Destination([tag, "from", source] + (["to", text] + more)) == Some(text)
  {
    DestinationAfter([tag, "from", source], ["to", text] + more);
  }

  lemma NoToDestination(front: seq<string>, table: string)
    requires "to" !in front
    ensures Destination(front + ["lookup", table]) == None
  {
    DestinationAfter(front, ["lookup", table]);
    assert ["lookup", table][1..] == [table];
  }

  lemma SelectorParts(f: AddrFormat, r: Rule, source: string, marks: seq<string>)
    requires source == (if r.src.Some? then r.src.value else "all")
    requires marks == if r.mark.Some? then ["fwmark", "0x" + Hex(r.mark.value)] else []
    ensures RuleFields(f, r) == [Label(r), "from", source]
                                + ((if r.dst.Some? then ["to", KernelPrefixText(f, r.dst.value)] else [])
                                   + (marks + r.extra + ["lookup", r.table]))
  {
  }

  lemma MarksAreNotTo(r: Rule, marks: seq<string>)
    requires marks == if r.mark.Some? then ["fwmark", "0x" + Hex(r.mark.value)] else []
    ensures "to" !in marks
  {
    if r.mark.Some? { HexIsNotTo("0x" + Hex(r.mark.value)); }
  }

  /** The destination that the service reads is that of the rule. */
  lemma PlainDestination(f: AddrFormat, r: Rule)
    requires PlainSelectors(r)
    ensures Destination(RuleFields(f, r)) == if r.dst.Some? then Some(KernelPrefixText(f, r.dst.value)) else None
  {
    var source := if r.src.Some? then r.src.value else "all";
    var marks := if r.mark.Some? then ["fwmark", "0x" + Hex(r.mark.value)] else [];
    SelectorParts(f, r, source, marks);
    MarksAreNotTo(r, marks);
    LabelToken(r);
    TagIsNotTo(Label(r));
    if r.dst.Some? {
      ToDestination(Label(r), source, KernelPrefixText(f, r.dst.value), marks + r.extra + ["lookup", r.table]);
    } else {
      var front := [Label(r), "from", source] + (marks + r.extra);
      NoToDestination(front, r.table);
      assert RuleFields(f, r) == front + ["lookup", r.table];
    }
  }

  lemma ReadsNoZeroLength(f: AddrFormat, r: Rule, x: string)
    requires Faithful(f) && WellFormed(f, r) && PlainSelectors(r) && ReadBack(f)(r) == Some(x)
    ensures !IsZeroLength(f)(x)
  {
    LineIsItsFields(f, r);
    PlainDestination(f, r);
    KernelTextIsCanonical(f, r.dst.value);
    ParsePrefixText(f, r.dst.value);
  }

  /** A list with an entry of length zero is never found clean, on any table whatever. */
  lemma ZeroLengthNeverSettles(f: AddrFormat, rules: seq<Rule>, desired: seq<string>, x: string)
    requires Faithful(f) && x in desired && IsZeroLength(f)(x)
    requires forall r :: r in rules ==> WellFormed(f, r) && PlainSelectors(r)
    ensures x in Missing(f, rules, desired) && !Clean(f, desired)(rules)
  {
    TargetsReadMember(ReadBack(f), rules, x);
    forall r | r in rules ensures ReadBack(f)(r) != Some(x) {
      if ReadBack(f)(r) == Some(x) { ReadsNoZeroLength(f, r, x); }
    }
  }
}
