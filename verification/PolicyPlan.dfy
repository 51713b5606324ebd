/** The bypass list, the rules planned for it, and the comparison. */
module PolicyPlan {
  import opened Options
  import opened Numbers
  import opened Address
  import opened PolicyRules
  import opened RuleTable

  /** Bypass rules that fit between the mark rule and the end of the window. */
  const CAPACITY: nat := PRIORITY_MAX - PRIORITY_MIN - 1

  // ---- the bypass list ------------------------------------------------------

  /** One call of `add` in buildTunPolicyBypassRulesForFamily. */
  function AddTarget(f: AddrFormat, acc: seq<string>, raw: string): seq<string> {
    var prefix := CanonicalPrefix(f, raw);
    if prefix.None? || prefix.value in acc then acc else acc + [prefix.value]
  }

  function Fold(add: (seq<string>, string) -> seq<string>, acc: seq<string>, raws: seq<string>): seq<string> {
    if raws == [] then acc else add(Fold(add, acc, raws[..|raws| - 1]), raws[|raws| - 1])
  }

  function Adding(f: AddrFormat): (seq<string>, string) -> seq<string> {
    (acc: seq<string>, raw: string) => AddTarget(f, acc, raw)
  }

  /** The bypass list of the candidates, starting from what is already listed. */
  function AddTargets(f: AddrFormat, acc: seq<string>, raws: seq<string>): seq<string> { Fold(Adding(f), acc, raws) }

  ghost predicate Distinct(s: seq<string>) {
    forall i, j :: 0 <= i < j < |s| ==> s[i] != s[j]
  }

  /** An entry of a bypass list: the canonical text of some prefix. */
  ghost predicate Canonical(f: AddrFormat, s: string) {
    exists p :: ValidPrefix(f, p) && s == PrefixText(f, p)
  }

  ghost predicate BypassList(f: AddrFormat, s: seq<string>) {
    Distinct(s) && forall x :: x in s ==> Canonical(f, x)
  }

  lemma {:induction false} AddTargetsIsBypassList(f: AddrFormat, acc: seq<string>, raws: seq<string>)
    requires Faithful(f) && BypassList(f, acc)
    ensures BypassList(f, AddTargets(f, acc, raws))
    decreases |raws|
  {
    if raws != [] {
      AddTargetsIsBypassList(f, acc, raws[..|raws| - 1]);
      var raw := raws[|raws| - 1];
      if CanonicalPrefix(f, raw).Some? {
        ParsedPrefixIsValid(f, raw);
        assert Canonical(f, CanonicalPrefix(f, raw).value);
      }
    }
  }

  /** A prefix is listed exactly when it was listed before or some candidate
      stands for it: nothing is lost, nothing is invented. */
  lemma {:induction false} AddTargetsMember(f: AddrFormat, acc: seq<string>, raws: seq<string>, x: string)
    ensures x in AddTargets(f, acc, raws) <==>
            x in acc || exists raw :: raw in raws && CanonicalPrefix(f, raw) == Some(x)
    decreases |raws|
  {
    if raws != [] {
      AddTargetsMember(f, acc, raws[..|raws| - 1], x);
      assert raws == raws[..|raws| - 1] + [raws[|raws| - 1]];
    }
  }

  lemma AddOne(f: AddrFormat, acc: seq<string>, raws: seq<string>, raw: string)
    ensures AddTargets(f, acc, raws + [raw]) == AddTarget(f, AddTargets(f, acc, raws), raw)
  {
    FoldOne(Adding(f), acc, raws, raw);
  }

  lemma FoldOne(add: (seq<string>, string) -> seq<string>, acc: seq<string>, raws: seq<string>, raw: string)
    ensures Fold(add, acc, raws + [raw]) == add(Fold(add, acc, raws), raw)
  {
    assert (raws + [raw])[..|raws|] == raws;
  }

  lemma {:induction false} FoldSplit(add: (seq<string>, string) -> seq<string>, acc: seq<string>, a: seq<string>,
                                     b: seq<string>)
    ensures Fold(add, acc, a + b) == Fold(add, Fold(add, acc, a), b)
    decreases |b|
  {
    if b == [] {
      assert a + b == a;
    } else {
      FoldSplit(add, acc, a, b[..|b| - 1]);
      assert a + b == a + b[..|b| - 1] + [b[|b| - 1]];
      FoldOne(add, acc, a + b[..|b| - 1], b[|b| - 1]);
    }
  }

  lemma {:induction false} FoldGrows(add: (seq<string>, string) -> seq<string>, acc: seq<string>, raws: seq<string>)
    requires forall s, raw :: s <= add(s, raw)
    ensures acc <= Fold(add, acc, raws)
    decreases |raws|
  {
    if raws != [] { FoldGrows(add, acc, raws[..|raws| - 1]); }
  }

  /** Later candidates only extend the list: what was added first stays first. */
  lemma AddTargetsExtends(f: AddrFormat, acc: seq<string>, a: seq<string>, b: seq<string>)
    ensures AddTargets(f, acc, a) <= AddTargets(f, acc, a + b)
    ensures AddTargets(f, acc, a + b) == AddTargets(f, AddTargets(f, acc, a), b)
  {
    FoldSplit(Adding(f), acc, a, b);
    FoldGrows(Adding(f), AddTargets(f, acc, a), b);
  }

  lemma {:induction false} AddTargetsLength(f: AddrFormat, acc: seq<string>, raws: seq<string>)
    ensures |AddTargets(f, acc, raws)| <= |acc| + |raws|
    decreases |raws|
  {
    if raws != [] { AddTargetsLength(f, acc, raws[..|raws| - 1]); }
  }

  // ---- the plan -------------------------------------------------------------

  /** The prefix that `ip rule add ... to <target>` stores. */
  function TargetPrefix(f: AddrFormat, target: string): Prefix {
    var p := ParsePrefix(f, target);
    if p.None? then Prefix(0, 0) else p.value
  }

  function TargetPrefixes(f: AddrFormat, bypass: seq<string>): (ps: seq<Prefix>)
    ensures |ps| == |bypass| && forall i :: 0 <= i < |ps| ==> ps[i] == TargetPrefix(f, bypass[i])
  {
    seq(|bypass|, i requires 0 <= i < |bypass| => TargetPrefix(f, bypass[i]))
  }

  /** The rules installed from one priority on. */
  function PlanFrom(prefixes: seq<Prefix>, priority: nat): seq<Rule> {
    if prefixes == [] || priority >= PRIORITY_MAX then [CatchAllRule(priority)]
    else [BypassRule(priority, prefixes[0])] + PlanFrom(prefixes[1..], priority + 1)
  }

  function PlanOf(prefixes: seq<Prefix>): seq<Rule> {
    [MarkRule(PRIORITY_MIN)] + PlanFrom(prefixes, PRIORITY_MIN + 1)
  }

  function Plan(f: AddrFormat, bypass: seq<string>): seq<Rule> { PlanOf(TargetPrefixes(f, bypass)) }

  lemma {:induction false} PlanFromLength(prefixes: seq<Prefix>, priority: nat)
    requires priority <= PRIORITY_MAX
    ensures |PlanFrom(prefixes, priority)| == Min(|prefixes|, PRIORITY_MAX - priority) + 1
    decreases |prefixes|
  {
    if prefixes != [] && priority < PRIORITY_MAX { PlanFromLength(prefixes[1..], priority + 1); }
  }

  lemma {:induction false} PlanFromAt(prefixes: seq<Prefix>, priority: nat, i: nat)
    requires i < |prefixes| && priority + i < PRIORITY_MAX && i < |PlanFrom(prefixes, priority)|
    ensures PlanFrom(prefixes, priority)[i] == BypassRule(priority + i, prefixes[i])
  {
    if i > 0 { PlanFromAt(prefixes[1..], priority + 1, i - 1); }
  }

  lemma {:induction false} PlanFromEnd(prefixes: seq<Prefix>, priority: nat)
    ensures var plan := PlanFrom(prefixes, priority);
            plan != [] && plan[|plan| - 1] == CatchAllRule(priority + |plan| - 1)
    decreases |prefixes|
  {
    if prefixes != [] && priority < PRIORITY_MAX { PlanFromEnd(prefixes[1..], priority + 1); }
  }

  /** The plan: the mark rule, one rule per listed prefix that fits, the
      catch-all; consecutive priorities from the start of the window. */
  lemma PlanShape(prefixes: seq<Prefix>)
    ensures var (plan, n) := (PlanOf(prefixes), Min(|prefixes|, CAPACITY));
            && |plan| == n + 2
            && plan[0] == MarkRule(PRIORITY_MIN)
            && (forall k :: 1 <= k <= n ==> plan[k] == BypassRule(PRIORITY_MIN + k, prefixes[k - 1]))
            && plan[n + 1] == CatchAllRule(PRIORITY_MIN + 1 + n)
  {
    PlanFromLength(prefixes, PRIORITY_MIN + 1);
    PlanFromEnd(prefixes, PRIORITY_MIN + 1);
    forall k | 1 <= k <= Min(|prefixes|, CAPACITY)
      ensures PlanOf(prefixes)[k] == BypassRule(PRIORITY_MIN + k, prefixes[k - 1])
    {
      PlanFromAt(prefixes, PRIORITY_MIN + 1, k - 1);
    }
  }

  lemma PlanPriorities(prefixes: seq<Prefix>)
    ensures var plan := PlanOf(prefixes);
            && (forall i :: 0 <= i < |plan| ==> plan[i].priority == PRIORITY_MIN + i && InWindow(plan[i]))
            && Sorted(plan)
  {
    PlanShape(prefixes);
  }

  // ---- how far an installation gets --------------------------------------------

  /** The kernel understands the text of a destination. */
  function Parses(f: AddrFormat): string -> bool { (target: string) => ParsePrefix(f, target).Some? }

  /** Whether command k succeeds: its rule is not there yet, and its target parses. */
  function Succeeds(parses: string -> bool, bypass: seq<string>, plan: seq<Rule>, rules: seq<Rule>): nat -> bool {
    (k: nat) => k < |plan| && plan[k] !in rules && (1 <= k < |plan| - 1 && k <= |bypass| ==> parses(bypass[k - 1]))
  }

  /** The first command from k on that fails, or the number of commands. */
  function FirstFailure(succeeds: nat -> bool, k: nat, n: nat): (m: nat)
    requires k <= n
    ensures k <= m <= n && (forall i :: k <= i < m ==> succeeds(i)) && (m < n ==> !succeeds(m))
    decreases n - k
  {
    if k == n || !succeeds(k) then k else FirstFailure(succeeds, k + 1, n)
  }

  lemma FirstFailureIs(succeeds: nat -> bool, n: nat, m: nat)
    requires m <= n && (forall i :: 0 <= i < m ==> succeeds(i)) && (m < n ==> !succeeds(m))
    ensures FirstFailure(succeeds, 0, n) == m
  {
  }

  /** How many rules of its plan an installation adds before a command fails. */
  function Reached(f: AddrFormat, rules: seq<Rule>, bypass: seq<string>): (m: nat)
    ensures m <= |Plan(f, bypass)|
  {
    FirstFailure(Succeeds(Parses(f), bypass, Plan(f, bypass), rules), 0, |Plan(f, bypass)|)
  }

  /** All commands of an installation succeed. */
  predicate Installable(f: AddrFormat, rules: seq<Rule>, bypass: seq<string>) {
    Reached(f, rules, bypass) == |Plan(f, bypass)|
  }

  /** The table after an installation, complete or not. */
  function AfterInstall(f: AddrFormat, rules: seq<Rule>, bypass: seq<string>): seq<Rule> {
    InsertAll(rules, Plan(f, bypass)[..Reached(f, rules, bypass)])
  }

  // ---- comparing ------------------------------------------------------------

  /** parseInstalledTunPolicyBypassTargets on a printed table. */
  function TargetsInto(read: Rule -> Option<string>, rules: seq<Rule>, acc: set<string>): set<string>
    decreases rules
  {
    if rules == [] then acc
    else
      var t := read(rules[0]);
      TargetsInto(read, rules[1..], if t.Some? then acc + {t.value} else acc)
  }

  function TargetsRead(read: Rule -> Option<string>, rules: seq<Rule>): set<string> { TargetsInto(read, rules, {}) }

  /** The bypass prefix read from the printed line of a rule. */
  function ReadBack(f: AddrFormat): Rule -> Option<string> { (r: Rule) => LineTarget(f, RuleLine(f, r)) }

  function InstalledTargets(f: AddrFormat, rules: seq<Rule>): set<string> { TargetsRead(ReadBack(f), rules) }

  lemma {:induction false} TargetsIntoMember(read: Rule -> Option<string>, rules: seq<Rule>, acc: set<string>,
                                             x: string)
    ensures x in TargetsInto(read, rules, acc) <==> x in acc || exists r :: r in rules && read(r) == Some(x)
    decreases rules
  {
    if rules != [] {
      var t := read(rules[0]);
      TargetsIntoMember(read, rules[1..], if t.Some? then acc + {t.value} else acc, x);
      assert rules == [rules[0]] + rules[1..];
    }
  }

  lemma TargetsReadMember(read: Rule -> Option<string>, rules: seq<Rule>, x: string)
    ensures x in TargetsRead(read, rules) <==> exists r :: r in rules && read(r) == Some(x)
  {
    TargetsIntoMember(read, rules, {}, x);
  }

  function SetOf(s: seq<string>): set<string> { set x | x in s }

  function Missing(f: AddrFormat, rules: seq<Rule>, desired: seq<string>): set<string> {
    SetOf(desired) - InstalledTargets(f, rules)
  }

  function Stale(f: AddrFormat, rules: seq<Rule>, desired: seq<string>): set<string> {
    InstalledTargets(f, rules) - SetOf(desired)
  }

  function IsZeroLength(f: AddrFormat): string -> bool { (target: string) => TargetPrefix(f, target).len == 0 }

  /** The entries that an installation cannot represent: those beyond the
      capacity of the window and those of length zero. */
  function LostEntries(zero: string -> bool, desired: seq<string>): set<string> {
    set i | 0 <= i < |desired| && (i >= CAPACITY || zero(desired[i])) :: desired[i]
  }

  function Unrepresentable(f: AddrFormat, desired: seq<string>): set<string> {
    LostEntries(IsZeroLength(f), desired)
  }

  function IsManaged(f: AddrFormat): Rule -> bool { (r: Rule) => Managed(f, r) }

  lemma CanonicalTarget(f: AddrFormat, s: string)
    requires Faithful(f) && Canonical(f, s)
    ensures ParsePrefix(f, s).Some? && ValidPrefix(f, TargetPrefix(f, s)) && s == PrefixText(f, TargetPrefix(f, s))
  {
    var p :| ValidPrefix(f, p) && s == PrefixText(f, p);
    ParsePrefixText(f, p);
  }

  /** A rule of the service's own that is no bypass. */
  ghost predicate ReadsAsOwn(own: Rule -> bool, read: Rule -> Option<string>, r: Rule) { own(r) && read(r) == None }

  /** The rule of an entry reads back as that entry, unless it has length zero: then it
      is not recognised at all. */
  ghost predicate ReadsAsEntry(own: Rule -> bool, read: Rule -> Option<string>, zero: bool, entry: string, r: Rule) {
    read(r) == (if zero then None else Some(entry)) && (own(r) <==> !zero)
  }

  /** The rules of a plan read back as what they stand for. */
  ghost predicate ReadsAs(own: Rule -> bool, read: Rule -> Option<string>, zero: string -> bool,
                          desired: seq<string>, plan: seq<Rule>) {
    && |plan| == Min(|desired|, CAPACITY) + 2
    && (forall k :: 0 <= k < |plan| ==> plan[k].priority == PRIORITY_MIN + k)
    && ReadsAsOwn(own, read, plan[0]) && ReadsAsOwn(own, read, plan[|plan| - 1])
    && forall k :: 1 <= k < |plan| - 1 ==> ReadsAsEntry(own, read, zero(desired[k - 1]), desired[k - 1], plan[k])
  }

  lemma MarkReads(f: AddrFormat, r: Rule)
    requires Faithful(f) && InWindow(r) && r == MarkRule(r.priority)
    ensures ReadsAsOwn(IsManaged(f), ReadBack(f), r)
  {
    MarkRuleIsManaged(f, r);
  }

  lemma CatchAllReads(f: AddrFormat, r: Rule)
    requires Faithful(f) && InWindow(r) && r == CatchAllRule(r.priority)
    ensures ReadsAsOwn(IsManaged(f), ReadBack(f), r)
  {
    CatchAllRuleIsManaged(f, r);
  }

  lemma EntryReads(f: AddrFormat, r: Rule, entry: string)
    requires Faithful(f) && Canonical(f, entry) && InWindow(r) && r == BypassRule(r.priority, TargetPrefix(f, entry))
    ensures ReadsAsEntry(IsManaged(f), ReadBack(f), IsZeroLength(f)(entry), entry, r)
  {
    CanonicalTarget(f, entry);
    BypassRuleReadsBack(f, r, TargetPrefix(f, entry));
  }

  lemma PlanEnds(f: AddrFormat, desired: seq<string>)
    requires Faithful(f)
    ensures var plan := Plan(f, desired);
            && |plan| == Min(|desired|, CAPACITY) + 2
            && ReadsAsOwn(IsManaged(f), ReadBack(f), plan[0]) && ReadsAsOwn(IsManaged(f), ReadBack(f), plan[|plan| - 1])
  {
    var plan := Plan(f, desired);
    PlanShape(TargetPrefixes(f, desired));
    PlanPriorities(TargetPrefixes(f, desired));
    MarkReads(f, plan[0]);
    CatchAllReads(f, plan[|plan| - 1]);
  }

  lemma PlanEntries(f: AddrFormat, desired: seq<string>)
    requires Faithful(f) && BypassList(f, desired)
    ensures var plan := Plan(f, desired);
            && |plan| == Min(|desired|, CAPACITY) + 2
            && (forall k :: 0 <= k < |plan| ==> plan[k].priority == PRIORITY_MIN + k)
            && forall k :: 1 <= k < |plan| - 1 ==>
                 ReadsAsEntry(IsManaged(f), ReadBack(f), IsZeroLength(f)(desired[k - 1]), desired[k - 1], plan[k])
  {
    var (prefixes, plan) := (TargetPrefixes(f, desired), Plan(f, desired));
    PlanShape(prefixes);
    PlanPriorities(prefixes);
    forall k | 1 <= k < |plan| - 1
      ensures ReadsAsEntry(IsManaged(f), ReadBack(f), IsZeroLength(f)(desired[k - 1]), desired[k - 1], plan[k])
    {
      assert desired[k - 1] in desired;
      EntryReads(f, plan[k], desired[k - 1]);
    }
  }

  lemma PlanReadsAs(f: AddrFormat, desired: seq<string>)
    requires Faithful(f) && BypassList(f, desired)
    ensures ReadsAs(IsManaged(f), ReadBack(f), IsZeroLength(f), desired, Plan(f, desired))
  {
    PlanEnds(f, desired);
    PlanEntries(f, desired);
  }

  /** The entries whose rules are among the first m of the plan and read back. */
  function ReachedTargets(zero: string -> bool, desired: seq<string>, m: nat): set<string> {
    set i | 0 <= i < |desired| && i < CAPACITY && i + 1 < m && !zero(desired[i]) :: desired[i]
  }

  lemma ReadIsReached(own: Rule -> bool, read: Rule -> Option<string>, zero: string -> bool, desired: seq<string>,
                      plan: seq<Rule>, m: nat, k: nat, x: string)
    requires ReadsAs(own, read, zero, desired, plan) && k < m <= |plan| && read(plan[k]) == Some(x)
    ensures x in ReachedTargets(zero, desired, m)
  {
    assert x == desired[k - 1] && !zero(x);
  }

  lemma ReachedIsRead(own: Rule -> bool, read: Rule -> Option<string>, zero: string -> bool, desired: seq<string>,
                      plan: seq<Rule>, m: nat, x: string)
    requires ReadsAs(own, read, zero, desired, plan) && m <= |plan| && x in ReachedTargets(zero, desired, m)
    ensures exists r :: r in plan[..m] && read(r) == Some(x)
  {
    var i :| 0 <= i < |desired| && i < CAPACITY && i + 1 < m && !zero(desired[i]) && desired[i] == x;
    assert plan[..m][i + 1] == plan[i + 1];
  }

  lemma ReadByIndex(own: Rule -> bool, read: Rule -> Option<string>, zero: string -> bool, desired: seq<string>,
                    plan: seq<Rule>, m: nat, x: string)
    requires ReadsAs(own, read, zero, desired, plan) && m <= |plan|
    ensures x in TargetsRead(read, plan[..m]) <==> x in ReachedTargets(zero, desired, m)
  {
    TargetsReadMember(read, plan[..m], x);
    if r :| r in plan[..m] && read(r) == Some(x) {
      var k :| 0 <= k < m && plan[k] == r;
      ReadIsReached(own, read, zero, desired, plan, m, k, x);
    }
    if x in ReachedTargets(zero, desired, m) { ReachedIsRead(own, read, zero, desired, plan, m, x); }
  }

  lemma ReadsReached(own: Rule -> bool, read: Rule -> Option<string>, zero: string -> bool, desired: seq<string>,
                     plan: seq<Rule>, m: nat)
    requires ReadsAs(own, read, zero, desired, plan) && m <= |plan|
    ensures TargetsRead(read, plan[..m]) == ReachedTargets(zero, desired, m)
  {
    forall x ensures x in TargetsRead(read, plan[..m]) <==> x in ReachedTargets(zero, desired, m) {
      ReadByIndex(own, read, zero, desired, plan, m, x);
    }
  }

  /** What is read from a table after insertions: what was read before, and what is
      read from the new rules. */
  lemma ReadsBoth(read: Rule -> Option<string>, base: seq<Rule>, added: seq<Rule>)
    ensures TargetsRead(read, InsertAll(base, added)) == TargetsRead(read, base) + TargetsRead(read, added)
  {
    forall x
      ensures x in TargetsRead(read, InsertAll(base, added))
              <==> x in TargetsRead(read, base) || x in TargetsRead(read, added)
    {
      ReadsBothAt(read, base, added, x);
    }
  }

  lemma ReadsBothAt(read: Rule -> Option<string>, base: seq<Rule>, added: seq<Rule>, x: string)
    ensures x in TargetsRead(read, InsertAll(base, added))
            <==> x in TargetsRead(read, base) || x in TargetsRead(read, added)
  {
    TargetsReadMember(read, InsertAll(base, added), x);
    TargetsReadMember(read, base, x);
    TargetsReadMember(read, added, x);
    forall r
      ensures r in InsertAll(base, added) <==> r in base || r in added
    {
      InsertAllMember(base, added, r);
    }
  }

  /** What the service reads after an installation that got as far as m rules. */
  lemma TargetsAfterInstall(f: AddrFormat, base: seq<Rule>, desired: seq<string>, m: nat)
    requires Faithful(f) && BypassList(f, desired) && m <= |Plan(f, desired)|
    ensures InstalledTargets(f, InsertAll(base, Plan(f, desired)[..m]))
            == InstalledTargets(f, base) + ReachedTargets(IsZeroLength(f), desired, m)
  {
    PlanReadsAs(f, desired);
    ReadsBoth(ReadBack(f), base, Plan(f, desired)[..m]);
    ReadsReached(IsManaged(f), ReadBack(f), IsZeroLength(f), desired, Plan(f, desired), m);
  }

  lemma UnmanagedReadsNothing(f: AddrFormat, base: seq<Rule>)
    requires forall r :: r in base ==> !Managed(f, r)
    ensures InstalledTargets(f, base) == {}
  {
    forall x ensures x !in InstalledTargets(f, base) {
      TargetsReadMember(ReadBack(f), base, x);
      forall r | r in base ensures ReadBack(f)(r) != Some(x) { TargetImpliesManaged(f, r); }
    }
  }

  /** A complete installation reaches all entries but the lost ones. */
  lemma ReachedOrLost(zero: string -> bool, desired: seq<string>)
    requires Distinct(desired)
    ensures var reached := ReachedTargets(zero, desired, Min(|desired|, CAPACITY) + 2);
            SetOf(desired) - reached == LostEntries(zero, desired) && reached - SetOf(desired) == {}
  {
    var reached := ReachedTargets(zero, desired, Min(|desired|, CAPACITY) + 2);
    forall x ensures x in SetOf(desired) - reached <==> x in LostEntries(zero, desired) {
      if x in desired {
        var i :| 0 <= i < |desired| && desired[i] == x;
        assert x in reached <==> i < CAPACITY && !zero(x);
      }
    }
  }

  lemma DriftOfSets(desired: set<string>, installed: set<string>, reached: set<string>, lost: set<string>)
    requires installed == {} + reached && desired - reached == lost && reached - desired == {}
    ensures desired - installed == lost && installed - desired == {}
  {
    assert installed == reached;
  }

  /** Installing a bypass list on a table without managed rules: afterwards
      nothing is stale, and what is missing is exactly what cannot be represented. */
  lemma DriftAfterInstall(f: AddrFormat, base: seq<Rule>, desired: seq<string>)
    requires Faithful(f) && BypassList(f, desired)
    requires forall r :: r in base ==> !Managed(f, r)
    ensures var rules := InsertAll(base, Plan(f, desired));
            Missing(f, rules, desired) == Unrepresentable(f, desired) && Stale(f, rules, desired) == {}
  {
    var (zero, plan, n) := (IsZeroLength(f), Plan(f, desired), |Plan(f, desired)|);
    PlanEnds(f, desired);
    TargetsAfterInstall(f, base, desired, n);
    UnmanagedReadsNothing(f, base);
    ReachedOrLost(zero, desired);
    assert plan[..n] == plan;
    DriftOfSets(SetOf(desired), InstalledTargets(f, InsertAll(base, plan)), ReachedTargets(zero, desired, n),
                LostEntries(zero, desired));
  }

  lemma NothingLostIff(zero: string -> bool, desired: seq<string>)
    ensures LostEntries(zero, desired) == {} <==> |desired| <= CAPACITY && forall x :: x in desired ==> !zero(x)
  {
    assert forall i :: 0 <= i < |desired| && (i >= CAPACITY || zero(desired[i])) ==>
                         desired[i] in LostEntries(zero, desired);
    assert |desired| > CAPACITY ==> desired[CAPACITY] in LostEntries(zero, desired);
  }

  /** The next comparison is clean exactly when the list fits the window and has
      no entry of length zero. */
  lemma ConvergesIff(f: AddrFormat, base: seq<Rule>, desired: seq<string>)
    requires Faithful(f) && BypassList(f, desired)
    requires forall r :: r in base ==> !Managed(f, r)
    ensures var rules := InsertAll(base, Plan(f, desired));
            Missing(f, rules, desired) == {} && Stale(f, rules, desired) == {}
            <==> |desired| <= CAPACITY && forall x :: x in desired ==> TargetPrefix(f, x).len > 0
  {
    DriftAfterInstall(f, base, desired);
    NothingLostIff(IsZeroLength(f), desired);
  }
}
