/** What an installed plan does to packets, and what clearing it gives back. */
module PolicyMeaning {
  import opened Options
  import opened Numbers
  import opened Address
  import opened PolicyRules
  import opened RuleTable
  import opened PolicyPlan

  // ---- which rule decides a packet --------------------------------------------

  /** A packet as a policy rule sees it. The selectors of foreign rules (source,
      interface, ...) are answered by two arbitrary predicates. */
  datatype Packet = Packet(mark: nat, dst: nat, fromSource: string -> bool, selectedBy: seq<string> -> bool)

  predicate InPrefix(f: AddrFormat, p: Prefix, addr: nat)
    requires p.len <= f.bits
  {
    addr / Pow2(f.bits - p.len) == p.addr / Pow2(f.bits - p.len)
  }

  predicate Matches(f: AddrFormat, r: Rule, pkt: Packet) {
    && (r.src.Some? ==> pkt.fromSource(r.src.value))
    && (r.dst.Some? ==> r.dst.value.len <= f.bits && InPrefix(f, r.dst.value, pkt.dst))
    && (r.mark.Some? ==> pkt.mark == r.mark.value)
    && (r.extra != [] ==> pkt.selectedBy(r.extra))
  }

  function Relevant(f: AddrFormat, pkt: Packet): Rule -> bool { (r: Rule) => InWindow(r) && Matches(f, r, pkt) }

  /** Rules are tried in table order; the first one that applies decides. */
  function Deciding(applies: Rule -> bool, rules: seq<Rule>): Option<Rule> {
    if rules == [] then None
    else if applies(rules[0]) then Some(rules[0])
    else Deciding(applies, rules[1..])
  }

  lemma {:induction false} DecidingIsFirstKept(applies: Rule -> bool, rules: seq<Rule>)
    ensures var kept := Filter(applies, rules);
            Deciding(applies, rules) == if kept == [] then None else Some(kept[0])
  {
    if rules != [] { DecidingIsFirstKept(applies, rules[1..]); }
  }

  lemma {:induction false} DecidingAt(applies: Rule -> bool, rules: seq<Rule>, k: nat)
    requires k < |rules| && applies(rules[k]) && forall i :: 0 <= i < k ==> !applies(rules[i])
    ensures Deciding(applies, rules) == Some(rules[k])
  {
    if k > 0 { DecidingAt(applies, rules[1..], k - 1); }
  }

  /** The packet carries the escape mark or goes to one of the first 998 prefixes. */
  ghost predicate Bypassed(f: AddrFormat, desired: seq<string>, pkt: Packet) {
    || pkt.mark == 0x2d11
    || exists i :: 0 <= i < Min(|desired|, 998) && HoldsDestination(f, pkt)(desired[i])
  }

  predicate InInstalled(f: AddrFormat, target: string, pkt: Packet) {
    var p := TargetPrefix(f, target);
    p.len <= f.bits && InPrefix(f, p, pkt.dst)
  }

  function HoldsDestination(f: AddrFormat, pkt: Packet): string -> bool {
    (target: string) => InInstalled(f, target, pkt)
  }

  lemma DivSmall(a: nat, d: nat)
    requires a < d
    ensures a / d == 0
  {
  }

  lemma ZeroLengthHoldsAll(f: AddrFormat, p: Prefix, addr: nat)
    requires p.len == 0 && p.addr < Pow2(f.bits) && addr < Pow2(f.bits)
    ensures InPrefix(f, p, addr)
  {
    DivSmall(addr, Pow2(f.bits));
    DivSmall(p.addr, Pow2(f.bits));
  }

  lemma BypassRuleMatches(f: AddrFormat, r: Rule, p: Prefix, pkt: Packet)
    requires ValidPrefix(f, p) && r == BypassRule(r.priority, p) && pkt.dst < Pow2(f.bits)
    ensures Matches(f, r, pkt) <==> InPrefix(f, p, pkt.dst)
  {
    if p.len == 0 { ZeroLengthHoldsAll(f, p, pkt.dst); }
  }

  /** Which rules of the plan apply to a packet. */
  lemma PlanApplies(f: AddrFormat, desired: seq<string>, pkt: Packet)
    requires Faithful(f) && BypassList(f, desired) && pkt.dst < Pow2(f.bits)
    ensures var (plan, applies, n) := (Plan(f, desired), Relevant(f, pkt), Min(|desired|, CAPACITY));
            && |plan| == n + 2 && (applies(plan[0]) <==> pkt.mark == BYPASS_MARK) && applies(plan[n + 1])
            && forall k :: 1 <= k <= n ==> (applies(plan[k]) <==> HoldsDestination(f, pkt)(desired[k - 1]))
  {
    var prefixes, plan := TargetPrefixes(f, desired), Plan(f, desired);
    PlanShape(prefixes);
    PlanPriorities(prefixes);
    forall k | 1 <= k <= Min(|desired|, CAPACITY)
      ensures Relevant(f, pkt)(plan[k]) <==> HoldsDestination(f, pkt)(desired[k - 1])
    {
      assert desired[k - 1] in desired;
      CanonicalTarget(f, desired[k - 1]);
      BypassRuleMatches(f, plan[k], prefixes[k - 1], pkt);
    }
  }

  lemma PlanDecides(f: AddrFormat, desired: seq<string>, pkt: Packet)
    requires Faithful(f) && BypassList(f, desired) && pkt.dst < Pow2(f.bits)
    ensures var d := Deciding(Relevant(f, pkt), Plan(f, desired));
            d.Some? && d.value.table == if Bypassed(f, desired, pkt) then "main" else TABLE_TEXT
  {
    var plan := Plan(f, desired);
    PlanShape(TargetPrefixes(f, desired));
    PlanApplies(f, desired, pkt);
    FirstDecides(Relevant(f, pkt), HoldsDestination(f, pkt), desired, plan, Min(|desired|, CAPACITY));
  }

  /** The first rule of a plan that applies: the mark rule, a rule for a destination that
      holds the packet, or the catch-all. */
  lemma FirstDecides(applies: Rule -> bool, holds: string -> bool, desired: seq<string>, plan: seq<Rule>, n: nat)
    requires n <= |desired| && |plan| == n + 2 && applies(plan[n + 1])
    requires forall k :: 1 <= k <= n ==> (applies(plan[k]) <==> holds(desired[k - 1]))
    requires forall k :: 0 <= k <= n ==> plan[k].table == "main"
    ensures Deciding(applies, plan).Some?
    ensures if applies(plan[0]) || exists i :: 0 <= i < n && holds(desired[i])
            then Deciding(applies, plan).value.table == "main" else Deciding(applies, plan).value == plan[n + 1]
  {
    if applies(plan[0]) {
      DecidingAt(applies, plan, 0);
    } else {
      var i := FirstHeld(holds, desired, n);
      DecidingAt(applies, plan, i + 1);
    }
  }

  lemma FirstHeld(holds: string -> bool, desired: seq<string>, n: nat) returns (i: nat)
    requires n <= |desired|
    ensures i <= n && (i < n ==> holds(desired[i])) && forall j :: 0 <= j < i ==> !holds(desired[j])
  {
    i := 0;
    while i < n && !holds(desired[i])
      invariant i <= n && forall j :: 0 <= j < i ==> !holds(desired[j])
    {
      i := i + 1;
    }
  }

  lemma {:induction false} FilterInserted(keep: Rule -> bool, base: seq<Rule>, plan: seq<Rule>)
    requires Sorted(base)
    ensures Filter(keep, InsertAll(base, plan)) == InsertAll(Filter(keep, base), Filter(keep, plan))
    decreases plan
  {
    if plan != [] {
      InsertSorted(base, plan[0]);
      FilterInsert(keep, base, plan[0]);
      FilterInserted(keep, Insert(base, plan[0]), plan[1..]);
      if keep(plan[0]) { assert ([plan[0]] + Filter(keep, plan[1..]))[1..] == Filter(keep, plan[1..]); }
    }
  }

  /** The first rule of a table after insertions: an old one, unless the first
      insertion goes before it. */
  lemma {:induction false} HeadInserted(base: seq<Rule>, plan: seq<Rule>)
    requires Sorted(base) && Sorted(plan) && plan != []
    ensures InsertAll(base, plan) != []
    ensures InsertAll(base, plan)[0] == if base != [] && base[0].priority <= plan[0].priority then base[0] else plan[0]
    decreases plan
  {
    InsertSorted(base, plan[0]);
    if |plan| > 1 {
      HeadInserted(Insert(base, plan[0]), plan[1..]);
    }
  }

  lemma {:induction false} FilterSorted(keep: Rule -> bool, rules: seq<Rule>)
    requires Sorted(rules)
    ensures Sorted(Filter(keep, rules))
  {
    if rules != [] {
      FilterSorted(keep, rules[1..]);
      forall x | x in Filter(keep, rules[1..])
        ensures rules[0].priority <= x.priority
      {
        FilterMember(keep, rules[1..], x);
      }
    }
  }

  lemma DecidesUnlessEarlier(applies: Rule -> bool, base: seq<Rule>, plan: seq<Rule>, p: Rule)
    requires Sorted(base) && Sorted(plan) && (forall r :: r in base ==> r !in plan)
    requires Deciding(applies, plan) == Some(p)
    ensures Deciding(applies, InsertAll(base, plan)) == Some(p)
            <==> forall r :: r in base && applies(r) ==> r.priority > p.priority
  {
    var (old', new') := (Filter(applies, base), Filter(applies, plan));
    DecidingIsFirstKept(applies, plan);
    DecidingIsFirstKept(applies, InsertAll(base, plan));
    FilterInserted(applies, base, plan);
    FilterSorted(applies, base);
    FilterSorted(applies, plan);
    HeadInserted(old', new');
    forall r
      ensures r in old' <==> r in base && applies(r)
    {
      FilterMember(applies, base, r);
    }
    FilterMember(applies, plan, p);
  }

  /** After an installation, the plan decides a packet unless an applicable foreign
      rule of the window stands at its slot or before; and what the plan decides is the
      main table exactly for marked packets and installed destinations, and table 20230
      otherwise. */
  lemma InstalledPolicyMeans(f: AddrFormat, base: seq<Rule>, desired: seq<string>, pkt: Packet)
    requires Faithful(f) && BypassList(f, desired) && pkt.dst < Pow2(f.bits) && Sorted(base)
    requires forall r :: r in base ==> r !in Plan(f, desired)
    ensures var all := Deciding(Relevant(f, pkt), InsertAll(base, Plan(f, desired)));
            var plan := Deciding(Relevant(f, pkt), Plan(f, desired));
            && plan.Some? && plan.value.table == (if Bypassed(f, desired, pkt) then "main" else TABLE_TEXT)
            && (all == plan <==> forall r :: r in base && Relevant(f, pkt)(r) ==> r.priority > plan.value.priority)
  {
    PlanDecides(f, desired, pkt);
    PlanPriorities(TargetPrefixes(f, desired));
    DecidesUnlessEarlier(Relevant(f, pkt), base, Plan(f, desired), Deciding(Relevant(f, pkt), Plan(f, desired)).value);
  }

  // ---- where packets go ---------------------------------------------------------

  /** Where a packet goes: by the main table, out through a device, or on to the rules
      behind the window and to foreign tables. */
  datatype Exit = ByMain | Device(name: string) | Elsewhere

  /** The exit of a packet, with the default route of table 20230. */
  function ExitOf(f: AddrFormat, rules: seq<Rule>, tunDefault: Option<string>, pkt: Packet): Exit {
    var d := Deciding(Relevant(f, pkt), rules);
    if d.Some? && d.value.table == "main" then ByMain
    else if d.Some? && d.value.table == "20230" && tunDefault.Some? then Device(tunDefault.value)
    else Elsewhere
  }

  /** A rule of the window that is not in the plan applies to the packet, and no planned
      rule that applies comes before it. */
  ghost predicate TakenByOther(applies: Rule -> bool, rules: seq<Rule>, plan: seq<Rule>) {
    exists r :: r in rules && r !in plan && applies(r)
                && forall q :: q in plan && applies(q) ==> r.priority <= q.priority
  }

  /** Every packet that no other rule takes leaves through the device, except those that
      carry the mark or go to one of the first 998 prefixes: they go by the main table. */
  ghost predicate Captures(f: AddrFormat, rules: seq<Rule>, tunDefault: Option<string>, desired: seq<string>,
                           device: string) {
    forall pkt: Packet {:trigger ExitOf(f, rules, tunDefault, pkt)} ::
      pkt.dst < Pow2(f.bits) && !TakenByOther(Relevant(f, pkt), rules, Plan(f, desired))
      ==> ExitOf(f, rules, tunDefault, pkt) == if Bypassed(f, desired, pkt) then ByMain else Device(device)
  }

  lemma {:induction false} DecidingIsLeast(applies: Rule -> bool, rules: seq<Rule>)
    requires Sorted(rules) && Deciding(applies, rules).Some?
    ensures var p := Deciding(applies, rules).value;
            p in rules && applies(p) && forall q :: q in rules && applies(q) ==> p.priority <= q.priority
  {
    if !applies(rules[0]) {
      DecidingIsLeast(applies, rules[1..]);
      assert rules == [rules[0]] + rules[1..];
    }
  }

  /** When no other rule takes a packet, those that apply to it stand behind the plan. */
  lemma NotTaken(applies: Rule -> bool, base: seq<Rule>, plan: seq<Rule>, p: Rule)
    requires Sorted(plan) && Deciding(applies, plan) == Some(p)
    requires forall r :: r in base ==> r !in plan
    requires !TakenByOther(applies, InsertAll(base, plan), plan)
    ensures forall r :: r in base && applies(r) ==> r.priority > p.priority
  {
    DecidingIsLeast(applies, plan);
    forall r | r in base && applies(r) ensures r.priority > p.priority {
      InsertAllMember(base, plan, r);
    }
  }

  lemma PlanExit(f: AddrFormat, base: seq<Rule>, desired: seq<string>, device: string, pkt: Packet)
    requires Faithful(f) && BypassList(f, desired) && pkt.dst < Pow2(f.bits) && Sorted(base)
    requires forall r :: r in base ==> r !in Plan(f, desired)
    requires !TakenByOther(Relevant(f, pkt), InsertAll(base, Plan(f, desired)), Plan(f, desired))
    ensures ExitOf(f, InsertAll(base, Plan(f, desired)), Some(device), pkt)
            == if Bypassed(f, desired, pkt) then ByMain else Device(device)
  {
    var (applies, plan) := (Relevant(f, pkt), Plan(f, desired));
    InstalledPolicyMeans(f, base, desired, pkt);
    PlanPriorities(TargetPrefixes(f, desired));
    NotTaken(applies, base, plan, Deciding(applies, plan).value);
  }

  /** After a complete installation with the default route on the device, the policy
      captures exactly what it should. */
  lemma InstallationCaptures(f: AddrFormat, base: seq<Rule>, desired: seq<string>, device: string)
    requires Faithful(f) && BypassList(f, desired) && Sorted(base)
    requires forall r :: r in base ==> r !in Plan(f, desired)
    ensures Captures(f, InsertAll(base, Plan(f, desired)), Some(device), desired, device)
  {
    var (rules, plan) := (InsertAll(base, Plan(f, desired)), Plan(f, desired));
    forall pkt: Packet {:trigger ExitOf(f, rules, Some(device), pkt)}
      | pkt.dst < Pow2(f.bits) && !TakenByOther(Relevant(f, pkt), rules, plan)
      ensures ExitOf(f, rules, Some(device), pkt) == if Bypassed(f, desired, pkt) then ByMain else Device(device)
    {
      PlanExit(f, base, desired, device, pkt);
    }
  }

  lemma TakenIsNotPlanned(applies: Rule -> bool, base: seq<Rule>, plan: seq<Rule>, p: Rule, r: Rule, d: Rule)
    requires Sorted(base) && Sorted(plan) && (forall x :: x in base ==> x !in plan)
    requires forall x, y :: x in plan && y in plan && x.priority == y.priority ==> x == y
    requires Deciding(applies, plan) == Some(p) && p in plan && p.priority <= d.priority <= r.priority <= p.priority
    requires r in base && applies(r) && Deciding(applies, InsertAll(base, plan)) == Some(d)
    ensures d !in plan
  {
    DecidesUnlessEarlier(applies, base, plan, p);
  }

  /** A foreign rule that takes a packet decides it instead. */
  lemma TakenDecides(f: AddrFormat, base: seq<Rule>, desired: seq<string>, pkt: Packet)
    requires Faithful(f) && BypassList(f, desired) && pkt.dst < Pow2(f.bits) && Sorted(base)
    requires forall r :: r in base ==> r !in Plan(f, desired)
    requires TakenByOther(Relevant(f, pkt), InsertAll(base, Plan(f, desired)), Plan(f, desired))
    ensures var d := Deciding(Relevant(f, pkt), InsertAll(base, Plan(f, desired))); d.Some? && d.value in base
  {
    PlanDecides(f, desired, pkt);
    PlanPriorities(TargetPrefixes(f, desired));
    TakenDecidesOf(Relevant(f, pkt), base, Plan(f, desired));
  }

  lemma TakenDecidesOf(applies: Rule -> bool, base: seq<Rule>, plan: seq<Rule>)
    requires Sorted(base) && Sorted(plan) && (forall x :: x in base ==> x !in plan) && Deciding(applies, plan).Some?
    requires forall x, y :: x in plan && y in plan && x.priority == y.priority ==> x == y
    requires TakenByOther(applies, InsertAll(base, plan), plan)
    ensures var d := Deciding(applies, InsertAll(base, plan)); d.Some? && d.value in base
  {
    var all := InsertAll(base, plan);
    var r :| r in all && r !in plan && applies(r) && forall q :: q in plan && applies(q) ==> r.priority <= q.priority;
    DecidingExists(applies, all, r);
    var (p, d) := (Deciding(applies, plan).value, Deciding(applies, all).value);
    InsertAllSorted(base, plan);
    DecidingIsLeast(applies, plan);
    DecidingIsLeast(applies, all);
    InsertAllMember(base, plan, r);
    InsertAllMember(base, plan, d);
    if d in plan { TakenIsNotPlanned(applies, base, plan, p, r, d); }
  }

  lemma {:induction false} DecidingExists(applies: Rule -> bool, rules: seq<Rule>, r: Rule)
    requires r in rules && applies(r)
    ensures Deciding(applies, rules).Some?
  {
    if !applies(rules[0]) { DecidingExists(applies, rules[1..], r); }
  }

  /** The prefixes added first (the proxy server's own) survive truncation. */
  lemma FirstCandidatesSurvive(f: AddrFormat, first: seq<string>, rest: seq<string>, x: string, pkt: Packet)
    ensures |first| <= CAPACITY && x in AddTargets(f, [], first) && InInstalled(f, x, pkt)
            ==> Bypassed(f, AddTargets(f, [], first + rest), pkt)
  {
    var list := AddTargets(f, [], first + rest);
    AddTargetsExtends(f, [], first, rest);
    AddTargetsLength(f, [], first);
    if i :| 0 <= i < |AddTargets(f, [], first)| && AddTargets(f, [], first)[i] == x {
      assert list[i] == x;
    }
  }

  // ---- installing and clearing ------------------------------------------------

  lemma {:induction false} InsertAllConcat(rules: seq<Rule>, a: seq<Rule>, b: seq<Rule>)
    ensures InsertAll(rules, a + b) == InsertAll(InsertAll(rules, a), b)
    decreases a
  {
    if a == [] {
      assert a + b == b;
    } else {
      InsertAllConcat(Insert(rules, a[0]), a[1..], b);
      assert (a + b)[1..] == a[1..] + b;
    }
  }

  /** In its slot, an installed rule lands behind what was there before. */
  lemma SlotAfterInstall(base: seq<Rule>, plan: seq<Rule>, k: nat)
    requires Sorted(base) && k < |plan|
    requires forall i, j :: 0 <= i < j < |plan| ==> plan[i].priority != plan[j].priority
    ensures var p := plan[k].priority;
            Filter(Slot(p), InsertAll(base, plan)) == Filter(Slot(p), base) + [plan[k]]
  {
    var r, before, after := plan[k], plan[..k], plan[k + 1..];
    var slot := Slot(r.priority);
    assert plan == before + ([r] + after);
    var t1 := InsertAll(base, before);
    InsertAllConcat(base, before, [r] + after);
    assert ([r] + after)[0] == r && ([r] + after)[1..] == after;
    InsertAllSorted(base, before);
    FilterInsertNone(slot, base, before);
    FilterInsert(slot, t1, r);
    InsertSorted(t1, r);
    FilterInsertNone(slot, Insert(t1, r), after);
    forall x | x in Filter(slot, base)
      ensures x.priority <= r.priority
    {
      FilterMember(slot, base, x);
    }
    InsertLast(Filter(slot, base), r);
  }

  lemma {:induction false} FilterOrigin(keep: Rule -> bool, rules: seq<Rule>, a: nat, b: nat) returns (i: nat, j: nat)
    requires a < b < |Filter(keep, rules)|
    ensures i < j < |rules| && rules[i] == Filter(keep, rules)[a] && rules[j] == Filter(keep, rules)[b]
  {
    if !keep(rules[0]) {
      i, j := FilterOrigin(keep, rules[1..], a, b);
      i, j := i + 1, j + 1;
    } else if a > 0 {
      i, j := FilterOrigin(keep, rules[1..], a - 1, b - 1);
      i, j := i + 1, j + 1;
    } else {
      var y := Filter(keep, rules)[b];
      FilterMember(keep, rules[1..], y);
      var k :| 0 <= k < |rules[1..]| && rules[1..][k] == y;
      i, j := 0, k + 1;
    }
  }

  /** The slots of the rules that the service recognises as its own. */
  ghost predicate SharesSlot(own: Rule -> bool, base: seq<Rule>, plan: seq<Rule>) {
    exists x, k :: x in base && 0 <= k < |plan| && own(plan[k]) && x.priority == plan[k].priority
  }

  lemma SharedSlotIsUnordered(own: Rule -> bool, base: seq<Rule>, plan: seq<Rule>)
    requires Sorted(base) && forall x :: x in base ==> !own(x)
    requires forall i, j :: 0 <= i < j < |plan| ==> plan[i].priority != plan[j].priority
    ensures ManagedFirst(own, InsertAll(base, plan)) <==> !SharesSlot(own, base, plan)
  {
    var rules := InsertAll(base, plan);
    if SharesSlot(own, base, plan) {
      var x, k :| x in base && 0 <= k < |plan| && own(plan[k]) && x.priority == plan[k].priority;
      var p := x.priority;
      SlotAfterInstall(base, plan, k);
      FilterMember(Slot(p), base, x);
      var slot := Filter(Slot(p), rules);
      assert slot[0] in Filter(Slot(p), base);
      FilterMember(Slot(p), base, slot[0]);
      var i, j := FilterOrigin(Slot(p), rules, 0, |slot| - 1);
      FilterMember(Slot(p), rules, rules[j]);
    } else {
      forall i, j | 0 <= i < j < |rules| && rules[i].priority == rules[j].priority && own(rules[j])
        ensures own(rules[i])
      {
        InsertAllMember(base, plan, rules[i]);
        InsertAllMember(base, plan, rules[j]);
        var b :| 0 <= b < |plan| && plan[b] == rules[j];
        assert rules[i] !in base;
        var a :| 0 <= a < |plan| && plan[a] == rules[i];
      }
    }
  }

  lemma InstallThenClearOwned(own: Rule -> bool, base: seq<Rule>, plan: seq<Rule>)
    requires Sorted(base) && forall x :: x in base ==> !own(x)
    requires forall k :: 0 <= k < |plan| ==> own(plan[k]) && plan[k].priority == PRIORITY_MIN + k
    ensures Cleared(own, InsertAll(base, plan)) == base
            <==> forall x :: x in base ==> !(PRIORITY_MIN <= x.priority < PRIORITY_MIN + |plan|)
  {
    SharedSlotIsUnordered(own, base, plan);
    ClearedIsForeignIff(own, InsertAll(base, plan));
    FilterInsertNone(Not(own), base, plan);
    FilterAll(Not(own), base);
    forall x | x in base && PRIORITY_MIN <= x.priority < PRIORITY_MIN + |plan|
      ensures SharesSlot(own, base, plan)
    {
      var k := x.priority - PRIORITY_MIN;
      assert own(plan[k]) && plan[k].priority == x.priority;
    }
  }

  /** A rule that clearing does not recognise stays in its slot. */
  lemma UnownedStays(own: Rule -> bool, base: seq<Rule>, plan: seq<Rule>, k: nat)
    requires Sorted(base) && (forall x :: x in base ==> !own(x)) && k < |plan| && !own(plan[k])
    requires forall i, j :: 0 <= i < j < |plan| ==> plan[i].priority != plan[j].priority
    ensures plan[k] in Cleared(own, InsertAll(base, plan)) && Cleared(own, InsertAll(base, plan)) != base
  {
    var (p, all) := (plan[k].priority, InsertAll(base, plan));
    var (was, slot) := (Filter(Slot(p), base), Filter(Slot(p), base) + [plan[k]]);
    SlotAfterInstall(base, plan, k);
    forall x | x in slot ensures !own(x) { FilterMember(Slot(p), base, x); }
    FilterNone(own, slot);
    OwnedAtMostSlot(own, all, p);
    ClearDropsFront(own, all, all, p);
    assert slot[0..] == slot && slot[|was|] == plan[k];
    FilterMember(Slot(p), Cleared(own, all), plan[k]);
  }

  lemma InstallThenClearIff(own: Rule -> bool, base: seq<Rule>, plan: seq<Rule>)
    requires Sorted(base) && forall x :: x in base ==> !own(x)
    requires forall k :: 0 <= k < |plan| ==> plan[k].priority == PRIORITY_MIN + k
    ensures Cleared(own, InsertAll(base, plan)) == base <==>
              && (forall k :: 0 <= k < |plan| ==> own(plan[k]))
              && (forall x :: x in base ==> !(PRIORITY_MIN <= x.priority < PRIORITY_MIN + |plan|))
  {
    if k :| 0 <= k < |plan| && !own(plan[k]) {
      UnownedStays(own, base, plan, k);
    } else {
      InstallThenClearOwned(own, base, plan);
    }
  }

  /** Which rules of a plan are recognised: all but those of entries of length zero. */
  ghost predicate OwnsPlan(own: Rule -> bool, zero: string -> bool, desired: seq<string>, plan: seq<Rule>) {
    && |plan| == Min(|desired|, CAPACITY) + 2
    && (forall k :: 0 <= k < |plan| ==> plan[k].priority == PRIORITY_MIN + k)
    && own(plan[0]) && own(plan[|plan| - 1])
    && (forall k :: 1 <= k < |plan| - 1 ==> (own(plan[k]) <==> !zero(desired[k - 1])))
  }

  lemma OwnsFromReads(own: Rule -> bool, read: Rule -> Option<string>, zero: string -> bool, desired: seq<string>,
                      plan: seq<Rule>)
    requires ReadsAs(own, read, zero, desired, plan)
    ensures OwnsPlan(own, zero, desired, plan)
  {
  }

  lemma PlanIsOwned(f: AddrFormat, desired: seq<string>)
    requires Faithful(f) && BypassList(f, desired)
    ensures OwnsPlan(IsManaged(f), IsZeroLength(f), desired, Plan(f, desired))
  {
    PlanReadsAs(f, desired);
    OwnsFromReads(IsManaged(f), ReadBack(f), IsZeroLength(f), desired, Plan(f, desired));
  }

  predicate NoneFits(zero: string -> bool, desired: seq<string>) {
    forall i :: 0 <= i < Min(|desired|, CAPACITY) ==> !zero(desired[i])
  }

  /** No entry of length zero is among those that an installation reaches. */
  predicate NoZeroLength(f: AddrFormat, desired: seq<string>) { NoneFits(IsZeroLength(f), desired) }

  ghost predicate AllOwned(own: Rule -> bool, plan: seq<Rule>) { forall k :: 0 <= k < |plan| ==> own(plan[k]) }

  lemma AllOwnedIff(own: Rule -> bool, zero: string -> bool, desired: seq<string>, plan: seq<Rule>)
    requires OwnsPlan(own, zero, desired, plan)
    ensures AllOwned(own, plan) <==> NoneFits(zero, desired)
  {
    if AllOwned(own, plan) {
      forall i | 0 <= i < Min(|desired|, CAPACITY) ensures !zero(desired[i]) { assert own(plan[i + 1]); }
    }
  }

  /** Installing a list and then clearing gives back the table exactly when no entry has
      length zero and no foreign rule sits in a slot that the plan uses. */
  lemma InstallThenClear(f: AddrFormat, base: seq<Rule>, desired: seq<string>)
    requires Faithful(f) && BypassList(f, desired) && Sorted(base)
    requires forall x :: x in base ==> !IsManaged(f)(x)
    ensures Cleared(IsManaged(f), InsertAll(base, Plan(f, desired))) == base <==>
              && NoZeroLength(f, desired)
              && (forall x :: x in base ==> !(PRIORITY_MIN <= x.priority < PRIORITY_MIN + Min(|desired|, CAPACITY) + 2))
  {
    PlanIsOwned(f, desired);
    InstallThenClearOf(IsManaged(f), IsZeroLength(f), base, desired, Plan(f, desired));
  }

  lemma InstallThenClearOf(own: Rule -> bool, zero: string -> bool, base: seq<Rule>, desired: seq<string>,
                           plan: seq<Rule>)
    requires OwnsPlan(own, zero, desired, plan) && Sorted(base) && forall x :: x in base ==> !own(x)
    ensures Cleared(own, InsertAll(base, plan)) == base <==>
              && NoneFits(zero, desired)
              && (forall x :: x in base ==> !(PRIORITY_MIN <= x.priority < PRIORITY_MIN + Min(|desired|, CAPACITY) + 2))
  {
    AllOwnedIff(own, zero, desired, plan);
    InstallThenClearIff(own, base, plan);
  }
}
