/** The TUN policy-routing code of the service, step by step. */
module PolicyRouting {
  import opened Options
  import opened Numbers
  import opened Text
  import opened Address
  import opened PolicyRules
  import opened RuleTable
  import opened PolicyPlan
  import opened PolicyMeaning

  // ---- the kernel -------------------------------------------------------------

  /** The policy rules of one family and the default route of table 20230. */
  class Kernel {
    const f: AddrFormat
    var rules: seq<Rule>
    var tunDefault: Option<string>

    ghost predicate Valid()
      reads this
    {
      Faithful(f) && Sorted(rules) && forall r :: r in rules ==> WellFormed(f, r)
    }

    constructor (f: AddrFormat)
      requires Faithful(f)
      ensures Valid() && this.f == f && rules == []
    {
      this.f, rules, tunDefault := f, [], None;
    }

    /** `ip rule add`: refuses a rule that is already there. */
    method RuleAdd(r: Rule) returns (ok: bool)
      requires Valid() && WellFormed(f, r)
      modifies this`rules
      ensures Valid()
      ensures ok == (r !in old(rules))
      ensures rules == if ok then Insert(old(rules), r) else old(rules)
    {
      ok := r !in rules;
      if ok {
        InsertSorted(rules, r);
        forall x | x in Insert(rules, r)
          ensures WellFormed(f, x)
        {
          InsertMember(rules, r, x);
        }
        rules := Insert(rules, r);
      }
    }

    /** `ip rule add priority p to <target> lookup main`; `r` is the rule that the
        text stands for. */
    method RuleAddTo(priority: nat, target: string, ghost reading: Reading, ghost r: Rule) returns (ok: bool)
      requires Valid() && priority <= PRIORITY_MAX && ReadsTargets(reading, f)
               && r == BypassRule(priority, reading.prefixOf(target))
      modifies this`rules
      ensures Valid()
      ensures ok <==> reading.parses(target) && r !in old(rules)
      ensures rules == if ok then Insert(old(rules), r) else old(rules)
    {
      var p := ParsePrefix(f, target);
      if p.None? {
        ok := false;
      } else {
        ok := RuleAdd(BypassRule(priority, p.value));
      }
    }

    /** `ip rule del priority p`. */
    method RuleDel(priority: nat)
      requires Valid()
      modifies this`rules
      ensures Valid() && rules == DeleteSlot(old(rules), priority)
    {
      DeleteSlotSorted(rules, priority);
      rules := DeleteSlot(rules, priority);
    }

    /** `ip rule show`. */
    method RuleShow() returns (out: string)
      ensures out == ShowText(f, rules)
    {
      out := ShowText(f, rules);
    }
  }

  function PrefixOf(f: AddrFormat): string -> Prefix { (target: string) => TargetPrefix(f, target) }

  /** How bypass targets read: which parse, and as what. */
  datatype Reading = Reading(parses: string -> bool, prefixOf: string -> Prefix)

  ghost predicate ReadsTargets(reading: Reading, f: AddrFormat) {
    forall target {:trigger ParsePrefix(f, target)} ::
      reading.parses(target) == ParsePrefix(f, target).Some? && reading.prefixOf(target) == TargetPrefix(f, target)
  }

  // ---- building the bypass list -------------------------------------------------

  /** An address that a name resolved to, of the family with that many bits. */
  datatype Resolved = Resolved(bits: nat, addr: nat)

  /** What the list is built from: the main table of the family, the DNS settings,
      the profile's server address and the name lookup. */
  datatype Inputs = Inputs(mainRoutes: seq<string>, dnsList: seq<string>, dnsServers: seq<string>,
                           server: Option<string>, lookup: string -> Option<seq<Resolved>>)

  function AddHost(f: AddrFormat, acc: seq<string>, a: Resolved): seq<string> {
    var prefix := PrefixText(f, Prefix(a.addr, f.bits));
    if a.bits != f.bits || prefix in acc then acc else acc + [prefix]
  }

  function AddHosts(f: AddrFormat, addrs: seq<Resolved>): seq<string> {
    if addrs == [] then [] else AddHost(f, AddHosts(f, addrs[..|addrs| - 1]), addrs[|addrs| - 1])
  }

  /** resolveProfileBypassPrefixesForFamily */
  function ServerPrefixes(f: AddrFormat, address: string, lookup: string -> Option<seq<Resolved>>): seq<string> {
    var prefix := CanonicalPrefix(f, address);
    if prefix.Some? then [prefix.value]
    else if TrimSpace(address) == "" then []
    else
      var addrs := lookup(TrimSpace(address));
      if addrs.None? then [] else AddHosts(f, addrs.value)
  }

  function ParsedTexts(f: AddrFormat, raws: seq<string>): seq<string> {
    if raws == [] then []
    else
      var p := CanonicalPrefix(f, raws[|raws| - 1]);
      ParsedTexts(f, raws[..|raws| - 1]) + if p.Some? then [p.value] else []
  }

  function RouteTargets(lines: seq<string>): seq<string> {
    if lines == [] then []
    else
      var fields := Fields(lines[|lines| - 1]);
      RouteTargets(lines[..|lines| - 1]) + if fields == [] || fields[0] == "default" then [] else [fields[0]]
  }

  function FirstCandidates(f: AddrFormat, inp: Inputs): seq<string> {
    if inp.server.Some? then ServerPrefixes(f, inp.server.value, inp.lookup) else []
  }

  function OtherCandidates(f: AddrFormat, inp: Inputs): seq<string> {
    ParsedTexts(f, inp.dnsList) + (ParsedTexts(f, inp.dnsServers) + RouteTargets(inp.mainRoutes))
  }

  /** The bypass list that the inputs call for. */
  function Desired(f: AddrFormat, inp: Inputs): seq<string> {
    AddTargets(f, [], FirstCandidates(f, inp) + OtherCandidates(f, inp))
  }

  lemma DesiredIsBypassList(f: AddrFormat, inp: Inputs)
    requires Faithful(f)
    ensures BypassList(f, Desired(f, inp))
  {
    AddTargetsIsBypassList(f, [], FirstCandidates(f, inp) + OtherCandidates(f, inp));
  }

  method ResolveServer(f: AddrFormat, address: string, lookup: string -> Option<seq<Resolved>>)
    returns (prefixes: seq<string>)
    ensures prefixes == ServerPrefixes(f, address, lookup)
  {
    var literal := CanonicalPrefix(f, address);
    if literal.Some? { return [literal.value]; }
    var host := TrimSpace(address);
    if host == "" { return []; }
    var addrs := lookup(host);
    if addrs.None? { return []; }
    prefixes := [];
    var seen: set<string> := {};
    for i := 0 to |addrs.value|
      invariant prefixes == AddHosts(f, addrs.value[..i]) && seen == SetOf(prefixes)
    {
      assert addrs.value[..i + 1][..i] == addrs.value[..i];
      var a := addrs.value[i];
      if a.bits == f.bits {
        var prefix := PrefixText(f, Prefix(a.addr, f.bits));
        if prefix !in seen {
          seen := seen + {prefix};
          prefixes := prefixes + [prefix];
        }
      }
    }
    assert addrs.value[..|addrs.value|] == addrs.value;
  }

  /** The list under construction: its entries in order and the set of them. */
  class BypassBuilder {
    const f: AddrFormat
    var seen: set<string>
    var rules: seq<string>

    ghost predicate Valid()
      reads this
    {
      seen == SetOf(rules)
    }

    constructor (f: AddrFormat)
      ensures Valid() && this.f == f && rules == []
    {
      this.f, seen, rules := f, {}, [];
    }

    method Add(value: string)
      requires Valid()
      modifies this
      ensures Valid() && rules == AddTarget(f, old(rules), value)
    {
      var prefix := CanonicalPrefix(f, value);
      if prefix.None? { return; }
      if prefix.value in seen { return; }
      seen := seen + {prefix.value};
      rules := rules + [prefix.value];
    }

    method AddAll(values: seq<string>)
      requires Valid()
      modifies this
      ensures Valid() && rules == AddTargets(f, old(rules), values)
    {
      for i := 0 to |values|
        invariant Valid() && rules == AddTargets(f, old(rules), values[..i])
      {
        assert values[..i + 1][..i] == values[..i];
        Add(values[i]);
      }
      assert values[..|values|] == values;
    }

    /** The loops over the DNS settings parse an entry before adding it. */
    method AddParsed(raws: seq<string>)
      requires Valid()
      modifies this
      ensures Valid() && rules == AddTargets(f, old(rules), ParsedTexts(f, raws))
    {
      for i := 0 to |raws|
        invariant Valid() && rules == AddTargets(f, old(rules), ParsedTexts(f, raws[..i]))
      {
        assert raws[..i + 1][..i] == raws[..i];
        var prefix := CanonicalPrefix(f, raws[i]);
        if prefix.Some? {
          AddOne(f, old(rules), ParsedTexts(f, raws[..i]), prefix.value);
          Add(prefix.value);
        } else {
          assert ParsedTexts(f, raws[..i + 1]) == ParsedTexts(f, raws[..i]);
        }
      }
      assert raws[..|raws|] == raws;
    }

    method AddRoutes(lines: seq<string>)
      requires Valid()
      modifies this
      ensures Valid() && rules == AddTargets(f, old(rules), RouteTargets(lines))
    {
      for i := 0 to |lines|
        invariant Valid() && rules == AddTargets(f, old(rules), RouteTargets(lines[..i]))
      {
        assert lines[..i + 1][..i] == lines[..i];
        var fields := Fields(lines[i]);
        if fields == [] || fields[0] == "default" {
          assert RouteTargets(lines[..i + 1]) == RouteTargets(lines[..i]);
          continue;
        }
        AddOne(f, old(rules), RouteTargets(lines[..i]), fields[0]);
        Add(fields[0]);
      }
      assert lines[..|lines|] == lines;
    }
  }

  /** buildTunPolicyBypassRulesForFamily */
  method BuildBypassRules(f: AddrFormat, inp: Inputs) returns (rules: seq<string>)
    ensures rules == Desired(f, inp)
  {
    var builder := new BypassBuilder(f);
    if inp.server.Some? {
      var prefixes := ResolveServer(f, inp.server.value, inp.lookup);
      builder.AddAll(prefixes);
    }
    builder.AddParsed(inp.dnsList);
    builder.AddParsed(inp.dnsServers);
    builder.AddRoutes(inp.mainRoutes);
    rules := builder.rules;
    var (a, b) := (FirstCandidates(f, inp), ParsedTexts(f, inp.dnsList));
    var (c, d) := (ParsedTexts(f, inp.dnsServers), RouteTargets(inp.mainRoutes));
    AddTargetsExtends(f, [], a, b + (c + d));
    AddTargetsExtends(f, AddTargets(f, [], a), b, c + d);
    AddTargetsExtends(f, AddTargets(f, AddTargets(f, [], a), b), c, d);
  }

  // ---- installing ---------------------------------------------------------------

  lemma OwnRulesAreWellFormed(f: AddrFormat)
    ensures WellFormed(f, MarkRule(PRIORITY_MIN))
    ensures forall p: nat :: p <= PRIORITY_MAX ==> WellFormed(f, CatchAllRule(p))
  {
    assert IsToken("main") && IsToken(TABLE_TEXT);
  }

  /** Consecutive priorities: so no rule of the plan occurs twice. */
  ghost predicate Consecutive(plan: seq<Rule>) {
    forall i :: 0 <= i < |plan| ==> plan[i].priority == PRIORITY_MIN + i
  }

  /** The next planned rule is not among those already installed by this run. */
  lemma NextIsNew(base: seq<Rule>, plan: seq<Rule>, n: nat)
    requires n < |plan| && Consecutive(plan)
    ensures plan[n] in InsertAll(base, plan[..n]) <==> plan[n] in base
    ensures InsertAll(base, plan[..n + 1]) == Insert(InsertAll(base, plan[..n]), plan[n])
  {
    InsertAllMember(base, plan[..n], plan[n]);
    assert plan[..n + 1] == plan[..n] + [plan[n]];
    InsertAllSnoc(base, plan[..n], plan[n]);
  }

  ghost predicate BypassPart(prefixOf: string -> Prefix, bypass: seq<string>, plan: seq<Rule>) {
    && |plan| == Min(|bypass|, CAPACITY) + 2
    && forall k :: 1 <= k <= Min(|bypass|, CAPACITY) ==>
                     plan[k] == BypassRule(PRIORITY_MIN + k, prefixOf(bypass[k - 1]))
  }

  lemma PlanParts(f: AddrFormat, bypass: seq<string>)
    ensures var plan := Plan(f, bypass);
            && BypassPart(PrefixOf(f), bypass, plan) && Consecutive(plan)
            && plan[0] == MarkRule(PRIORITY_MIN) && plan[|plan| - 1] == CatchAllRule(PRIORITY_MIN + |plan| - 1)
  {
    PlanShape(TargetPrefixes(f, bypass));
    PlanPriorities(TargetPrefixes(f, bypass));
  }

  /** Which commands of an installation succeed, one by one. */
  ghost predicate Commands(succeeds: nat -> bool, parses: string -> bool, bypass: seq<string>, plan: seq<Rule>,
                           base: seq<Rule>) {
    forall k: nat {:trigger plan[k]} :: k < |plan| ==>
      succeeds(k) == (plan[k] !in base && (1 <= k < |plan| - 1 && k <= |bypass| ==> parses(bypass[k - 1])))
  }

  ghost predicate AllSucceed(succeeds: nat -> bool, from: nat, n: nat) { forall i :: from <= i < n ==> succeeds(i) }

  /** The table after the first n commands. */
  ghost predicate InstalledUpTo(base: seq<Rule>, plan: seq<Rule>, rules: seq<Rule>, n: nat) {
    n <= |plan| && rules == InsertAll(base, plan[..n])
  }

  lemma NothingInstalled(base: seq<Rule>, plan: seq<Rule>)
    ensures InstalledUpTo(base, plan, base, 0)
  {
    assert plan[..0] == [];
  }

  /** A command that succeeds if and only if its rule was not there. */
  method AddPlanned(k: Kernel, r: Rule, ghost succeeds: nat -> bool, ghost base: seq<Rule>, ghost plan: seq<Rule>,
                    ghost n: nat)
    returns (ok: bool)
    requires k.Valid() && WellFormed(k.f, r) && Consecutive(plan) && n < |plan| && plan[n] == r
    requires InstalledUpTo(base, plan, k.rules, n) && succeeds(n) == (r !in base)
    modifies k`rules
    ensures k.Valid()
    ensures ok == succeeds(n) && InstalledUpTo(base, plan, k.rules, if ok then n + 1 else n)
  {
    NextIsNew(base, plan, n);
    ok := k.RuleAdd(r);
  }

  /** One bypass rule of an installation. */
  method AddBypass(k: Kernel, priority: nat, target: string, ghost bypass: seq<string>, ghost reading: Reading,
                   ghost succeeds: nat -> bool, ghost base: seq<Rule>, ghost plan: seq<Rule>,
                     ghost n: nat) returns (ok: bool)
    requires k.Valid() && ReadsTargets(reading, k.f) && Consecutive(plan)
             && Commands(succeeds, reading.parses, bypass, plan, base)
    requires 1 <= n <= |bypass| && n < |plan| - 1 && priority <= PRIORITY_MAX && bypass[n - 1] == target
    requires plan[n] == BypassRule(priority, reading.prefixOf(target)) && InstalledUpTo(base, plan, k.rules, n)
    modifies k`rules
    ensures k.Valid()
    ensures ok == succeeds(n) && InstalledUpTo(base, plan, k.rules, if ok then n + 1 else n)
  {
    NextIsNew(base, plan, n);
    ok := k.RuleAddTo(priority, target, reading, plan[n]);
  }

  /** The loop of an installation, from the second planned rule on. */
  method InstallBypass(k: Kernel, bypass: seq<string>, ghost reading: Reading, ghost succeeds: nat -> bool,
                       ghost base: seq<Rule>, ghost plan: seq<Rule>)
    returns (ok: bool, priority: nat, ghost done: nat)
    requires k.Valid() && ReadsTargets(reading, k.f) && BypassPart(reading.prefixOf, bypass, plan) && Consecutive(plan)
    requires Commands(succeeds, reading.parses, bypass, plan, base)
    requires InstalledUpTo(base, plan, k.rules, 1)
    modifies k`rules
    ensures k.Valid()
    ensures 1 <= done < |plan| && InstalledUpTo(base, plan, k.rules, done) && AllSucceed(succeeds, 1, done)
    ensures if ok then priority == PRIORITY_MIN + |plan| - 1 && done == |plan| - 1
            else done < |plan| - 1 && !succeeds(done)
  {
    priority := PRIORITY_MIN + 1;
    var truncated := false;
    var i := 0;
    while i < |bypass|
      invariant k.Valid()
      invariant i <= Min(|bypass|, CAPACITY) && priority == PRIORITY_MIN + 1 + i && !truncated
      invariant InstalledUpTo(base, plan, k.rules, i + 1) && AllSucceed(succeeds, 1, i + 1)
    {
      if priority >= PRIORITY_MAX {
        truncated := true;
        break;
      }
      done := i + 1;
      ok := AddBypass(k, priority, bypass[i], bypass, reading, succeeds, base, plan, i + 1);
      if !ok { return; }
      priority := priority + 1;
      i := i + 1;
    }
    assert i == Min(|bypass|, CAPACITY);
    ok, done := true, i + 1;
  }

  /** The commands of an installation on a table are those of its plan. */
  lemma PlanCommands(f: AddrFormat, bypass: seq<string>, rules: seq<Rule>)
    ensures ReadsTargets(Reading(Parses(f), PrefixOf(f)), f)
    ensures Commands(Succeeds(Parses(f), bypass, Plan(f, bypass), rules), Parses(f), bypass, Plan(f, bypass), rules)
  {
    CommandsOf(Parses(f), bypass, Plan(f, bypass), rules);
  }

  lemma CommandsOf(parses: string -> bool, bypass: seq<string>, plan: seq<Rule>, rules: seq<Rule>)
    ensures Commands(Succeeds(parses, bypass, plan, rules), parses, bypass, plan, rules)
  {
  }

  /** installTunPolicyRoutingForFamily */
  method Install(k: Kernel, tunName: string, bypass: seq<string>) returns (ok: bool)
    requires k.Valid()
    modifies k
    ensures k.Valid()
    ensures ok <==> Installable(k.f, old(k.rules), bypass)
    ensures k.rules == AfterInstall(k.f, old(k.rules), bypass) && k.tunDefault == Some(tunName)
  {
    ghost var base := k.rules;
    PlanParts(k.f, bypass);
    PlanCommands(k.f, bypass, base);
    k.tunDefault := Some(tunName);
    ghost var succeeds := Succeeds(Parses(k.f), bypass, Plan(k.f, bypass), base);
    ghost var done;
    ok, done := InstallPlan(k, bypass, Reading(Parses(k.f), PrefixOf(k.f)), succeeds, base, Plan(k.f, bypass));
  }

  lemma EndCommands(succeeds: nat -> bool, parses: string -> bool, bypass: seq<string>, plan: seq<Rule>,
                    base: seq<Rule>)
    requires plan != [] && Commands(succeeds, parses, bypass, plan, base)
    ensures succeeds(0) == (plan[0] !in base) && succeeds(|plan| - 1) == (plan[|plan| - 1] !in base)
  {
  }

  lemma FailsAt(succeeds: nat -> bool, n: nat, m: nat)
    requires m <= n && (m > 0 ==> succeeds(0) && AllSucceed(succeeds, 1, m)) && (m < n ==> !succeeds(m))
    ensures FirstFailure(succeeds, 0, n) == m
  {
    FirstFailureIs(succeeds, n, m);
  }

  /** An installation from the second planned rule on: the bypasses and the catch-all. */
  method InstallRest(k: Kernel, bypass: seq<string>, ghost reading: Reading, ghost succeeds: nat -> bool,
                     ghost base: seq<Rule>, ghost plan: seq<Rule>)
    returns (ok: bool, ghost done: nat)
    requires k.Valid() && ReadsTargets(reading, k.f) && BypassPart(reading.prefixOf, bypass, plan) && Consecutive(plan)
    requires Commands(succeeds, reading.parses, bypass, plan, base)
    requires plan[|plan| - 1] == CatchAllRule(PRIORITY_MIN + |plan| - 1)
             && succeeds(|plan| - 1) == (plan[|plan| - 1] !in base)
    requires InstalledUpTo(base, plan, k.rules, 1)
    modifies k`rules
    ensures k.Valid()
    ensures 1 <= done <= |plan| && InstalledUpTo(base, plan, k.rules, done) && AllSucceed(succeeds, 1, done)
    ensures (ok <==> done == |plan|) && (!ok ==> !succeeds(done))
  {
    var priority;
    ok, priority, done := InstallBypass(k, bypass, reading, succeeds, base, plan);
    if ok {
      OwnRulesAreWellFormed(k.f);
      ok := AddPlanned(k, CatchAllRule(priority), succeeds, base, plan, done);
      if ok { done := |plan|; }
    }
  }

  /** The rules of an installation: the mark rule, the bypasses, the catch-all. */
  method InstallPlan(k: Kernel, bypass: seq<string>, ghost reading: Reading, ghost succeeds: nat -> bool,
                     ghost base: seq<Rule>, ghost plan: seq<Rule>)
    returns (ok: bool, ghost done: nat)
    requires k.Valid() && ReadsTargets(reading, k.f) && BypassPart(reading.prefixOf, bypass, plan) && Consecutive(plan)
    requires Commands(succeeds, reading.parses, bypass, plan, base) && k.rules == base
    requires plan[0] == MarkRule(PRIORITY_MIN) && plan[|plan| - 1] == CatchAllRule(PRIORITY_MIN + |plan| - 1)
    modifies k`rules
    ensures k.Valid()
    ensures done == FirstFailure(succeeds, 0, |plan|)
    ensures InstalledUpTo(base, plan, k.rules, done) && (ok <==> done == |plan|)
  {
    OwnRulesAreWellFormed(k.f);
    NothingInstalled(base, plan);
    EndCommands(succeeds, reading.parses, bypass, plan, base);
    done := 0;
    ok := AddPlanned(k, MarkRule(PRIORITY_MIN), succeeds, base, plan, 0);
    if ok { ok, done := InstallRest(k, bypass, reading, succeeds, base, plan); }
    FailsAt(succeeds, |plan|, done);
  }

  // ---- clearing -----------------------------------------------------------------

  /** A listed line, or the empty end of the output. */
  ghost predicate Prints(f: AddrFormat, line: string, r: Option<Rule>) {
    Faithful(f) && if r.Some? then WellFormed(f, r.value) && line == RuleLine(f, r.value) else line == ""
  }

  lemma ManagedLine(f: AddrFormat, r: Rule)
    requires Faithful(f) && WellFormed(f, r)
    ensures Fields(RuleLine(f, r)) != [] && Fields(RuleLine(f, r))[0] != ""
    ensures Atoi(Fields(RuleLine(f, r))[0][..|Fields(RuleLine(f, r))[0]| - 1]) == Some(r.priority)
  {
    LineFields(f, r);
    LabelToken(r);
    AtoiItoa(r.priority);
  }

  /** The slot that the clearing loop deletes for one line of the listing. */
  method SlotToDelete(f: AddrFormat, raw: string, ghost r: Option<Rule>) returns (slot: Option<nat>)
    requires Prints(f, raw, r)
    ensures slot == if r.Some? && IsManaged(f)(r.value) then Some(r.value.priority) else None
  {
    if r.Some? { LineFields(f, r.value); }
    var line := TrimSpace(raw);
    if line == "" { return None; }
    if !IsManagedLine(line) { return None; }
    ManagedLine(f, r.value);
    var fields := Fields(line);
    var priority := Atoi(fields[0][..|fields[0]| - 1]);
    if priority.None? || priority.value < 0 { return None; }
    return Some(priority.value);
  }

  /** Deleting for the rest of the listing, from line i on, completes the clearing. */
  ghost predicate ClearedUpTo(own: Rule -> bool, listing: seq<Rule>, rules: seq<Rule>, i: nat) {
    && (i <= |listing| ==> ClearListed(own, listing[i..], rules) == Cleared(own, listing))
    && (i > |listing| ==> rules == Cleared(own, listing))
  }

  function RuleAt(rules: seq<Rule>, i: nat): Option<Rule> { if i < |rules| then Some(rules[i]) else None }

  lemma ClearStep(own: Rule -> bool, listing: seq<Rule>, rules: seq<Rule>, i: nat, next: seq<Rule>)
    requires ClearedUpTo(own, listing, rules, i)
    requires next == if i < |listing| && own(listing[i]) then DeleteSlot(rules, listing[i].priority) else rules
    ensures ClearedUpTo(own, listing, next, i + 1)
  {
    if i < |listing| {
      assert listing[i..][0] == listing[i] && listing[i..][1..] == listing[i + 1..];
    } else if i == |listing| {
      assert listing[i..] == [];
    }
  }

  /** What the lines of a listing print. */
  ghost predicate ListingPrints(f: AddrFormat, lines: seq<string>, listing: seq<Rule>) {
    |lines| == |listing| + 1 && forall i :: 0 <= i < |lines| ==> Prints(f, lines[i], RuleAt(listing, i))
  }

  lemma ShownListing(f: AddrFormat, listing: seq<Rule>)
    requires Faithful(f) && forall r :: r in listing ==> WellFormed(f, r)
    ensures ListingPrints(f, Split(ShowText(f, listing), '\n'), listing)
  {
    ShowLines(f, listing);
  }

  /** clearManagedTunPolicyRoutingForFamily */
  method ClearManaged(k: Kernel, tunName: string)
    requires k.Valid()
    modifies k
    ensures k.Valid() && k.rules == Cleared(IsManaged(k.f), old(k.rules))
    ensures k.tunDefault == if old(k.tunDefault) == Some(tunName) then None else old(k.tunDefault)
  {
    ghost var f, own, listing := k.f, IsManaged(k.f), k.rules;
    var out := k.RuleShow();
    var lines := Split(out, '\n');
    ShownListing(f, listing);
    assert listing[0..] == listing;
    for i := 0 to |lines|
      invariant k.Valid() && k.tunDefault == old(k.tunDefault) && ClearedUpTo(own, listing, k.rules, i)
    {
      ghost var rules := k.rules;
      var slot := SlotToDelete(k.f, lines[i], RuleAt(listing, i));
      if slot.None? {
        ClearStep(own, listing, rules, i, rules);
        continue;
      }
      k.RuleDel(slot.value);
      ClearStep(own, listing, rules, i, k.rules);
    }
    if k.tunDefault == Some(tunName) { k.tunDefault := None; }
  }

  // ---- comparing ----------------------------------------------------------------

  function EntryAt(read: Rule -> Option<string>, rules: seq<Rule>, i: nat): Option<string> {
    if i < |rules| then read(rules[i]) else None
  }

  /** Every line reads as its rule does, and the empty end of the output as nothing. */
  ghost predicate LinesRead(f: AddrFormat, read: Rule -> Option<string>, lines: seq<string>, rules: seq<Rule>) {
    |lines| == |rules| + 1 && forall i :: 0 <= i < |lines| ==> LineTarget(f, lines[i]) == EntryAt(read, rules, i)
  }

  lemma ShownTargets(f: AddrFormat, rules: seq<Rule>)
    requires Faithful(f) && forall r :: r in rules ==> WellFormed(f, r)
    ensures LinesRead(f, ReadBack(f), Split(ShowText(f, rules), '\n'), rules)
  {
    ShowLines(f, rules);
  }

  /** Reading the rest of the listing, from line i on, completes the targets. */
  ghost predicate ReadUpTo(read: Rule -> Option<string>, rules: seq<Rule>, targets: set<string>, i: nat) {
    && (i <= |rules| ==> TargetsInto(read, rules[i..], targets) == TargetsRead(read, rules))
    && (i > |rules| ==> targets == TargetsRead(read, rules))
  }

  lemma ReadStep(read: Rule -> Option<string>, rules: seq<Rule>, targets: set<string>, i: nat, next: set<string>)
    requires ReadUpTo(read, rules, targets, i)
    requires next == if EntryAt(read, rules, i).Some? then targets + {EntryAt(read, rules, i).value} else targets
    ensures ReadUpTo(read, rules, next, i + 1)
  {
    if i < |rules| {
      assert rules[i..][0] == rules[i] && rules[i..][1..] == rules[i + 1..];
    } else if i == |rules| {
      assert rules[i..] == [];
    }
  }

  /** parseInstalledTunPolicyBypassTargets */
  method ReadTargets(f: AddrFormat, lines: seq<string>, ghost read: Rule -> Option<string>, ghost rules: seq<Rule>)
    returns (targets: set<string>)
    requires LinesRead(f, read, lines, rules)
    ensures targets == TargetsRead(read, rules)
  {
    targets := {};
    assert rules[0..] == rules;
    for i := 0 to |lines|
      invariant ReadUpTo(read, rules, targets, i)
    {
      ghost var before := targets;
      var target := LineTarget(f, lines[i]);
      if target.Some? { targets := targets + {target.value}; }
      ReadStep(read, rules, before, i, targets);
    }
  }

  /** What is installed, from the output of `ip rule show`. */
  method ReadInstalled(k: Kernel) returns (targets: set<string>)
    requires k.Valid()
    ensures targets == InstalledTargets(k.f, k.rules)
  {
    var out := k.RuleShow();
    ShownTargets(k.f, k.rules);
    targets := ReadTargets(k.f, Split(out, '\n'), ReadBack(k.f), k.rules);
  }

  /** tunPolicyBypassDriftForFamily */
  method DriftForFamily(k: Kernel, inp: Inputs) returns (missing: set<string>, stale: set<string>)
    requires k.Valid()
    ensures missing == Missing(k.f, k.rules, Desired(k.f, inp)) && stale == Stale(k.f, k.rules, Desired(k.f, inp))
  {
    var installed := ReadInstalled(k);
    var list := BuildBypassRules(k.f, inp);
    var desired := SetOf(list);
    missing, stale := desired - installed, installed - desired;
  }

  // ---- the service ----------------------------------------------------------------

  ghost predicate Settled(f: AddrFormat, rules: seq<Rule>, inp: Inputs) {
    Missing(f, rules, Desired(f, inp)) == {} && Stale(f, rules, Desired(f, inp)) == {}
  }

  /** The rules of one family after clearing and installing, as far as that gets. */
  function Rebuilt(f: AddrFormat, rules: seq<Rule>, desired: seq<string>): seq<Rule> {
    AfterInstall(f, Cleared(IsManaged(f), rules), desired)
  }

  /** What is read after a rebuild: what survived the clearing, and the entries that the
      installation reached. So missing is every other entry, and stale is what survived
      without being listed. If every managed rule was cleared and every command succeeded,
      missing is what the window cannot represent and nothing is stale; then the comparison
      is clean exactly when the list fits and has no entry of length zero. */
  lemma RebuiltDrift(f: AddrFormat, rules: seq<Rule>, inp: Inputs)
    requires Faithful(f)
    ensures var (desired, left) := (Desired(f, inp), Cleared(IsManaged(f), rules));
            var survived := InstalledTargets(f, left);
            var reached := ReachedTargets(IsZeroLength(f), desired, Reached(f, left, desired));
            && Missing(f, Rebuilt(f, rules, desired), desired) == SetOf(desired) - survived - reached
            && Stale(f, Rebuilt(f, rules, desired), desired) == survived - SetOf(desired)
    ensures var desired := Desired(f, inp);
            ManagedFirst(IsManaged(f), rules) && Installable(f, Cleared(IsManaged(f), rules), desired) ==>
              && Missing(f, Rebuilt(f, rules, desired), desired) == Unrepresentable(f, desired)
              && Stale(f, Rebuilt(f, rules, desired), desired) == {}
              && (Settled(f, Rebuilt(f, rules, desired), inp) <==>
                    |desired| <= CAPACITY && forall x :: x in desired ==> TargetPrefix(f, x).len > 0)
  {
    DesiredIsBypassList(f, inp);
    DriftAfterAny(f, Cleared(IsManaged(f), rules), Desired(f, inp));
    if ManagedFirst(IsManaged(f), rules) && Installable(f, Cleared(IsManaged(f), rules), Desired(f, inp)) {
      DriftAfterClean(f, rules, Desired(f, inp));
      NothingLostIff(IsZeroLength(f), Desired(f, inp));
    }
  }

  lemma DriftAfterAny(f: AddrFormat, left: seq<Rule>, desired: seq<string>)
    requires Faithful(f) && BypassList(f, desired)
    ensures var (survived, rules) := (InstalledTargets(f, left), AfterInstall(f, left, desired));
            && Missing(f, rules, desired)
               == SetOf(desired) - survived - ReachedTargets(IsZeroLength(f), desired, Reached(f, left, desired))
            && Stale(f, rules, desired) == survived - SetOf(desired)
  {
    var reached := ReachedTargets(IsZeroLength(f), desired, Reached(f, left, desired));
    TargetsAfterInstall(f, left, desired, Reached(f, left, desired));
    DifferencesOfUnion(SetOf(desired), InstalledTargets(f, left), reached);
  }

  lemma DifferencesOfUnion(desired: set<string>, survived: set<string>, reached: set<string>)
    requires reached <= desired
    ensures desired - (survived + reached) == desired - survived - reached
    ensures survived + reached - desired == survived - desired
  {
  }

  lemma ClearedIsUnmanaged(own: Rule -> bool, rules: seq<Rule>)
    requires ManagedFirst(own, rules)
    ensures forall x :: x in Cleared(own, rules) ==> x in rules && !own(x)
  {
    ClearedIsForeignIff(own, rules);
    forall x | x in Cleared(own, rules) ensures x in rules && !own(x) { FilterMember(Not(own), rules, x); }
  }

  lemma DriftAfterClean(f: AddrFormat, rules: seq<Rule>, desired: seq<string>)
    requires Faithful(f) && BypassList(f, desired)
    requires ManagedFirst(IsManaged(f), rules) && Installable(f, Cleared(IsManaged(f), rules), desired)
    ensures Missing(f, Rebuilt(f, rules, desired), desired) == Unrepresentable(f, desired)
    ensures Stale(f, Rebuilt(f, rules, desired), desired) == {}
  {
    ClearedIsUnmanaged(IsManaged(f), rules);
    assert Plan(f, desired)[..|Plan(f, desired)|] == Plan(f, desired);
    DriftAfterInstall(f, Cleared(IsManaged(f), rules), desired);
  }

  /** Both families after clearing both and installing one after the other. */
  ghost predicate RebuiltBoth(f4: AddrFormat, f6: AddrFormat, old4: seq<Rule>, old6: seq<Rule>, inp4: Inputs,
                              inp6: Inputs,
                              v6Default: bool, new4: seq<Rule>, new6: seq<Rule>, ok: bool) {
    var ok4 := Installable(f4, Cleared(IsManaged(f4), old4), Desired(f4, inp4));
    var ok6 := Installable(f6, Cleared(IsManaged(f6), old6), Desired(f6, inp6));
    && new4 == Rebuilt(f4, old4, Desired(f4, inp4))
    && new6 == (if ok4 && v6Default then Rebuilt(f6, old6, Desired(f6, inp6)) else Cleared(IsManaged(f6), old6))
    && (ok <==> ok4 && (v6Default ==> ok6))
  }

  /** If no foreign rule stood in front of a managed one, only what the window cannot
      represent is missing, and nothing is stale. */
  ghost predicate CleanIfManagedFirst(f: AddrFormat, before: seq<Rule>, inp: Inputs, after: seq<Rule>) {
    ManagedFirst(IsManaged(f), before) ==>
      && Missing(f, after, Desired(f, inp)) == Unrepresentable(f, Desired(f, inp))
      && Stale(f, after, Desired(f, inp)) == {}
  }

  lemma RebuiltIsClean(f: AddrFormat, rules: seq<Rule>, inp: Inputs)
    requires Faithful(f) && Installable(f, Cleared(IsManaged(f), rules), Desired(f, inp))
    ensures CleanIfManagedFirst(f, rules, inp, Rebuilt(f, rules, Desired(f, inp)))
  {
    DesiredIsBypassList(f, inp);
    if ManagedFirst(IsManaged(f), rules) { DriftAfterClean(f, rules, Desired(f, inp)); }
  }

  lemma BothAreClean(f4: AddrFormat, f6: AddrFormat, old4: seq<Rule>, old6: seq<Rule>, inp4: Inputs, inp6: Inputs,
                     v6Default: bool, new4: seq<Rule>, new6: seq<Rule>)
    requires Faithful(f4) && Faithful(f6) && RebuiltBoth(f4, f6, old4, old6, inp4, inp6, v6Default, new4, new6, true)
    ensures CleanIfManagedFirst(f4, old4, inp4, new4) && (v6Default ==> CleanIfManagedFirst(f6, old6, inp6, new6))
  {
    RebuiltIsClean(f4, old4, inp4);
    if v6Default { RebuiltIsClean(f6, old6, inp6); }
  }

  lemma CompleteIsDisjoint(parses: string -> bool, bypass: seq<string>, plan: seq<Rule>, rules: seq<Rule>)
    requires FirstFailure(Succeeds(parses, bypass, plan, rules), 0, |plan|) == |plan|
    ensures forall r :: r in rules ==> r !in plan
  {
    var succeeds := Succeeds(parses, bypass, plan, rules);
    forall k | 0 <= k < |plan| ensures plan[k] !in rules { assert succeeds(k); }
  }

  /** A rebuild whose commands all succeed captures what it should. */
  lemma RebuildCaptures(f: AddrFormat, rules: seq<Rule>, inp: Inputs, device: string)
    requires Faithful(f) && Sorted(rules) && Installable(f, Cleared(IsManaged(f), rules), Desired(f, inp))
    ensures Captures(f, Rebuilt(f, rules, Desired(f, inp)), Some(device), Desired(f, inp), device)
  {
    var (left, desired) := (Cleared(IsManaged(f), rules), Desired(f, inp));
    DesiredIsBypassList(f, inp);
    ClearListedSorted(IsManaged(f), rules, rules);
    CompleteIsDisjoint(Parses(f), desired, Plan(f, desired), left);
    assert Plan(f, desired)[..|Plan(f, desired)|] == Plan(f, desired);
    InstallationCaptures(f, left, desired, device);
  }

  class TunPolicy {
    const v4: Kernel
    const v6: Kernel

    ghost predicate Valid()
      reads this, v4, v6
    {
      v4 != v6 && v4.Valid() && v6.Valid()
    }

    constructor (v4: Kernel, v6: Kernel)
      requires v4 != v6 && v4.Valid() && v6.Valid()
      ensures Valid() && this.v4 == v4 && this.v6 == v6
    {
      this.v4, this.v6 := v4, v6;
    }

    /** setupTunPolicyRouting: build, clear both families, install. The last two clauses
        are what a set-up is for. */
    method Setup(tunName: string, inp4: Inputs, inp6: Inputs, v6Default: bool) returns (ok: bool)
      requires Valid()
      modifies v4, v6
      ensures Valid()
      ensures RebuiltBoth(v4.f, v6.f, old(v4.rules), old(v6.rules), inp4, inp6, v6Default, v4.rules, v6.rules, ok)
      ensures v4.tunDefault == Some(tunName)
      ensures v6.tunDefault
              == (if v6Default && Installable(v4.f, Cleared(IsManaged(v4.f), old(v4.rules)), Desired(v4.f, inp4))
                  then Some(tunName)
                  else if old(v6.tunDefault) == Some(tunName) then None else old(v6.tunDefault))
      ensures ok ==> Captures(v4.f, v4.rules, v4.tunDefault, Desired(v4.f, inp4), tunName)
      ensures ok && v6Default ==> Captures(v6.f, v6.rules, v6.tunDefault, Desired(v6.f, inp6), tunName)
    {
      ghost var (before4, before6) := (v4.rules, v6.rules);
      var bypass4 := BuildBypassRules(v4.f, inp4);
      ClearManaged(v4, tunName);
      ClearManaged(v6, tunName);
      ok := Install(v4, tunName, bypass4);
      if !ok { return; }
      if v6Default {
        var bypass6 := BuildBypassRules(v6.f, inp6);
        ok := Install(v6, tunName, bypass6);
        if ok { RebuildCaptures(v6.f, before6, inp6, tunName); }
      }
      if ok { RebuildCaptures(v4.f, before4, inp4, tunName); }
    }

    /** The comparison of every managed family. */
    method FindsClean(inp4: Inputs, inp6: Inputs, v6Default: bool) returns (clean: bool)
      requires Valid()
      ensures clean <==> Settled(v4.f, v4.rules, inp4) && (v6Default ==> Settled(v6.f, v6.rules, inp6))
    {
      var missing, stale := DriftForFamily(v4, inp4);
      if v6Default {
        var missing6, stale6 := DriftForFamily(v6, inp6);
        missing, stale := missing + missing6, stale + stale6;
      }
      clean := missing == {} && stale == {};
    }

    /** The part of reconcileTunPolicyRouting under the lifecycle lock: compare,
        and rebuild when something is missing or stale. The last two clauses say what the
        next comparison will find. */
    method Reconcile(tunName: string, inp4: Inputs, inp6: Inputs, v6Default: bool) returns (rebuilt: bool, ok: bool)
      requires Valid()
      modifies v4, v6
      ensures Valid()
      ensures !rebuilt <==> old(Settled(v4.f, v4.rules, inp4)) && (v6Default ==> old(Settled(v6.f, v6.rules, inp6)))
      ensures !rebuilt ==> ok && v4.rules == old(v4.rules) && v6.rules == old(v6.rules)
                           && v4.tunDefault == old(v4.tunDefault) && v6.tunDefault == old(v6.tunDefault)
      ensures rebuilt ==>
                RebuiltBoth(v4.f, v6.f, old(v4.rules), old(v6.rules), inp4, inp6, v6Default, v4.rules, v6.rules, ok)
      ensures rebuilt ==> v4.tunDefault == Some(tunName)
      ensures rebuilt ==>
                v6.tunDefault
                == (if v6Default && Installable(v4.f, Cleared(IsManaged(v4.f), old(v4.rules)), Desired(v4.f, inp4))
                    then Some(tunName)
                    else if old(v6.tunDefault) == Some(tunName) then None else old(v6.tunDefault))
      ensures rebuilt && ok ==> CleanIfManagedFirst(v4.f, old(v4.rules), inp4, v4.rules)
      ensures rebuilt && ok && v6Default ==> CleanIfManagedFirst(v6.f, old(v6.rules), inp6, v6.rules)
      ensures rebuilt && ok ==> Captures(v4.f, v4.rules, v4.tunDefault, Desired(v4.f, inp4), tunName)
      ensures rebuilt && ok && v6Default ==> Captures(v6.f, v6.rules, v6.tunDefault, Desired(v6.f, inp6), tunName)
    {
      var clean := FindsClean(inp4, inp6, v6Default);
      if clean { return false, true; }
      ghost var (before4, before6) := (v4.rules, v6.rules);
      ok := Setup(tunName, inp4, inp6, v6Default);
      rebuilt := true;
      if ok { BothAreClean(v4.f, v6.f, before4, before6, inp4, inp6, v6Default, v4.rules, v6.rules); }
    }
  }
}
