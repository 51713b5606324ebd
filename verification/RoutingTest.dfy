/** The routing simulator and its two passes. */
module RoutingTest {
  import opened Options
  import opened Text
  import opened RoutingRules

  /** Addresses, geo data and name lookup, as arbitrary functions of their texts.
      None from `lookup` is an error. */
  datatype World = World(
    isIP: string -> bool,
    canonical: string -> string,
    inCidr: (string, string) -> bool,
    inGeoip: (string, string) -> bool,
    isPrivate: string -> bool,
    isBuiltinCN: string -> bool,
    lookup: string -> Option<seq<string>>)

  /** A connection to route, and the domain strategy. */
  datatype Query = Query(host: string, port: int, protocol: string, inboundTag: string, strategy: string)

  datatype Match =
    | NoMatch
    | Deferred
    | Matched(value: string, outbound: string)

  // ---- the conditions of a rule ---------------------------------------------------

  /** A condition that is absent, not met, or met by one of its values. */
  datatype Check = Unspecified | Refused | Met(value: string)

  predicate EqualFold(a: string, b: string) { ToLower(a) == ToLower(b) }

  function Find(f: string -> bool, values: seq<string>): (r: Option<string>)
    ensures r.Some? <==> exists v :: v in values && f(v)
    ensures r.Some? ==> r.value in values && f(r.value)
  {
    if values == [] then None else if f(values[0]) then Some(values[0]) else Find(f, values[1..])
  }

  function Ask(values: seq<string>, f: string -> bool): Check {
    if values == [] then Unspecified
    else
      var found := Find(f, values);
      if found.Some? then Met(found.value) else Refused
  }

  function CheckProtocol(protocol: string, v: Values): Check {
    Ask(Items(v), value => EqualFold(TrimSpace(value), protocol))
  }

  function CheckInboundTag(tag: string, v: Values): Check {
    Ask(Items(v), value => tag != "" && EqualFold(TrimSpace(value), tag))
  }

  predicate Within(port: int, start: Option<int>, end: Option<int>) {
    start.Some? && end.Some? && start.value <= port <= end.value
  }

  function Number(text: string): Option<int> { Atoi(TrimSpace(text)) }

  /** A port or a range of ports, without white space around it. */
  predicate PortInTrimmed(port: int, value: string) {
    if value == "" then false
    else
      var dash := IndexOf(value, '-');
      if dash < |value| then Within(port, Number(value[..dash]), Number(value[dash + 1..]))
      else Atoi(value) == Some(port)
  }

  predicate PortInValue(port: int, text: string) { PortInTrimmed(port, TrimSpace(text)) }

  function CheckPort(port: int, v: Values): Check {
    var c := Ask(Items(v), value => port > 0 && PortInValue(port, value));
    if c.Met? then Met(TrimSpace(c.value)) else c
  }

  predicate DomainInValue(host: string, text: string) {
    var candidate := ToLower(TrimSpace(text));
    if candidate == "" then false
    else if HasPrefix(candidate, "full:") then host == candidate[5..]
    else if HasPrefix(candidate, "domain:") then host == candidate[7..] || HasSuffix(host, "." + candidate[7..])
    else if HasPrefix(candidate, "keyword:") then Contains(host, candidate[8..])
    else if HasPrefix(candidate, "regexp:") then false
    else if HasPrefix(candidate, "geosite:cn") then HasSuffix(host, ".cn")
    else host == candidate || HasSuffix(host, "." + candidate)
  }

  function MatchDomain(w: World, host: string, values: seq<string>): Option<string> {
    var h := ToLower(TrimSpace(host));
    if h == "" || w.isIP(h) then None else Find(value => DomainInValue(h, value), values)
  }

  predicate AddressInValue(w: World, ip: string, text: string) {
    var candidate := ToLower(TrimSpace(text));
    if candidate == "geoip:private" then w.inGeoip(ip, "PRIVATE") || w.isPrivate(ip)
    else if candidate == "geoip:cn" then w.inGeoip(ip, "CN") || w.isBuiltinCN(ip)
    else if HasPrefix(candidate, "geoip:") then w.inGeoip(ip, candidate[6..])
    else if '/' in candidate then w.inCidr(ip, candidate)
    else w.canonical(ip) == candidate
  }

  function MatchIP(w: World, host: string, values: seq<string>): Option<string> {
    var ip := TrimSpace(host);
    if !w.isIP(ip) then None else Find(value => AddressInValue(w, ip, value), values)
  }

  function ValueOf(c: Check): seq<string> { if c.Met? then [c.value] else [] }

  /** The inbound, network, protocol and port conditions: the values met, or None if
      one refuses. */
  function Conditions(a: Check, b: Check, c: Check, d: Check): Option<seq<string>> {
    if a.Refused? || b.Refused? || c.Refused? || d.Refused? then None
    else Some(ValueOf(a) + ValueOf(b) + ValueOf(c) + ValueOf(d))
  }

  function Indicators(q: Query, rule: Rule): Option<seq<string>> {
    Conditions(CheckInboundTag(q.inboundTag, rule.inboundTag), CheckProtocol(q.protocol, rule.network),
               CheckProtocol(q.protocol, rule.protocol), CheckPort(q.port, rule.port))
  }

  /** buildRoutingRuleMatch: a rule without any condition matches nothing. */
  function Build(indicators: seq<string>, rule: Rule): Match {
    if indicators == [] then NoMatch
    else Matched(indicators[|indicators| - 1], if rule.outboundTag == "" then "proxy" else rule.outboundTag)
  }

  function Strategy(q: Query): string { ToLower(TrimSpace(q.strategy)) }

  const IF_NON_MATCH := "ipifnonmatch"
  const ON_DEMAND := "ipondemand"

  /** resolveRoutingIPs, with answers that are already distinct. */
  function Resolve(w: World, host: string): Option<seq<string>> {
    var h := TrimSpace(host);
    if h == "" || w.isIP(h) then Some([]) else w.lookup(h)
  }

  /** A rule, given which of its conditions are met, against resolved addresses. */
  function AgainstResolved(w: World, met: Option<seq<string>>, ips: seq<string>, rule: Rule): Match {
    if ips == [] || met.None? || Items(rule.domain) != [] then NoMatch
    else if Items(rule.ip) == [] then Build(met.value, rule)
    else
      var ip := Find(x => MatchIP(w, x, Items(rule.ip)).Some?, ips);
      if ip.None? then NoMatch else Build(met.value + [MatchIP(w, ip.value, Items(rule.ip)).value], rule)
  }

  /** matchRoutingRuleAgainstResolvedIPs */
  function MatchResolved(w: World, q: Query, ips: seq<string>, rule: Rule): Match {
    AgainstResolved(w, Indicators(q, rule), ips, rule)
  }

  /** The IP condition of a rule for a domain target. */
  function MatchByIP(w: World, q: Query, met: seq<string>, rule: Rule): Match {
    if Strategy(q) == ON_DEMAND then
      var ips := Resolve(w, q.host);
      if ips.None? then NoMatch else AgainstResolved(w, Some(met), ips.value, rule)
    else if Strategy(q) == IF_NON_MATCH then Deferred
    else NoMatch
  }

  function MatchAddressTarget(w: World, q: Query, met: seq<string>, rule: Rule): Match {
    if Items(rule.domain) != [] then NoMatch
    else if Items(rule.ip) == [] then Build(met, rule)
    else
      var found := MatchIP(w, q.host, Items(rule.ip));
      if found.None? then NoMatch else Build(met + [found.value], rule)
  }

  function MatchDomainTarget(w: World, q: Query, met: seq<string>, rule: Rule): Match {
    if Items(rule.domain) == [] then
      if Items(rule.ip) == [] then Build(met, rule) else MatchByIP(w, q, met, rule)
    else if Items(rule.ip) == [] then
      var found := MatchDomain(w, q.host, Items(rule.domain));
      if found.None? then NoMatch else Build(met + [found.value], rule)
    else
      MatchByIP(w, q, met, rule)
  }

  /** A rule, given which of its conditions are met, against the target. */
  function AgainstTarget(w: World, q: Query, met: Option<seq<string>>, rule: Rule): Match {
    if met.None? then NoMatch
    else if w.isIP(TrimSpace(q.host)) then MatchAddressTarget(w, q, met.value, rule)
    else MatchDomainTarget(w, q, met.value, rule)
  }

  /** matchRoutingRule */
  function MatchRule(w: World, q: Query, rule: Rule): Match {
    AgainstTarget(w, q, Indicators(q, rule), rule)
  }

  // ---- the verdict ------------------------------------------------------------------

  /** The first rule that matches. */
  function FirstMatch(m: Rule -> Match, rules: seq<Rule>): Option<nat> {
    if rules == [] then None
    else if m(rules[0]).Matched? then Some(0)
    else
      var i := FirstMatch(m, rules[1..]);
      if i.None? then None else Some(i.value + 1)
  }

  /** The least index of a match. */
  ghost predicate IsFirst(m: Rule -> Match, rules: seq<Rule>, i: Option<nat>) {
    if i.None? then forall k :: 0 <= k < |rules| ==> !m(rules[k]).Matched?
    else i.value < |rules| && m(rules[i.value]).Matched? && forall k :: 0 <= k < i.value ==> !m(rules[k]).Matched?
  }

  lemma {:induction false} FirstMatchIsFirst(m: Rule -> Match, rules: seq<Rule>)
    ensures IsFirst(m, rules, FirstMatch(m, rules))
  {
    if rules != [] && !m(rules[0]).Matched? {
      FirstMatchIsFirst(m, rules[1..]);
      FirstBehind(m, rules, FirstMatch(m, rules[1..]));
    }
  }

  lemma FirstBehind(m: Rule -> Match, rules: seq<Rule>, i: Option<nat>)
    requires rules != [] && !m(rules[0]).Matched? && IsFirst(m, rules[1..], i)
    ensures IsFirst(m, rules, if i.None? then None else Some(i.value + 1))
  {
    forall k | 0 <= k < if i.None? then |rules| else i.value + 1
      ensures !m(rules[k]).Matched?
    {
      if k > 0 { assert rules[1..][k - 1] == rules[k]; }
    }
  }

  /** FirstMatch is the least index of a match. */
  lemma FirstMatchIff(m: Rule -> Match, rules: seq<Rule>, i: Option<nat>)
    ensures FirstMatch(m, rules) == i <==> IsFirst(m, rules, i)
  {
    FirstMatchIsFirst(m, rules);
  }

  /** The rule counts from 1; 0 stands for the default outbound. */
  datatype Verdict = Verdict(outbound: string, rule: nat, value: string, resolved: seq<string>)

  function Default(mode: string, resolved: seq<string>): Verdict {
    Verdict(if mode == "direct" then "direct" else "proxy", 0, "", resolved)
  }

  /** A rule that matched, by its index. */
  datatype Hit = Hit(index: nat, match': Match)

  function Chosen(h: Hit, resolved: seq<string>): Verdict
    requires h.match'.Matched?
  {
    Verdict(h.match'.outbound, h.index + 1, h.match'.value, resolved)
  }

  function FirstHit(m: Rule -> Match, rules: seq<Rule>): (h: Option<Hit>)
    ensures h.Some? ==> h.value.match'.Matched?
  {
    var i := FirstMatch(m, rules);
    FirstMatchIff(m, rules, i);
    if i.None? then None else Some(Hit(i.value, m(rules[i.value])))
  }

  function ByTarget(w: World, q: Query): Rule -> Match { r => MatchRule(w, q, r) }

  function ByResolved(w: World, q: Query, ips: seq<string>): Rule -> Match { r => MatchResolved(w, q, ips, r) }

  function Resolving(w: World, q: Query): seq<string> -> Rule -> Match { ips => ByResolved(w, q, ips) }

  predicate AnyDeferred(m: Rule -> Match, rules: seq<Rule>) { exists r :: r in rules && m(r) == Deferred }

  /** The addresses of the second pass: looked up only if some rule was deferred. */
  function Resolved(first: Rule -> Match, answer: Option<seq<string>>, rules: seq<Rule>): seq<string> {
    if !AnyDeferred(first, rules) || answer.None? then [] else answer.value
  }

  /** The verdict without a deferred list: the first rule that matches the target;
      failing that, the first rule of the whole list that matches the resolved
      addresses; failing that, the default. */
  function Decide(first: Rule -> Match, answer: Option<seq<string>>, second: seq<string> -> Rule -> Match,
                  mode: string, rules: seq<Rule>): Verdict {
    var hit := FirstHit(first, rules);
    if hit.Some? then Chosen(hit.value, [])
    else
      var ips := Resolved(first, answer, rules);
      var hit := FirstHit(second(ips), rules);
      if hit.Some? then Chosen(hit.value, ips) else Default(mode, ips)
  }

  function Route(w: World, q: Query, mode: string, rules: seq<Rule>): Verdict {
    Decide(ByTarget(w, q), Resolve(w, q.host), Resolving(w, q), mode, rules)
  }

  // ---- what can be deferred ----------------------------------------------------------

  lemma BuildOrNothing(met: seq<string>, rule: Rule)
    ensures Build(met, rule) != Deferred && (Build(met, rule) == NoMatch <==> met == [])
  {
  }

  lemma ResolvedNeverDefers(w: World, met: Option<seq<string>>, ips: seq<string>, rule: Rule)
    ensures AgainstResolved(w, met, ips, rule) != Deferred
  {
  }

  /** Rules are deferred only for domain targets under IPIfNonMatch. */
  lemma DeferredOnly(w: World, q: Query, met: Option<seq<string>>, rule: Rule)
    requires AgainstTarget(w, q, met, rule) == Deferred
    ensures Strategy(q) == IF_NON_MATCH && !w.isIP(TrimSpace(q.host)) && Items(rule.ip) != []
  {
    var ips := Resolve(w, q.host);
    if ips.Some? { ResolvedNeverDefers(w, met, ips.value, rule); }
  }

  /** A rule that neither matches a domain target nor is deferred does not match the
      resolved addresses either, so the second pass may skip it. */
  lemma SkippedRuleStaysUnmatched(w: World, q: Query, met: Option<seq<string>>, ips: seq<string>, rule: Rule)
    requires Strategy(q) == IF_NON_MATCH && !w.isIP(TrimSpace(q.host))
    requires AgainstTarget(w, q, met, rule) == NoMatch
    ensures AgainstResolved(w, met, ips, rule) == NoMatch
  {
    if met.Some? && Items(rule.domain) == [] && Items(rule.ip) == [] {
      BuildOrNothing(met.value, rule);
    }
  }

  // ---- the two-pass evaluation --------------------------------------------------------

  ghost predicate Sorted(s: seq<nat>) { forall i, j :: 0 <= i < j < |s| ==> s[i] < s[j] }

  /** The indices of the deferred rules of a prefix of the list, in order. */
  ghost predicate DeferredUpTo(m: Rule -> Match, rules: seq<Rule>, n: nat, deferred: seq<nat>)
    requires n <= |rules|
  {
    && Sorted(deferred)
    && (forall e :: 0 <= e < |deferred| ==> deferred[e] < n && m(rules[deferred[e]]) == Deferred)
    && (forall k :: 0 <= k < n && m(rules[k]) == Deferred ==> k in deferred)
  }

  ghost predicate NoneMatch(m: Rule -> Match, rules: seq<Rule>, n: nat)
    requires n <= |rules|
  {
    forall k :: 0 <= k < n ==> !m(rules[k]).Matched?
  }

  /** Trying the deferred rules in order finds what trying all rules in order finds. */
  lemma DeferredSuffice(first: Rule -> Match, second: Rule -> Match, rules: seq<Rule>, deferred: seq<nat>, d: nat)
    requires DeferredUpTo(first, rules, |rules|, deferred) && NoneMatch(first, rules, |rules|)
    requires forall k :: 0 <= k < |rules| && first(rules[k]) == NoMatch ==> !second(rules[k]).Matched?
    requires d <= |deferred| && forall e :: 0 <= e < d ==> !second(rules[deferred[e]]).Matched?
    ensures NoneMatch(second, rules, if d < |deferred| then deferred[d] else |rules|)
  {
    forall k | 0 <= k < if d < |deferred| then deferred[d] else |rules|
      ensures !second(rules[k]).Matched?
    {
      if first(rules[k]) == Deferred {
        var e :| 0 <= e < |deferred| && deferred[e] == k;
        assert d < |deferred| ==> e < d;
      }
    }
  }

  /** The first loop of TestRouting. */
  method FirstPass(m: Rule -> Match, rules: seq<Rule>) returns (hit: Option<Hit>, deferred: seq<nat>)
    ensures hit == FirstHit(m, rules)
    ensures hit.None? ==> NoneMatch(m, rules, |rules|) && DeferredUpTo(m, rules, |rules|, deferred)
  {
    deferred := [];
    for i := 0 to |rules|
      invariant DeferredUpTo(m, rules, i, deferred) && NoneMatch(m, rules, i)
    {
      var match' := m(rules[i]);
      if match'.Deferred? {
        deferred := deferred + [i];
      } else if match'.Matched? {
        FirstMatchIff(m, rules, Some(i));
        return Some(Hit(i, match')), deferred;
      }
    }
    FirstMatchIff(m, rules, None);
    hit := None;
  }

  /** The second loop, over the deferred rules only. */
  method SecondPass(ghost first: Rule -> Match, m: Rule -> Match, rules: seq<Rule>, deferred: seq<nat>)
    returns (hit: Option<Hit>)
    requires DeferredUpTo(first, rules, |rules|, deferred) && NoneMatch(first, rules, |rules|)
    requires forall k :: 0 <= k < |rules| && first(rules[k]) == NoMatch ==> !m(rules[k]).Matched?
    ensures hit == FirstHit(m, rules)
  {
    for d := 0 to |deferred|
      invariant forall e :: 0 <= e < d ==> !m(rules[deferred[e]]).Matched?
    {
      var match' := m(rules[deferred[d]]);
      if match'.Matched? {
        DeferredSuffice(first, m, rules, deferred, d);
        FirstMatchIff(m, rules, Some(deferred[d]));
        return Some(Hit(deferred[d], match'));
      }
    }
    DeferredSuffice(first, m, rules, deferred, |deferred|);
    FirstMatchIff(m, rules, None);
    hit := None;
  }

  function Asked(host: string, port: int, protocol: string, inboundTag: string, strategy: string): Query {
    Query(host, port, if TrimSpace(protocol) == "" then "tcp" else TrimSpace(protocol), TrimSpace(inboundTag), strategy)
  }

  /** What the evaluation needs of the two matchers: nothing matches no addresses, and
      a rule that was skipped when others were deferred stays unmatched. */
  ghost predicate Fitting(first: Rule -> Match, second: seq<string> -> Rule -> Match, rules: seq<Rule>) {
    && (forall k :: 0 <= k < |rules| ==> !second([])(rules[k]).Matched?)
    && (AnyDeferred(first, rules) ==>
          forall ips, k :: 0 <= k < |rules| && first(rules[k]) == NoMatch ==> !second(ips)(rules[k]).Matched?)
  }

  method Evaluate(first: Rule -> Match, lookup: () -> Option<seq<string>>, second: seq<string> -> Rule -> Match,
                  mode: string, rules: seq<Rule>) returns (verdict: Verdict)
    requires Fitting(first, second, rules)
    ensures verdict == Decide(first, lookup(), second, mode, rules)
  {
    var hit, deferred := FirstPass(first, rules);
    if hit.Some? { return Chosen(hit.value, []); }
    LookedUpIffDeferred(first, rules, deferred);
    var ips: seq<string> := [];
    if |deferred| > 0 {
      var resolved := lookup();
      if resolved.Some? { ips := resolved.value; }
    }
    if |ips| > 0 {
      hit := SecondPass(first, second(ips), rules, deferred);
      if hit.Some? { return Chosen(hit.value, ips); }
    } else {
      FirstMatchIff(second([]), rules, None);
    }
    verdict := Default(mode, ips);
  }

  lemma NothingResolved(w: World, q: Query, rule: Rule)
    ensures !Resolving(w, q)([])(rule).Matched?
  {
    assert MatchResolved(w, q, [], rule) == NoMatch;
  }

  lemma SkippedStays(w: World, q: Query, ips: seq<string>, rule: Rule)
    requires Strategy(q) == IF_NON_MATCH && !w.isIP(TrimSpace(q.host)) && ByTarget(w, q)(rule) == NoMatch
    ensures !Resolving(w, q)(ips)(rule).Matched?
  {
    SkippedRuleStaysUnmatched(w, q, Indicators(q, rule), ips, rule);
  }

  lemma MatchersFit(w: World, q: Query, rules: seq<Rule>)
    ensures Fitting(ByTarget(w, q), Resolving(w, q), rules)
  {
    forall r ensures !Resolving(w, q)([])(r).Matched? { NothingResolved(w, q, r); }
    if AnyDeferred(ByTarget(w, q), rules) {
      DeferredUnder(w, q, rules);
      forall ips, r | ByTarget(w, q)(r) == NoMatch ensures !Resolving(w, q)(ips)(r).Matched? {
        SkippedStays(w, q, ips, r);
      }
    }
    FitsIfEvery(ByTarget(w, q), Resolving(w, q), rules);
  }

  lemma FitsIfEvery(first: Rule -> Match, second: seq<string> -> Rule -> Match, rules: seq<Rule>)
    requires forall r :: !second([])(r).Matched?
    requires AnyDeferred(first, rules) ==> forall ips, r :: first(r) == NoMatch ==> !second(ips)(r).Matched?
    ensures Fitting(first, second, rules)
  {
  }

  lemma DeferredUnder(w: World, q: Query, rules: seq<Rule>)
    ensures AnyDeferred(ByTarget(w, q), rules) ==> Strategy(q) == IF_NON_MATCH && !w.isIP(TrimSpace(q.host))
  {
    if r :| r in rules && ByTarget(w, q)(r) == Deferred {
      DeferredOnly(w, q, Indicators(q, r), r);
    }
  }

  lemma LookedUpIffDeferred(m: Rule -> Match, rules: seq<Rule>, deferred: seq<nat>)
    requires DeferredUpTo(m, rules, |rules|, deferred)
    ensures deferred != [] <==> AnyDeferred(m, rules)
  {
    if deferred != [] {
      assert rules[deferred[0]] in rules;
    }
    if AnyDeferred(m, rules) {
      var r :| r in rules && m(r) == Deferred;
      var k :| 0 <= k < |rules| && rules[k] == r;
      assert k in deferred;
    }
  }

  /** TestRouting, from the parsed host and port on. */
  method TestRouting(w: World, host: string, port: int, protocol: string, inboundTag: string, strategy: string,
                     mode: string, rules: seq<Rule>) returns (verdict: Verdict)
    ensures var asked := if TrimSpace(protocol) == "" then "tcp" else TrimSpace(protocol);
            verdict == Route(w, Query(host, port, asked, TrimSpace(inboundTag), strategy), mode, rules)
  {
    var q := Asked(host, port, protocol, inboundTag, strategy);
    MatchersFit(w, q, rules);
    verdict := Evaluate(ByTarget(w, q), () => Resolve(w, q.host), Resolving(w, q), mode, rules);
  }
}
