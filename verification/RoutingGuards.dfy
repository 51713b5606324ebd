/** What the generated rule list decides in the simulator: the guards against every user
    rule, the two passes against each other, and the rules that the compiler builds but
    that never match. */
module RoutingGuards {
  import opened Options
  import opened Text
  import opened RoutingRules
  import opened RoutingTest

  // ---- the two passes --------------------------------------------------------------

  function OrNone(answer: Option<seq<string>>): seq<string> { if answer.None? then [] else answer.value }

  /** Under IPIfNonMatch, a domain target gets the verdict of running the whole list on
      the target and, if nothing matches, running the whole list again on the
      resolved addresses. */
  lemma SecondPassIsRerun(w: World, q: Query, mode: string, rules: seq<Rule>)
    requires Strategy(q) == IF_NON_MATCH && !w.isIP(TrimSpace(q.host))
    ensures var first := FirstHit(ByTarget(w, q), rules);
            var again := FirstHit(ByResolved(w, q, OrNone(Resolve(w, q.host))), rules);
            Route(w, q, mode, rules).(resolved := []) ==
              if first.Some? then Chosen(first.value, [])
              else if again.Some? then Chosen(again.value, []) else Default(mode, [])
  {
    Rerun(ByTarget(w, q), Resolve(w, q.host), Resolving(w, q), mode, rules) by {
      forall ips, r | ByTarget(w, q)(r) == NoMatch
        ensures !Resolving(w, q)(ips)(r).Matched?
      {
        SkippedStays(w, q, ips, r);
      }
      MatchersFit(w, q, rules);
    }
  }

  lemma Rerun(first: Rule -> Match, answer: Option<seq<string>>, second: seq<string> -> Rule -> Match, mode: string,
              rules: seq<Rule>)
    requires forall ips, r :: first(r) == NoMatch ==> !second(ips)(r).Matched?
    requires Fitting(first, second, rules)
    ensures var hit := FirstHit(first, rules);
            var again := FirstHit(second(OrNone(answer)), rules);
            Decide(first, answer, second, mode, rules).(resolved := []) ==
              if hit.Some? then Chosen(hit.value, [])
              else if again.Some? then Chosen(again.value, []) else Default(mode, [])
  {
    if FirstHit(first, rules).None? && !AnyDeferred(first, rules) {
      FirstMatchIff(first, rules, None);
      FirstMatchIff(second([]), rules, None);
      forall k | 0 <= k < |rules|
        ensures !second(OrNone(answer))(rules[k]).Matched?
      {
        assert rules[k] in rules && first(rules[k]) != Deferred;
      }
      FirstMatchIff(second(OrNone(answer)), rules, None);
    }
  }

  /** The same world with another name service. */
  function Renamed(w: World, lookup: string -> Option<seq<string>>): World { w.(lookup := lookup) }

  lemma TargetIgnoresLookup(w: World, q: Query, met: Option<seq<string>>, rule: Rule,
                            lookup: string -> Option<seq<string>>)
    requires Strategy(q) != ON_DEMAND
    ensures AgainstTarget(Renamed(w, lookup), q, met, rule) == AgainstTarget(w, q, met, rule)
    ensures AgainstTarget(w, q, met, rule).Matched? && !w.isIP(TrimSpace(q.host)) ==> Items(rule.ip) == []
  {
    if met.Some? { AddressTargetIgnoresLookup(w, q, met.value, rule, lookup); }
  }

  lemma AddressTargetIgnoresLookup(w: World, q: Query, met: seq<string>, rule: Rule,
                                   lookup: string -> Option<seq<string>>)
    ensures MatchAddressTarget(Renamed(w, lookup), q, met, rule) == MatchAddressTarget(w, q, met, rule)
  {
    assert forall v ::
        AddressInValue(Renamed(w, lookup), TrimSpace(q.host), v) == AddressInValue(w, TrimSpace(q.host), v);
    FindSame(v => AddressInValue(Renamed(w, lookup), TrimSpace(q.host), v),
             v => AddressInValue(w, TrimSpace(q.host), v), Items(rule.ip));
  }

  lemma {:induction false} FindSame(f: string -> bool, g: string -> bool, values: seq<string>)
    requires forall v :: f(v) == g(v)
    ensures Find(f, values) == Find(g, values)
  {
    if values != [] { FindSame(f, g, values[1..]); }
  }

  lemma FirstHitSame(m: Rule -> Match, n: Rule -> Match, rules: seq<Rule>)
    requires forall r :: m(r) == n(r)
    ensures FirstHit(m, rules) == FirstHit(n, rules)
  {
    var i := FirstMatch(m, rules);
    FirstMatchIff(m, rules, i);
    FirstMatchIff(n, rules, i);
  }

  lemma FirstHitNoLater(m: Rule -> Match, rules: seq<Rule>, k: nat)
    requires k < |rules| && m(rules[k]).Matched?
    ensures var hit := FirstHit(m, rules);
            hit.Some? && hit.value.index <= k && hit.value.match' == m(rules[hit.value.index])
  {
    FirstMatchIsFirst(m, rules);
  }

  lemma LookupMakesNoDifference(w: World, q: Query, lookup: string -> Option<seq<string>>, rule: Rule)
    requires Strategy(q) != ON_DEMAND
    ensures ByTarget(Renamed(w, lookup), q)(rule) == ByTarget(w, q)(rule)
  {
    TargetIgnoresLookup(w, q, Indicators(q, rule), rule, lookup);
  }

  lemma MatchesWithoutAddresses(w: World, q: Query, rule: Rule)
    requires Strategy(q) != ON_DEMAND && !w.isIP(TrimSpace(q.host)) && ByTarget(w, q)(rule).Matched?
    ensures Items(rule.ip) == []
  {
    TargetIgnoresLookup(w, q, Indicators(q, rule), rule, w.lookup);
  }

  lemma HitDecides(w: World, q: Query, mode: string, rules: seq<Rule>, hit: Hit)
    requires hit.match'.Matched? && FirstHit(ByTarget(w, q), rules) == Some(hit)
    ensures Route(w, q, mode, rules) == Chosen(hit, [])
  {
  }

  ghost predicate Independent(m: Rule -> Match, n: Rule -> Match) {
    forall r :: (m(r).Matched? ==> Items(r.ip) == []) && n(r) == m(r)
  }

  lemma MatchesAreIndependent(w: World, q: Query, lookup: string -> Option<seq<string>>)
    requires Strategy(q) != ON_DEMAND && !w.isIP(TrimSpace(q.host))
    ensures Independent(ByTarget(w, q), ByTarget(Renamed(w, lookup), q))
  {
    forall r
      ensures (ByTarget(w, q)(r).Matched? ==> Items(r.ip) == [])
              && ByTarget(Renamed(w, lookup), q)(r) == ByTarget(w, q)(r)
    {
      if ByTarget(w, q)(r).Matched? { MatchesWithoutAddresses(w, q, r); }
      LookupMakesNoDifference(w, q, lookup, r);
    }
  }

  lemma NonIpHit(m: Rule -> Match, n: Rule -> Match, rules: seq<Rule>, k: nat)
    requires k < |rules| && m(rules[k]).Matched? && Independent(m, n)
    ensures var hit := FirstHit(m, rules);
            && hit.Some? && hit.value.index <= k && Items(rules[hit.value.index].ip) == []
            && FirstHit(n, rules) == hit
  {
    FirstHitNoLater(m, rules, k);
    FirstHitSame(n, m, rules);
  }

  /** Any rule that matches a domain target without its addresses beats every IP rule,
      wherever they stand: the verdict is a rule without addresses and is the same
      under every name service. */
  lemma NonIpMatchBeatsIpMatches(w: World, q: Query, mode: string, rules: seq<Rule>, k: nat,
                                 lookup: string -> Option<seq<string>>)
    requires k < |rules|
    ensures var v := Route(w, q, mode, rules);
            Strategy(q) != ON_DEMAND && !w.isIP(TrimSpace(q.host)) && ByTarget(w, q)(rules[k]).Matched? ==>
              && 1 <= v.rule <= k + 1 && Items(rules[v.rule - 1].ip) == []
              && Route(Renamed(w, lookup), q, mode, rules) == v
  {
    if Strategy(q) != ON_DEMAND && !w.isIP(TrimSpace(q.host)) && ByTarget(w, q)(rules[k]).Matched? {
      MatchesAreIndependent(w, q, lookup);
      NonIpHit(ByTarget(w, q), ByTarget(Renamed(w, lookup), q), rules, k);
      HitDecides(w, q, mode, rules, FirstHit(ByTarget(w, q), rules).value);
      HitDecides(Renamed(w, lookup), q, mode, rules, FirstHit(ByTarget(w, q), rules).value);
    }
  }

  /** A rule with both a domain and an address condition matches nothing at all: no
      address, no domain, in either pass, under any strategy. */
  lemma DomainAndAddressRuleNeverMatches(w: World, q: Query, ips: seq<string>, rule: Rule)
    requires Items(rule.domain) != [] && Items(rule.ip) != []
    ensures !MatchRule(w, q, rule).Matched? && MatchResolved(w, q, ips, rule) == NoMatch
  {
    NeverMatches(w, q, Indicators(q, rule), ips, rule);
  }

  lemma NeverMatches(w: World, q: Query, met: Option<seq<string>>, ips: seq<string>, rule: Rule)
    requires Items(rule.domain) != [] && Items(rule.ip) != []
    ensures !AgainstTarget(w, q, met, rule).Matched? && AgainstResolved(w, met, ips, rule) == NoMatch
  {
  }

  // ---- what the guard rules match -----------------------------------------------------

  predicate Loopback(w: World, ip: string) { w.inCidr(ip, "127.0.0.0/8") || w.inCidr(ip, "::1/128") }

  predicate LoopbackAddress(w: World, text: string) { w.isIP(TrimSpace(text)) && Loopback(w, TrimSpace(text)) }

  predicate Localhost(w: World, host: string) { ToLower(TrimSpace(host)) == "localhost" && !w.isIP("localhost") }

  /** A loopback address; the name localhost; and under IPOnDemand a name that resolves
      to a loopback address. */
  predicate Local(w: World, q: Query) {
    if w.isIP(TrimSpace(q.host)) then Loopback(w, TrimSpace(q.host))
    else
      || Localhost(w, q.host)
      || (Strategy(q) == ON_DEMAND && exists ip :: ip in OrNone(Resolve(w, q.host)) && LoopbackAddress(w, ip))
  }

  predicate LocalProxyInbound(tag: string) { EqualFold("http", tag) || EqualFold("socks", tag) }

  lemma AbsentIsUnspecified(q: Query)
    ensures CheckInboundTag(q.inboundTag, Absent) == CheckProtocol(q.protocol, Absent) == CheckPort(q.port, Absent)
            == Unspecified
  {
  }

  lemma ConditionsOfOne(c: Check)
    ensures Conditions(c, Unspecified, Unspecified, Unspecified) == if c.Refused? then None else Some(ValueOf(c))
  {
    assert ValueOf(c) + [] + [] + [] == ValueOf(c);
  }

  lemma NoConditions(q: Query, rule: Rule)
    requires rule.inboundTag == rule.network == rule.protocol == rule.port == Absent
    ensures Indicators(q, rule) == Some([])
  {
    AbsentIsUnspecified(q);
    ConditionsOfOne(Unspecified);
  }

  lemma OnlyInbound(q: Query, rule: Rule, c: Check)
    requires rule.network == rule.protocol == rule.port == Absent
    requires c == CheckInboundTag(q.inboundTag, rule.inboundTag)
    ensures Indicators(q, rule) == if c.Refused? then None else Some(ValueOf(c))
  {
    AbsentIsUnspecified(q);
    ConditionsOfOne(c);
  }

  lemma TagMet(tag: string, values: seq<string>, value: string)
    requires value in values && TrimSpace(value) == value && value != "" && EqualFold(value, tag)
    ensures CheckInboundTag(tag, Many(values)).Met?
  {
    assert |ToLower(tag)| == |ToLower(value)|;
    assert tag != "" && EqualFold(TrimSpace(value), tag);
  }

  /** A list of one tag refuses every other. */
  lemma TagRefused(tag: string, value: string)
    requires TrimSpace(value) == value && !EqualFold(value, tag)
    ensures CheckInboundTag(tag, Many([value])) == Refused
  {
  }

  lemma ApiRuleMatches(w: World, q: Query)
    requires !EqualFold("api", q.inboundTag)
    ensures MatchRule(w, q, ApiRule()) == NoMatch
  {
    TrimNothing("api");
    TagRefused(q.inboundTag, "api");
    OnlyInbound(q, ApiRule(), Refused);
  }

  lemma OnInbound(w: World, q: Query, values: seq<string>, value: string, outbound: string)
    requires value in values && TrimSpace(value) == value && value != "" && EqualFold(value, q.inboundTag)
             && outbound != ""
    ensures var m := MatchRule(w, q, To(outbound).(inboundTag := Many(values))); m.Matched? && m.outbound == outbound
  {
    TagMet(q.inboundTag, values, value);
    var rule := To(outbound).(inboundTag := Many(values));
    var c := CheckInboundTag(q.inboundTag, rule.inboundTag);
    OnlyInbound(q, rule, c);
    Unconditional(w, q, c.value, rule);
  }

  lemma LocalProxyRuleMatches(w: World, q: Query)
    requires LocalProxyInbound(q.inboundTag)
    ensures MatchRule(w, q, LocalProxyRule()).Matched? && MatchRule(w, q, LocalProxyRule()).outbound == "proxy"
  {
    var values := ["http", "socks"];
    TrimNothing(values[0]);
    TrimNothing(values[1]);
    OnInbound(w, q, values, if EqualFold(values[0], q.inboundTag) then values[0] else values[1], "proxy");
  }

  lemma Unconditional(w: World, q: Query, value: string, rule: Rule)
    requires rule.domain == rule.ip == Absent && rule.outboundTag != ""
    ensures AgainstTarget(w, q, Some([value]), rule) == Matched(value, rule.outboundTag)
  {
  }

  lemma BuildOne(value: string, rule: Rule)
    requires rule.outboundTag != ""
    ensures Build([] + [value], rule) == Matched(value, rule.outboundTag)
  {
  }

  /** A lower-case text without white space around it is its own normal form. */
  lemma Plain(t: string)
    requires t != "" && !IsSpace(t[0]) && !IsSpace(t[|t| - 1]) && forall i :: 0 <= i < |t| ==> !('A' <= t[i] <= 'Z')
    ensures ToLower(TrimSpace(t)) == t
  {
  }

  lemma LocalhostValue(h: string)
    ensures DomainInValue(h, "full:localhost") <==> h == "localhost"
  {
    Plain("full:localhost");
    assert "full:localhost"[5..] == "localhost";
    assert "full:localhost"[..5] == "full:";
  }

  lemma LocalhostFound(w: World, host: string)
    ensures MatchDomain(w, host, ["full:localhost"]) == if Localhost(w, host) then Some("full:localhost") else None
  {
    LocalhostValue(ToLower(TrimSpace(host)));
  }

  lemma Unconditioned(w: World, q: Query, rule: Rule)
    requires rule.inboundTag == rule.network == rule.protocol == rule.port == Absent
    ensures MatchRule(w, q, rule) == AgainstTarget(w, q, Some([]), rule)
  {
    NoConditions(q, rule);
  }

  lemma LocalhostRuleMatches(w: World, q: Query)
    ensures AgainstTarget(w, q, Some([]), LocalhostRule())
            == if !w.isIP(TrimSpace(q.host)) && Localhost(w, q.host) then Matched("full:localhost", "direct")
              else NoMatch
  {
    LocalhostFound(w, q.host);
    DomainRuleMatches(w, q, LocalhostRule());
  }

  lemma DomainRuleMatches(w: World, q: Query, rule: Rule)
    requires rule.outboundTag != "" && Items(rule.domain) != [] && Items(rule.ip) == []
    ensures var found := MatchDomain(w, q.host, Items(rule.domain));
            AgainstTarget(w, q, Some([]), rule)
            == if w.isIP(TrimSpace(q.host)) || found.None? then NoMatch else Matched(found.value, rule.outboundTag)
  {
    var found := MatchDomain(w, q.host, Items(rule.domain));
    if found.Some? { BuildOne(found.value, rule); }
  }

  lemma CidrValue(w: World, ip: string, cidr: string)
    requires cidr in LOOPBACK
    ensures AddressInValue(w, ip, cidr) <==> w.inCidr(ip, cidr)
  {
    Plain(cidr);
    assert cidr[0] != 'g';
    assert cidr == "127.0.0.0/8" ==> cidr[9] == '/';
    assert cidr == "::1/128" ==> cidr[3] == '/';
  }

  lemma LoopbackFound(w: World, text: string)
    ensures MatchIP(w, text, LOOPBACK).Some? <==> LoopbackAddress(w, text)
  {
    var ip := TrimSpace(text);
    assert LOOPBACK[0] in LOOPBACK && LOOPBACK[1] in LOOPBACK;
    CidrValue(w, ip, LOOPBACK[0]);
    CidrValue(w, ip, LOOPBACK[1]);
  }

  lemma LoopbackResolved(w: World, ips: seq<string>)
    ensures var m := AgainstResolved(w, Some([]), ips, LoopbackRule());
            && (m.Matched? <==> exists ip :: ip in ips && LoopbackAddress(w, ip))
            && (m.Matched? ==> m.outbound == "direct")
  {
    AddressRuleResolved(w, ips, LoopbackRule());
    forall ip ensures MatchIP(w, ip, LOOPBACK).Some? <==> LoopbackAddress(w, ip) {
      LoopbackFound(w, ip);
    }
  }

  lemma AddressRuleResolved(w: World, ips: seq<string>, rule: Rule)
    requires rule.outboundTag != "" && Items(rule.domain) == [] && Items(rule.ip) != []
    ensures var m := AgainstResolved(w, Some([]), ips, rule);
            && (m.Matched? <==> exists ip :: ip in ips && MatchIP(w, ip, Items(rule.ip)).Some?)
            && (m.Matched? ==> m.outbound == rule.outboundTag)
  {
    var ip := Find(x => MatchIP(w, x, Items(rule.ip)).Some?, ips);
    if ip.Some? {
      BuildOne(MatchIP(w, ip.value, Items(rule.ip)).value, rule);
    }
  }

  lemma AddressRuleMatches(w: World, q: Query, rule: Rule)
    requires rule.outboundTag != "" && Items(rule.domain) == [] && Items(rule.ip) != []
    ensures var m := AgainstTarget(w, q, Some([]), rule);
            if w.isIP(TrimSpace(q.host)) then
              (m.Matched? <==> MatchIP(w, q.host, Items(rule.ip)).Some?)
                && (m.Matched? ==> m.outbound == rule.outboundTag)
            else if Strategy(q) == ON_DEMAND then m == AgainstResolved(w, Some([]), OrNone(Resolve(w, q.host)), rule)
            else !m.Matched?
  {
    var found := MatchIP(w, q.host, Items(rule.ip));
    if found.Some? { BuildOne(found.value, rule); }
  }

  lemma LoopbackRuleMatches(w: World, q: Query)
    ensures var m := AgainstTarget(w, q, Some([]), LoopbackRule());
            && (m.Matched? <==> if w.isIP(TrimSpace(q.host)) then Loopback(w, TrimSpace(q.host))
                                else Strategy(q) == ON_DEMAND
                                     && exists ip :: ip in OrNone(Resolve(w, q.host)) && LoopbackAddress(w, ip))
            && (m.Matched? ==> m.outbound == "direct")
  {
    AddressRuleMatches(w, q, LoopbackRule());
    if w.isIP(TrimSpace(q.host)) {
      LoopbackFound(w, q.host);
    } else {
      LoopbackResolved(w, OrNone(Resolve(w, q.host)));
    }
  }

  // ---- the guard layers decide -----------------------------------------------------------

  lemma FirstOfLayers(m: Rule -> Match, layer: seq<Rule>, rest: seq<Rule>, i: nat)
    requires i < |layer| && m(layer[i]).Matched? && forall k :: 0 <= k < i ==> !m(layer[k]).Matched?
    ensures FirstHit(m, layer + rest) == Some(Hit(i, m(layer[i])))
  {
    FirstMatchIff(m, layer + rest, Some(i));
  }

  ghost predicate Sends(m: Rule -> Match, rule: Rule, outbound: string) {
    m(rule).Matched? ==> m(rule).outbound == outbound
  }

  /** What the four guard rules do with a connection. */
  ghost predicate GuardsFind(m: Rule -> Match, api: Rule, localhost: Rule, loopback: Rule, proxy: Rule, local: bool,
                             proxied: bool) {
    && !m(api).Matched?
    && (local <==> m(localhost).Matched? || m(loopback).Matched?) && (proxied ==> m(proxy).Matched?)
    && Sends(m, localhost, "direct") && Sends(m, loopback, "direct") && Sends(m, proxy, "proxy")
  }

  /** The first layer decides: what is local by its two rules, what comes from a local
      proxy inbound by the last one. */
  lemma LayerDecides(m: Rule -> Match, api: Rule, localhost: Rule, loopback: Rule, proxy: Rule, bypass: bool,
                     force: bool,
                     rest: seq<Rule>, local: bool, proxied: bool)
    requires GuardsFind(m, api, localhost, loopback, proxy, local, proxied)
    ensures var hit := FirstHit(m, Layer(api, localhost, loopback, proxy, bypass, force) + rest);
            && (bypass && local ==> hit.Some? && hit.value.match'.outbound == "direct")
            && (!(bypass && local) && force && proxied ==> hit.Some? && hit.value.match'.outbound == "proxy")
  {
    var layer := Layer(api, localhost, loopback, proxy, bypass, force);
    if bypass && local {
      FirstOfLayers(m, layer, rest, if m(localhost).Matched? then 1 else 2);
    } else if force && proxied {
      FirstOfLayers(m, layer, rest, |layer| - 1);
    }
  }

  /** User rules, mode, strategy and geo data cannot override the guards: off the api
      inbound, unless local bypass is turned off, every local target goes direct; and with
      the local proxy forced by one of four words, everything else on an http or socks
      inbound goes to the proxy. */
  lemma GuardsDecide(w: World, q: Query, localProxyMode: Option<string>, routing: Routing, geo: GeoData,
                     cnCidrs: seq<string>)
    requires !EqualFold("api", q.inboundTag)
    ensures var v := Route(w, q, routing.mode, RuleList(localProxyMode, routing, geo, cnCidrs));
            var bypassed := routing.localBypass != Some(false) && Local(w, q);
            var forced := localProxyMode.Some? && ToLower(TrimSpace(localProxyMode.value))
                                                  in {"force-proxy", "force_proxy", "proxy", "always-proxy"};
            && (bypassed ==> v.outbound == "direct")
            && (!bypassed && forced && LocalProxyInbound(q.inboundTag) ==> v.outbound == "proxy")
  {
    GuardLayerDecides(w, q, LocalBypass(routing), ForceProxy(localProxyMode), OtherRules(routing, geo, cnCidrs));
  }

  lemma ResolvedOutbound(w: World, met: Option<seq<string>>, ips: seq<string>, rule: Rule)
    requires rule.outboundTag != ""
    ensures var m := AgainstResolved(w, met, ips, rule); m.Matched? ==> m.outbound == rule.outboundTag
  {
  }

  lemma ByIPOutbound(w: World, q: Query, met: seq<string>, rule: Rule)
    requires rule.outboundTag != ""
    ensures var m := MatchByIP(w, q, met, rule); m.Matched? ==> m.outbound == rule.outboundTag
  {
    ResolvedOutbound(w, Some(met), OrNone(Resolve(w, q.host)), rule);
  }

  lemma DomainTargetOutbound(w: World, q: Query, met: seq<string>, rule: Rule)
    requires rule.outboundTag != ""
    ensures var m := MatchDomainTarget(w, q, met, rule); m.Matched? ==> m.outbound == rule.outboundTag
  {
    ByIPOutbound(w, q, met, rule);
  }

  lemma AddressTargetOutbound(w: World, q: Query, met: seq<string>, rule: Rule)
    requires rule.outboundTag != ""
    ensures var m := MatchAddressTarget(w, q, met, rule); m.Matched? ==> m.outbound == rule.outboundTag
  {
  }

  /** A rule that matches sends to its own outbound. */
  lemma TargetOutbound(w: World, q: Query, met: Option<seq<string>>, rule: Rule)
    requires rule.outboundTag != ""
    ensures var m := AgainstTarget(w, q, met, rule); m.Matched? ==> m.outbound == rule.outboundTag
  {
    if met.Some? {
      DomainTargetOutbound(w, q, met.value, rule);
      AddressTargetOutbound(w, q, met.value, rule);
    }
  }

  lemma SendsToOutbound(w: World, q: Query, rule: Rule)
    requires rule.outboundTag != ""
    ensures Sends(ByTarget(w, q), rule, rule.outboundTag)
  {
    TargetOutbound(w, q, Indicators(q, rule), rule);
  }

  lemma LocalhostMatches(w: World, q: Query)
    ensures ByTarget(w, q)(LocalhostRule()).Matched? <==> !w.isIP(TrimSpace(q.host)) && Localhost(w, q.host)
  {
    Unconditioned(w, q, LocalhostRule());
    LocalhostRuleMatches(w, q);
  }

  lemma LoopbackMatches(w: World, q: Query)
    ensures ByTarget(w, q)(LoopbackRule()).Matched? <==>
              if w.isIP(TrimSpace(q.host)) then Loopback(w, TrimSpace(q.host))
              else Strategy(q) == ON_DEMAND && exists ip :: ip in OrNone(Resolve(w, q.host)) && LoopbackAddress(w, ip)
  {
    Unconditioned(w, q, LoopbackRule());
    LoopbackRuleMatches(w, q);
  }

  lemma LocalRulesMatch(w: World, q: Query)
    ensures Local(w, q) <==> ByTarget(w, q)(LocalhostRule()).Matched? || ByTarget(w, q)(LoopbackRule()).Matched?
  {
    LocalhostMatches(w, q);
    LoopbackMatches(w, q);
  }

  lemma ProxyMatches(w: World, q: Query)
    requires LocalProxyInbound(q.inboundTag)
    ensures ByTarget(w, q)(LocalProxyRule()).Matched?
  {
    LocalProxyRuleMatches(w, q);
  }

  lemma ApiDoesNotMatch(w: World, q: Query)
    requires !EqualFold("api", q.inboundTag)
    ensures !ByTarget(w, q)(ApiRule()).Matched?
  {
    ApiRuleMatches(w, q);
  }

  lemma GuardsMatch(w: World, q: Query)
    requires !EqualFold("api", q.inboundTag)
    ensures GuardsFind(ByTarget(w, q), ApiRule(), LocalhostRule(), LoopbackRule(), LocalProxyRule(), Local(w, q),
                       LocalProxyInbound(q.inboundTag))
  {
    ApiDoesNotMatch(w, q);
    LocalRulesMatch(w, q);
    if LocalProxyInbound(q.inboundTag) { ProxyMatches(w, q); }
    SendsToOutbound(w, q, LocalhostRule());
    SendsToOutbound(w, q, LoopbackRule());
    SendsToOutbound(w, q, LocalProxyRule());
  }

  lemma GuardLayerDecides(w: World, q: Query, bypass: bool, force: bool, rest: seq<Rule>)
    requires !EqualFold("api", q.inboundTag)
    ensures var hit := FirstHit(ByTarget(w, q), Guards(bypass, force) + rest);
            && (bypass && Local(w, q) ==> hit.Some? && hit.value.match'.outbound == "direct")
            && (!(bypass && Local(w, q)) && force && LocalProxyInbound(q.inboundTag)
               ==> hit.Some? && hit.value.match'.outbound == "proxy")
  {
    GuardsMatch(w, q);
    LayerDecides(ByTarget(w, q), ApiRule(), LocalhostRule(), LoopbackRule(), LocalProxyRule(), bypass, force, rest,
                 Local(w, q), LocalProxyInbound(q.inboundTag));
  }

  // ---- joined strings are never split ------------------------------------------------

  lemma {:induction false} TrimKeeps(s: string, c: char)
    requires c in s && !IsSpace(c)
    ensures c in TrimSpace(s)
  {
    if IsSpace(s[0]) {
      assert s == [s[0]] + s[1..];
      TrimKeeps(s[1..], c);
    } else if IsSpace(s[|s| - 1]) {
      assert s == s[..|s| - 1] + [s[|s| - 1]];
      TrimKeeps(s[..|s| - 1], c);
    }
  }

  lemma CommaIsNoNumber(s: string)
    requires ',' in s
    ensures Atoi(TrimSpace(s)) == None
  {
    TrimKeeps(s, ',');
    var t := TrimSpace(s);
    var k :| 0 <= k < |t| && t[k] == ',';
    if t[0] == '+' || t[0] == '-' { assert t[1..][k - 1] == ','; }
  }

  lemma CommaIsNoPort(port: int, text: string)
    requires ',' in text
    ensures !PortInValue(port, text)
  {
    TrimKeeps(text, ',');
    CommaIsNoPortValue(TrimSpace(text), IndexOf(TrimSpace(text), '-'));
    NoPort(port, TrimSpace(text), IndexOf(TrimSpace(text), '-'));
  }

  predicate NoNumbers(value: string, dash: nat) {
    if dash < |value| then Atoi(TrimSpace(value[..dash])) == None || Atoi(TrimSpace(value[dash + 1..])) == None
    else Atoi(value) == None
  }

  lemma NoPort(port: int, value: string, dash: nat)
    requires dash == IndexOf(value, '-') && NoNumbers(value, dash)
    ensures !PortInTrimmed(port, value)
  {
  }

  lemma CommaIsNoPortValue(value: string, dash: nat)
    requires ',' in value && dash == IndexOf(value, '-') && !IsSpace(value[0]) && !IsSpace(value[|value| - 1])
    ensures NoNumbers(value, dash)
  {
    if dash < |value| {
      CommaOnOneSide(value, dash);
    } else {
      TrimNothing(value);
      CommaIsNoNumber(value);
    }
  }

  lemma CommaOnOneSide(value: string, dash: nat)
    requires ',' in value && dash < |value| && value[dash] == '-'
    ensures Atoi(TrimSpace(value[..dash])) == None || Atoi(TrimSpace(value[dash + 1..])) == None
  {
    assert value == value[..dash] + ['-'] + value[dash + 1..];
    if ',' in value[..dash] { CommaIsNoNumber(value[..dash]); } else { CommaIsNoNumber(value[dash + 1..]); }
  }

  lemma JoinHasSeparator(values: seq<string>)
    requires |values| >= 2
    ensures ',' in Join(values, ',')
  {
    assert Join(values, ',')[|values[0]|] == ',';
  }

  /** A user rule of several ports is joined into one string, which no port meets; one
      port or range alone is met as it reads. */
  lemma PortRuleMatchesIff(port: int, values: seq<string>)
    requires values != []
    ensures CheckPort(port, One(Join(values, ','))).Met? <==>
              |values| == 1 && TrimSpace(values[0]) != "" && port > 0 && PortInValue(port, values[0])
  {
    if |values| >= 2 {
      JoinHasSeparator(values);
      CommaIsNoPort(port, Join(values, ','));
    }
  }

  lemma NetworkChecked(protocol: string, value: string)
    requires TrimSpace(value) == value != ""
    ensures CheckProtocol(protocol, One(value)) == if EqualFold(value, protocol) then Met(value) else Refused
  {
  }

  lemma ConditionsOfSecond(c: Check)
    ensures Conditions(Unspecified, c, Unspecified, Unspecified) == if c.Refused? then None else Some(ValueOf(c))
  {
    assert [] + ValueOf(c) + [] + [] == ValueOf(c);
  }

  function DirectRule(): Rule { To("direct").(network := One("tcp,udp")) }

  lemma NetworkRuleMatches(w: World, q: Query, value: string, outbound: string)
    requires TrimSpace(value) == value != "" && outbound != ""
    ensures MatchRule(w, q, To(outbound).(network := One(value)))
            == if EqualFold(value, q.protocol) then Matched(value, outbound) else NoMatch
  {
    AbsentIsUnspecified(q);
    NetworkChecked(q.protocol, value);
    ConditionsOfSecond(CheckProtocol(q.protocol, One(value)));
    Unconditional(w, q, value, To(outbound).(network := One(value)));
  }

  lemma NetworkRuleResolved(w: World, q: Query, ips: seq<string>, value: string, outbound: string)
    requires TrimSpace(value) == value != "" && !EqualFold(value, q.protocol)
    ensures MatchResolved(w, q, ips, To(outbound).(network := One(value))) == NoMatch
  {
    AbsentIsUnspecified(q);
    NetworkChecked(q.protocol, value);
    ConditionsOfSecond(CheckProtocol(q.protocol, One(value)));
  }

  /** The closing rule of direct mode names one network "tcp,udp": only a connection
      with exactly that protocol meets it. */
  lemma DirectRuleMatchesIff(w: World, q: Query)
    ensures DefaultRules("direct") == [DirectRule()]
    ensures MatchRule(w, q, DirectRule())
            == if EqualFold("tcp,udp", q.protocol) then Matched("tcp,udp", "direct") else NoMatch
  {
    TrimNothing("tcp,udp");
    NetworkRuleMatches(w, q, "tcp,udp", "direct");
  }

  /** Even so, direct mode sends direct what no other rule matches: by that rule for
      that one protocol, and as the default for every other. */
  lemma DirectModeIsDirect(w: World, q: Query, rules: seq<Rule>)
    ensures var ips := Resolved(ByTarget(w, q), Resolve(w, q.host), rules + [DirectRule()]);
            var v := Route(w, q, "direct", rules + [DirectRule()]);
            FirstHit(ByTarget(w, q), rules).None? && FirstHit(ByResolved(w, q, ips), rules).None? ==>
              v.outbound == "direct" && (v.rule > 0 <==> EqualFold("tcp,udp", q.protocol))
  {
    var ips := Resolved(ByTarget(w, q), Resolve(w, q.host), rules + [DirectRule()]);
    if FirstHit(ByTarget(w, q), rules).None? && FirstHit(ByResolved(w, q, ips), rules).None? {
      DirectRuleMatchesIff(w, q);
      DirectRuleResolved(w, q, ips);
      LastRuleDecides(ByTarget(w, q), Resolve(w, q.host), Resolving(w, q), rules, DirectRule());
    }
  }

  lemma LastRuleDecides(first: Rule -> Match, answer: Option<seq<string>>, second: seq<string> -> Rule -> Match,
                        rules: seq<Rule>, last: Rule)
    requires FirstHit(first, rules).None?
    requires FirstHit(second(Resolved(first, answer, rules + [last])), rules).None?
    requires first(last).Matched? ==> first(last).outbound == "direct"
    requires !first(last).Matched? ==> !second(Resolved(first, answer, rules + [last]))(last).Matched?
    ensures var v := Decide(first, answer, second, "direct", rules + [last]);
            v.outbound == "direct" && (v.rule > 0 <==> first(last).Matched?)
  {
    LastRule(first, rules, last);
    LastRule(second(Resolved(first, answer, rules + [last])), rules, last);
  }

  lemma DirectRuleResolved(w: World, q: Query, ips: seq<string>)
    ensures !EqualFold("tcp,udp", q.protocol) ==> MatchResolved(w, q, ips, DirectRule()) == NoMatch
  {
    TrimNothing("tcp,udp");
    if !EqualFold("tcp,udp", q.protocol) { NetworkRuleResolved(w, q, ips, "tcp,udp", "direct"); }
  }

  lemma LastRule(m: Rule -> Match, rules: seq<Rule>, last: Rule)
    requires FirstHit(m, rules).None?
    ensures FirstHit(m, rules + [last]) == if m(last).Matched? then Some(Hit(|rules|, m(last))) else None
  {
    FirstMatchIff(m, rules, None);
    FirstMatchIff(m, rules + [last], if m(last).Matched? then Some(|rules|) else None);
  }
}
