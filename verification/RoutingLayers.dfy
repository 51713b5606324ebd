/** What the layers of the generated list decide: the user rules, kind by kind, the rules
    of the "bypass_cn" mode, the words that force the local proxy, and the api inbound. */
module RoutingLayers {
  import opened Options
  import opened Text
  import opened RoutingRules
  import opened RoutingTest
  import opened RoutingGuards
  import opened RoutingMatches

  // ---- behind the api rule ----------------------------------------------------------

  /** A rule that matches in no pass and is never deferred. */
  ghost predicate Inert(first: Rule -> Match, second: seq<string> -> Rule -> Match, rule: Rule) {
    first(rule).NoMatch? && forall ips :: !second(ips)(rule).Matched?
  }

  /** The same verdict, one place further on. */
  ghost predicate OneBehind(v: Verdict, behind: Verdict) {
    behind.outbound == v.outbound && behind.rule == if v.rule == 0 then 0 else v.rule + 1
  }

  lemma HitBehind(m: Rule -> Match, front: Rule, rest: seq<Rule>)
    requires !m(front).Matched?
    ensures var (hit, behind) := (FirstHit(m, rest), FirstHit(m, [front] + rest));
            behind == if hit.None? then None else Some(Hit(hit.value.index + 1, hit.value.match'))
  {
    assert ([front] + rest)[0] == front && ([front] + rest)[1..] == rest;
  }

  lemma DeferredBehind(m: Rule -> Match, front: Rule, rest: seq<Rule>)
    requires m(front) != Deferred
    ensures AnyDeferred(m, [front] + rest) <==> AnyDeferred(m, rest)
  {
    if r :| r in rest && m(r) == Deferred { assert r in [front] + rest; }
  }

  lemma DecideBehind(first: Rule -> Match, answer: Option<seq<string>>, second: seq<string> -> Rule -> Match,
                     mode: string, front: Rule, rest: seq<Rule>)
    requires Inert(first, second, front)
    ensures OneBehind(Decide(first, answer, second, mode, rest), Decide(first, answer, second, mode, [front] + rest))
  {
    HitBehind(first, front, rest);
    DeferredBehind(first, front, rest);
    HitBehind(second(Resolved(first, answer, rest)), front, rest);
  }

  lemma ApiIsInert(w: World, q: Query)
    requires !EqualFold("api", q.inboundTag)
    ensures Inert(ByTarget(w, q), Resolving(w, q), ApiRule())
  {
    ApiRuleMatches(w, q);
    forall ips ensures !Resolving(w, q)(ips)(ApiRule()).Matched? { ApiNeverResolves(w, q, ips); }
  }

  lemma ApiNeverResolves(w: World, q: Query, ips: seq<string>)
    requires !EqualFold("api", q.inboundTag)
    ensures MatchResolved(w, q, ips, ApiRule()) == NoMatch
  {
    TrimNothing("api");
    TagRefused(q.inboundTag, "api");
    OnlyInbound(q, ApiRule(), Refused);
  }

  /** Off the api inbound the api rule does not count. */
  lemma BehindApi(w: World, q: Query, mode: string, rest: seq<Rule>)
    requires !EqualFold("api", q.inboundTag)
    ensures OneBehind(Route(w, q, mode, rest), Route(w, q, mode, [ApiRule()] + rest))
  {
    ApiIsInert(w, q);
    DecideBehind(ByTarget(w, q), Resolve(w, q.host), Resolving(w, q), mode, ApiRule(), rest);
  }

  lemma ApiRuleGives(w: World, q: Query)
    requires EqualFold("api", q.inboundTag)
    ensures ByTarget(w, q)(ApiRule()).Matched? && ByTarget(w, q)(ApiRule()).outbound == "api"
  {
    TrimNothing("api");
    OnInbound(w, q, ["api"], "api", "api");
  }

  lemma FirstRuleDecides(w: World, q: Query, mode: string, rule: Rule, rest: seq<Rule>)
    requires ByTarget(w, q)(rule).Matched?
    ensures Route(w, q, mode, [rule] + rest).outbound == ByTarget(w, q)(rule).outbound
  {
    FirstOfLayers(ByTarget(w, q), [rule], rest, 0);
  }

  lemma ListHead(localProxyMode: Option<string>, routing: Routing, geo: GeoData, cnCidrs: seq<string>)
    returns (rest: seq<Rule>)
    ensures RuleList(localProxyMode, routing, geo, cnCidrs) == [ApiRule()] + rest
  {
    rest := RuleList(localProxyMode, routing, geo, cnCidrs)[1..];
  }

  /** On the api inbound everything goes to the api, whatever the settings. */
  lemma ApiDecides(w: World, q: Query, localProxyMode: Option<string>, routing: Routing, geo: GeoData,
                   cnCidrs: seq<string>)
    requires EqualFold("api", q.inboundTag)
    ensures Route(w, q, routing.mode, RuleList(localProxyMode, routing, geo, cnCidrs)).outbound == "api"
  {
    var rest := ListHead(localProxyMode, routing, geo, cnCidrs);
    ApiRuleGives(w, q);
    FirstRuleDecides(w, q, routing.mode, ApiRule(), rest);
  }

  // ---- which settings count ----------------------------------------------------------

  /** Four words force the local proxy; every other setting, and none, does not. */
  lemma ForceProxyIff(localProxyMode: Option<string>)
    ensures ForceProxy(localProxyMode)
            <==> localProxyMode.Some?
                 && Norm(localProxyMode.value) in {"force-proxy", "force_proxy", "proxy", "always-proxy"}
  {
    Plain("follow-routing");
  }

  /** User rules are compiled one by one, in order. */
  lemma {:induction false} UserRulesInOrder(a: seq<UserRule>, b: seq<UserRule>, geo: GeoData)
    ensures AllUserRules(a + b, geo) == AllUserRules(a, geo) + AllUserRules(b, geo)
  {
    if a == [] {
      assert a + b == b;
    } else {
      assert (a + b)[0] == a[0] && (a + b)[1..] == a[1..] + b;
      UserRulesInOrder(a[1..], b, geo);
    }
  }

  // ---- user rules, kind by kind ---------------------------------------------------------

  /** Off the api inbound, with the guards off and in a mode without rules of its own, one
      user rule decides if it is met, and otherwise the proxy is the default. */
  ghost predicate UserSent(w: World, q: Query, rule: UserRule, geo: GeoData, met: bool) {
    forall cnCidrs, mode: string :: mode != "bypass_cn" && mode != "direct" ==>
      var v := Route(w, q, mode, RuleList(None, Routing(mode, Some(false), [rule]), geo, cnCidrs));
      v.rule == (if met then 2 else 0) && v.outbound == if met then rule.outbound else "proxy"
  }

  lemma OneUserRuleList(mode: string, rule: UserRule, geo: GeoData, cnCidrs: seq<string>, made: seq<Rule>)
    requires mode != "bypass_cn" && mode != "direct" && UserRules(rule, geo) == made
    ensures RuleList(None, Routing(mode, Some(false), [rule]), geo, cnCidrs) == [ApiRule()] + made
  {
    ForceProxyIff(None);
    assert [rule][1..] == [] && AllUserRules([rule], geo) == made + [];
  }

  lemma SentBehindApi(w: World, q: Query, mode: string, made: Rule, met: bool, outbound: string)
    requires !EqualFold("api", q.inboundTag) && mode != "direct"
    requires Sent(Route(w, q, mode, [made]), met, outbound, mode)
    ensures var v := Route(w, q, mode, [ApiRule()] + [made]);
            v.rule == (if met then 2 else 0) && v.outbound == if met then outbound else "proxy"
  {
    BehindApi(w, q, mode, [made]);
  }

  /** A user rule that is compiled to one rule does what that rule does. */
  lemma CompiledSent(w: World, q: Query, rule: UserRule, geo: GeoData, made: Rule, met: bool)
    requires !EqualFold("api", q.inboundTag) && UserRules(rule, geo) == [made]
    requires forall mode :: Sent(Route(w, q, mode, [made]), met, rule.outbound, mode)
    ensures UserSent(w, q, rule, geo, met)
  {
    forall cnCidrs, mode: string | mode != "bypass_cn" && mode != "direct"
      ensures var v := Route(w, q, mode, RuleList(None, Routing(mode, Some(false), [rule]), geo, cnCidrs));
              v.rule == (if met then 2 else 0) && v.outbound == if met then rule.outbound else "proxy"
    {
      OneUserRuleList(mode, rule, geo, cnCidrs, [made]);
      SentBehindApi(w, q, mode, made, met, rule.outbound);
    }
  }

  lemma NothingRouted(w: World, q: Query, mode: string)
    requires mode != "direct"
    ensures Route(w, q, mode, []).rule == 0 && Route(w, q, mode, []).outbound == "proxy"
  {
  }

  /** A user rule that is skipped decides nothing. */
  lemma SkippedSent(w: World, q: Query, rule: UserRule, geo: GeoData)
    requires !EqualFold("api", q.inboundTag) && UserRules(rule, geo) == []
    ensures UserSent(w, q, rule, geo, false)
  {
    forall cnCidrs, mode: string | mode != "bypass_cn" && mode != "direct"
      ensures var v := Route(w, q, mode, RuleList(None, Routing(mode, Some(false), [rule]), geo, cnCidrs));
              v.rule == 0 && v.outbound == "proxy"
    {
      OneUserRuleList(mode, rule, geo, cnCidrs, []);
      BehindApi(w, q, mode, []);
      NothingRouted(w, q, mode);
    }
  }

  /** A target that is a name. */
  ghost predicate IsName(w: World, q: Query) {
    !w.isIP(TrimSpace(q.host)) && !w.isIP(Norm(q.host)) && Norm(q.host) != ""
  }

  lemma NameRuleSent(w: World, q: Query, made: Rule, value: string, outbound: string, met: bool)
    requires OnlyDomain(made, [value], outbound) && outbound != "" && !w.isIP(TrimSpace(q.host))
    requires MatchDomain(w, q.host, [value]) == if met then Some(value) else None
    ensures forall mode :: Sent(Route(w, q, mode, [made]), met, outbound, mode)
  {
    forall mode ensures Sent(Route(w, q, mode, [made]), met, outbound, mode) {
      DomainRuleSent(w, q, mode, made, value, outbound, met);
    }
  }

  lemma NamePatternSent(w: World, q: Query, rule: UserRule, geo: GeoData, value: string, d: string) returns (met: bool)
    requires !EqualFold("api", q.inboundTag) && rule.outbound != "" && IsName(w, q)
    requires UserRules(rule, geo) == [To(rule.outbound).(domain := Many([value]))]
    ensures Names(Norm(value), d, Norm(q.host), met) && UserSent(w, q, rule, geo, met)
  {
    met := DomainInValue(Norm(q.host), value);
    OneDomainFound(w, q.host, value);
    NameRuleSent(w, q, To(rule.outbound).(domain := Many([value])), value, rule.outbound, met);
    CompiledSent(w, q, rule, geo, To(rule.outbound).(domain := Many([value])), met);
    DomainValue(Norm(q.host), value, d);
  }

  /** A user rule of kind "domain". */
  lemma UserDomainRule(w: World, q: Query, value: string, outbound: string, geo: GeoData, d: string)
    returns (met: bool)
    requires !EqualFold("api", q.inboundTag) && outbound != "" && IsName(w, q)
    ensures Names(Norm(value), d, Norm(q.host), met)
    ensures UserSent(w, q, UserRule("domain", [value], outbound), geo, met)
  {
    met := NamePatternSent(w, q, UserRule("domain", [value], outbound), geo, value, d);
  }

  /** A user rule of kind "geosite" is the pattern with that word in front, with the data;
      without them it is skipped. */
  lemma UserGeositeRule(w: World, q: Query, value: string, outbound: string, geo: GeoData, d: string)
    returns (met: bool)
    requires !EqualFold("api", q.inboundTag) && outbound != "" && IsName(w, q)
    ensures geo.geosite ==> Names(Norm("geosite:" + value), d, Norm(q.host), met)
    ensures !geo.geosite ==> !met
    ensures UserSent(w, q, UserRule("geosite", [value], outbound), geo, met)
  {
    var rule := UserRule("geosite", [value], outbound);
    if geo.geosite {
      assert WithPrefix("geosite:", [value]) == ["geosite:" + value];
      met := NamePatternSent(w, q, rule, geo, "geosite:" + value, d);
    } else {
      met := false;
      SkippedSent(w, q, rule, geo);
    }
  }

  lemma AddressPatternSent(w: World, q: Query, rule: UserRule, geo: GeoData, value: string, oracle: string -> bool)
    requires !EqualFold("api", q.inboundTag) && rule.outbound != "" && w.isIP(TrimSpace(q.host))
    requires UserRules(rule, geo) == [To(rule.outbound).(ip := Many([value]))] && AsksFor(w, Norm(value), oracle)
    ensures UserSent(w, q, rule, geo, oracle(TrimSpace(q.host)))
  {
    var made := To(rule.outbound).(ip := Many([value]));
    forall mode ensures Sent(Route(w, q, mode, [made]), oracle(TrimSpace(q.host)), rule.outbound, mode) {
      AddressRuleMeans(w, q, mode, rule.outbound, value, oracle);
    }
    CompiledSent(w, q, rule, geo, made, oracle(TrimSpace(q.host)));
  }

  /** A user rule of kind "ip". */
  lemma UserIpRule(w: World, q: Query, value: string, outbound: string, geo: GeoData, oracle: string -> bool)
    requires !EqualFold("api", q.inboundTag) && outbound != "" && w.isIP(TrimSpace(q.host))
    requires AsksFor(w, Norm(value), oracle)
    ensures UserSent(w, q, UserRule("ip", [value], outbound), geo, oracle(TrimSpace(q.host)))
  {
    AddressPatternSent(w, q, UserRule("ip", [value], outbound), geo, value, oracle);
  }

  /** A user rule of kind "geoip" is the pattern with that word in front, with the data;
      without them it is skipped. */
  lemma UserGeoipRule(w: World, q: Query, value: string, outbound: string, geo: GeoData, oracle: string -> bool)
    requires !EqualFold("api", q.inboundTag) && outbound != "" && w.isIP(TrimSpace(q.host))
    requires AsksFor(w, Norm("geoip:" + value), oracle)
    ensures UserSent(w, q, UserRule("geoip", [value], outbound), geo, geo.geoip && oracle(TrimSpace(q.host)))
  {
    var rule := UserRule("geoip", [value], outbound);
    if geo.geoip {
      assert WithPrefix("geoip:", [value]) == ["geoip:" + value];
      AddressPatternSent(w, q, rule, geo, "geoip:" + value, oracle);
    } else {
      SkippedSent(w, q, rule, geo);
    }
  }

  /** A user rule of kind "port", of one port. */
  lemma UserPortRule(w: World, q: Query, value: string, outbound: string, geo: GeoData, n: nat)
    requires !EqualFold("api", q.inboundTag) && outbound != "" && n <= MAX_INT64 && TrimSpace(value) == Itoa(n)
    ensures UserSent(w, q, UserRule("port", [value], outbound), geo, q.port > 0 && q.port == n)
  {
    PortSent(w, q, value, outbound, n);
    CompiledSent(w, q, UserRule("port", [value], outbound), geo, To(outbound).(port := One(value)),
                 q.port > 0 && q.port == n);
  }

  lemma PortSent(w: World, q: Query, value: string, outbound: string, n: nat)
    requires outbound != "" && n <= MAX_INT64 && TrimSpace(value) == Itoa(n)
    ensures forall mode ::
              Sent(Route(w, q, mode, [To(outbound).(port := One(value))]), q.port > 0 && q.port == n, outbound, mode)
  {
    forall mode
      ensures Sent(Route(w, q, mode, [To(outbound).(port := One(value))]), q.port > 0 && q.port == n, outbound, mode)
    {
      PortRuleMeans(w, q, mode, outbound, value, n);
    }
  }

  /** A user rule of kind "protocol". */
  lemma UserProtocolRule(w: World, q: Query, values: seq<string>, outbound: string, geo: GeoData)
    requires !EqualFold("api", q.inboundTag) && outbound != "" && values != []
    ensures UserSent(w, q, UserRule("protocol", values, outbound), geo, Lists(values, q.protocol))
  {
    var (rule, made) := (UserRule("protocol", values, outbound), To(outbound).(protocol := Many(values)));
    forall mode ensures Sent(Route(w, q, mode, [made]), Lists(values, q.protocol), outbound, mode) {
      ProtocolRuleMeans(w, q, mode, outbound, values);
    }
    CompiledSent(w, q, rule, geo, made, Lists(values, q.protocol));
  }

  /** A user rule of any other kind is compiled to a rule without conditions, which decides
      nothing. */
  lemma UserUnknownRule(w: World, q: Query, rule: UserRule, geo: GeoData)
    requires !EqualFold("api", q.inboundTag)
    requires rule.kind !in {"domain", "ip", "geoip", "geosite", "port", "protocol"}
    ensures UserSent(w, q, rule, geo, false)
  {
    var made := To(rule.outbound);
    forall mode ensures Sent(Route(w, q, mode, [made]), false, rule.outbound, mode) {
      EmptyRuleSent(w, q, mode, made);
    }
    CompiledSent(w, q, rule, geo, made, false);
  }

  lemma EmptyRuleSent(w: World, q: Query, mode: string, made: Rule)
    requires made == To(made.outboundTag)
    ensures Sent(Route(w, q, mode, [made]), false, made.outboundTag, mode)
  {
    EmptyRuleGives(w, q, made);
    RouteOne(w, q, mode, made, false, made.outboundTag);
  }

  lemma EmptyRuleGives(w: World, q: Query, made: Rule)
    requires made == To(made.outboundTag)
    ensures MatchRule(w, q, made) == NoMatch
  {
    Unconditioned(w, q, made);
  }

  // ---- the rules of the mode "bypass_cn" ---------------------------------------------------

  /** The address is private: by the geo data, or, without them, by eight prefixes. */
  ghost predicate IsPrivate(w: World, ip: string, geo: GeoData) {
    if geo.geoip then w.inGeoip(ip, "PRIVATE") || w.isPrivate(ip)
    else exists c :: c in ["10.0.0.0/8", "172.16.0.0/12", "192.168.0.0/16", "127.0.0.0/8", "169.254.0.0/16",
                           "::1/128", "fe80::/10", "fc00::/7"] && w.inCidr(ip, c)
  }

  /** The address is Chinese: by the geo data, or, without them, by the built-in prefixes. */
  ghost predicate IsChinese(w: World, ip: string, geo: GeoData, cnCidrs: seq<string>) {
    if geo.geoip then w.inGeoip(ip, "CN") || w.isBuiltinCN(ip) else exists c :: c in cnCidrs && w.inCidr(ip, c)
  }

  ghost predicate AreCidrs(cidrs: seq<string>) {
    forall c :: c in cidrs ==> Norm(c) == c && '/' in c && !HasPrefix(c, "geoip:")
  }

  lemma CidrsFound(w: World, host: string, cidrs: seq<string>)
    requires AreCidrs(cidrs) && w.isIP(TrimSpace(host))
    ensures MatchIP(w, host, cidrs).Some? <==> exists c :: c in cidrs && w.inCidr(TrimSpace(host), c)
  {
    forall c | c in cidrs ensures AddressInValue(w, TrimSpace(host), c) <==> w.inCidr(TrimSpace(host), c) {
      PlainAddressValue(w, TrimSpace(host), c);
    }
  }

  lemma CidrText(c: string, slash: nat)
    requires slash < |c| && c[slash] == '/' && c[0] != 'g' && !IsSpace(c[0]) && !IsSpace(c[|c| - 1])
    requires forall i :: 0 <= i < |c| ==> !('A' <= c[i] <= 'Z')
    ensures AreCidrs([c])
  {
    Plain(c);
    OtherTag("geoip:", c);
  }

  lemma PrivateCidrs()
    ensures AreCidrs(PRIVATE)
  {
    CidrText("10.0.0.0/8", 8);
    CidrText("172.16.0.0/12", 10);
    CidrText("192.168.0.0/16", 11);
    CidrText("127.0.0.0/8", 9);
    CidrText("169.254.0.0/16", 11);
    CidrText("::1/128", 3);
    CidrText("fe80::/10", 6);
    CidrText("fc00::/7", 6);
    CidrsJoined();
  }

  lemma CidrsJoined()
    requires AreCidrs(["10.0.0.0/8"]) && AreCidrs(["172.16.0.0/12"]) && AreCidrs(["192.168.0.0/16"])
    requires AreCidrs(["127.0.0.0/8"]) && AreCidrs(["169.254.0.0/16"]) && AreCidrs(["::1/128"])
    requires AreCidrs(["fe80::/10"]) && AreCidrs(["fc00::/7"])
    ensures AreCidrs(PRIVATE)
  {
    forall c | c in PRIVATE ensures c in [c] && AreCidrs([c]) {}
  }

  lemma GeoFoundOf(w: World, host: string, value: string, code: string)
    requires w.isIP(TrimSpace(host)) && code in {"private", "cn"} && Norm(value) == "geoip:" + code
    ensures MatchIP(w, host, [value]).Some? <==>
              if code == "private" then w.inGeoip(TrimSpace(host), "PRIVATE") || w.isPrivate(TrimSpace(host))
              else w.inGeoip(TrimSpace(host), "CN") || w.isBuiltinCN(TrimSpace(host))
  {
    OneAddressFound(w, host, value);
    GeoipValue(w, TrimSpace(host), value, code);
  }

  lemma GeoFound(w: World, host: string)
    requires w.isIP(TrimSpace(host))
    ensures MatchIP(w, host, ["geoip:private"]).Some?
            <==> w.inGeoip(TrimSpace(host), "PRIVATE") || w.isPrivate(TrimSpace(host))
    ensures MatchIP(w, host, ["geoip:cn"]).Some?
            <==> w.inGeoip(TrimSpace(host), "CN") || w.isBuiltinCN(TrimSpace(host))
  {
    Plain("geoip:private");
    Plain("geoip:cn");
    GeoFoundOf(w, host, "geoip:private", "private");
    GeoFoundOf(w, host, "geoip:cn", "cn");
  }

  function PrivateValues(geo: GeoData): seq<string> { if geo.geoip then ["geoip:private"] else PRIVATE }

  function ChineseValues(geo: GeoData, cnCidrs: seq<string>): seq<string> {
    if geo.geoip then ["geoip:cn"] else cnCidrs
  }

  lemma PrivateFound(w: World, host: string, geo: GeoData)
    requires w.isIP(TrimSpace(host))
    ensures MatchIP(w, host, PrivateValues(geo)).Some? <==> IsPrivate(w, TrimSpace(host), geo)
  {
    if geo.geoip {
      GeoFound(w, host);
    } else {
      PrivateCidrs();
      CidrsFound(w, host, PRIVATE);
    }
  }

  lemma ChineseFound(w: World, host: string, geo: GeoData, cnCidrs: seq<string>)
    requires w.isIP(TrimSpace(host)) && AreCidrs(cnCidrs)
    ensures MatchIP(w, host, ChineseValues(geo, cnCidrs)).Some? <==> IsChinese(w, TrimSpace(host), geo, cnCidrs)
  {
    if geo.geoip { GeoFound(w, host); } else { CidrsFound(w, host, cnCidrs); }
  }

  /** What a rule gives for the target: a match that sends to the outbound, or none. */
  ghost predicate Gives(m: Match, met: bool, outbound: string) {
    !m.Deferred? && (m.Matched? <==> met) && (met ==> m.outbound == outbound)
  }

  lemma AddressRuleFound(w: World, q: Query, rule: Rule, values: seq<string>)
    requires values != [] && w.isIP(TrimSpace(q.host)) && OnlyAddress(rule, values, "direct")
    ensures Gives(ByTarget(w, q)(rule), MatchIP(w, q.host, values).Some?, "direct")
  {
    AddressRuleGives(w, q, rule, values, "direct");
  }

  lemma AddressRuleMissed(w: World, q: Query, rule: Rule, values: seq<string>)
    requires values != [] && !w.isIP(TrimSpace(q.host)) && OnlyAddress(rule, values, "direct")
    requires Norm(q.strategy) !in {"ipondemand", "ipifnonmatch"}
    ensures Gives(ByTarget(w, q)(rule), false, "direct")
  {
    AddressRuleOnName(w, q, rule, values, "direct");
  }

  /** The target is a name under cn. */
  ghost predicate UnderCn(w: World, q: Query) {
    IsName(w, q) && exists front: string :: Norm(q.host) == front + ".cn"
  }

  lemma ChineseNameRule(w: World, q: Query, rule: Rule, value: string)
    requires OnlyDomain(rule, [value], "direct") && Norm(value) == "geosite:cn" + ""
    ensures Gives(ByTarget(w, q)(rule), UnderCn(w, q), "direct")
  {
    GeositeValue(Norm(q.host), value, "");
    OneDomainFound(w, q.host, value);
    DomainRuleGives(w, q, rule, [value], "direct");
  }

  function ToDirect(values: seq<string>): Rule { To("direct").(ip := Many(values)) }

  function ToDirectNames(): Rule { To("direct").(domain := Many(["geosite:cn"])) }

  /** The rule for the names of China, if there are data. */
  function ChineseNames(geo: GeoData): seq<Rule> { if geo.geosite then [ToDirectNames()] else [] }

  lemma ModeList(users: seq<UserRule>, geo: GeoData, cnCidrs: seq<string>)
    ensures RuleList(None, Routing("bypass_cn", Some(false), users), geo, cnCidrs)
            == [ApiRule()] + ([ToDirect(PrivateValues(geo)), ToDirect(ChineseValues(geo, cnCidrs))]
                              + (ChineseNames(geo) + AllUserRules(users, geo)))
  {
    ForceProxyIff(None);
  }

  /** The first of two rules that is met decides. */
  lemma OneOfTwo(first: Rule -> Match, answer: Option<seq<string>>, second: seq<string> -> Rule -> Match, a: Rule,
                 b: Rule, rest: seq<Rule>, metA: bool, metB: bool)
    requires Gives(first(a), metA, "direct") && Gives(first(b), metB, "direct") && (metA || metB)
    ensures Decide(first, answer, second, "bypass_cn", [a, b] + rest).outbound == "direct"
  {
    FirstOfLayers(first, [a, b], rest, if metA then 0 else 1);
  }

  lemma ListBehindApi(w: World, q: Query, list: seq<Rule>, rest: seq<Rule>, outbound: string)
    requires !EqualFold("api", q.inboundTag) && list == [ApiRule()] + rest
    requires Route(w, q, "bypass_cn", rest).outbound == outbound
    ensures Route(w, q, "bypass_cn", list).outbound == outbound
  {
    BehindApi(w, q, "bypass_cn", rest);
  }

  lemma RouteTwo(w: World, q: Query, a: Rule, b: Rule, rest: seq<Rule>, metA: bool, metB: bool)
    requires Gives(ByTarget(w, q)(a), metA, "direct") && Gives(ByTarget(w, q)(b), metB, "direct") && (metA || metB)
    ensures Route(w, q, "bypass_cn", [a, b] + rest).outbound == "direct"
  {
    OneOfTwo(ByTarget(w, q), Resolve(w, q.host), Resolving(w, q), a, b, rest, metA, metB);
  }

  lemma AddressRulesGive(w: World, q: Query, geo: GeoData, cnCidrs: seq<string>, a: Rule, b: Rule)
    requires w.isIP(TrimSpace(q.host)) && AreCidrs(cnCidrs) && cnCidrs != []
    requires a == ToDirect(PrivateValues(geo)) && b == ToDirect(ChineseValues(geo, cnCidrs))
    ensures Gives(ByTarget(w, q)(a), IsPrivate(w, TrimSpace(q.host), geo), "direct")
    ensures Gives(ByTarget(w, q)(b), IsChinese(w, TrimSpace(q.host), geo, cnCidrs), "direct")
  {
    PrivateFound(w, q.host, geo);
    ChineseFound(w, q.host, geo, cnCidrs);
    AddressRuleFound(w, q, a, PrivateValues(geo));
    AddressRuleFound(w, q, b, ChineseValues(geo, cnCidrs));
  }

  lemma ModeListIs(users: seq<UserRule>, geo: GeoData, cnCidrs: seq<string>, a: Rule, b: Rule, rest: seq<Rule>)
    requires a == ToDirect(PrivateValues(geo)) && b == ToDirect(ChineseValues(geo, cnCidrs))
    requires rest == ChineseNames(geo) + AllUserRules(users, geo)
    ensures RuleList(None, Routing("bypass_cn", Some(false), users), geo, cnCidrs) == [ApiRule()] + ([a, b] + rest)
  {
    ModeList(users, geo, cnCidrs);
  }

  /** In the mode "bypass_cn", off the api inbound, private and Chinese addresses go direct,
      whatever the user rules say. */
  lemma BypassCnDecides(w: World, q: Query, users: seq<UserRule>, geo: GeoData, cnCidrs: seq<string>)
    requires !EqualFold("api", q.inboundTag) && w.isIP(TrimSpace(q.host)) && AreCidrs(cnCidrs) && cnCidrs != []
    requires IsPrivate(w, TrimSpace(q.host), geo) || IsChinese(w, TrimSpace(q.host), geo, cnCidrs)
    ensures Route(w, q, "bypass_cn",
                  RuleList(None, Routing("bypass_cn", Some(false), users), geo, cnCidrs)).outbound == "direct"
  {
    var (a, b) := (ToDirect(PrivateValues(geo)), ToDirect(ChineseValues(geo, cnCidrs)));
    var rest := ChineseNames(geo) + AllUserRules(users, geo);
    AddressRulesGive(w, q, geo, cnCidrs, a, b);
    RouteTwo(w, q, a, b, rest, IsPrivate(w, TrimSpace(q.host), geo), IsChinese(w, TrimSpace(q.host), geo, cnCidrs));
    ModeListIs(users, geo, cnCidrs, a, b, rest);
    var rules := RuleList(None, Routing("bypass_cn", Some(false), users), geo, cnCidrs);
    ListBehindApi(w, q, rules, [a, b] + rest, "direct");
  }

  lemma NoneMatches(first: Rule -> Match, answer: Option<seq<string>>, second: seq<string> -> Rule -> Match,
                    mode: string, rules: seq<Rule>)
    requires Fitting(first, second, rules) && mode != "direct"
    requires forall k :: 0 <= k < |rules| ==> first(rules[k]) == NoMatch
    ensures Decide(first, answer, second, mode, rules) == Verdict("proxy", 0, "", [])
  {
    FirstMatchIff(first, rules, None);
    FirstMatchIff(second([]), rules, None);
  }

  lemma OneOfThree(first: Rule -> Match, answer: Option<seq<string>>, second: seq<string> -> Rule -> Match, a: Rule,
                   b: Rule, last: seq<Rule>, metLast: bool)
    requires Fitting(first, second, [a, b] + last) && |last| <= 1
    requires Gives(first(a), false, "direct") && Gives(first(b), false, "direct")
    requires last != [] ==> Gives(first(last[0]), metLast, "direct")
    ensures Decide(first, answer, second, "bypass_cn", [a, b] + last).outbound
            == if last != [] && metLast then "direct" else "proxy"
  {
    if last != [] && metLast {
      FirstMatchIff(first, [a, b] + last, Some(2));
    } else {
      NoneMatches(first, answer, second, "bypass_cn", [a, b] + last);
    }
  }

  lemma ChineseNamesGive(w: World, q: Query)
    ensures Gives(ByTarget(w, q)(ToDirectNames()), UnderCn(w, q), "direct")
  {
    Plain("geosite:cn");
    assert "geosite:cn" + "" == "geosite:cn";
    ChineseNameRule(w, q, ToDirectNames(), "geosite:cn");
  }

  lemma RouteThree(w: World, q: Query, a: Rule, b: Rule, last: seq<Rule>, metLast: bool)
    requires |last| <= 1 && Gives(ByTarget(w, q)(a), false, "direct") && Gives(ByTarget(w, q)(b), false, "direct")
    requires last != [] ==> Gives(ByTarget(w, q)(last[0]), metLast, "direct")
    ensures Route(w, q, "bypass_cn", [a, b] + last).outbound == if last != [] && metLast then "direct" else "proxy"
  {
    MatchersFit(w, q, [a, b] + last);
    OneOfThree(ByTarget(w, q), Resolve(w, q.host), Resolving(w, q), a, b, last, metLast);
  }

  lemma ModeListAlone(geo: GeoData, cnCidrs: seq<string>, a: Rule, b: Rule)
    requires a == ToDirect(PrivateValues(geo)) && b == ToDirect(ChineseValues(geo, cnCidrs))
    ensures RuleList(None, Routing("bypass_cn", Some(false), []), geo, cnCidrs)
            == [ApiRule()] + ([a, b] + ChineseNames(geo))
  {
    assert ChineseNames(geo) == ChineseNames(geo) + AllUserRules([], geo);
    ModeListIs([], geo, cnCidrs, a, b, ChineseNames(geo));
  }

  /** Without user rules, when neither address rule is met. */
  lemma OnlyNames(w: World, q: Query, geo: GeoData, cnCidrs: seq<string>, a: Rule, b: Rule)
    requires !EqualFold("api", q.inboundTag)
    requires a == ToDirect(PrivateValues(geo)) && b == ToDirect(ChineseValues(geo, cnCidrs))
    requires Gives(ByTarget(w, q)(a), false, "direct") && Gives(ByTarget(w, q)(b), false, "direct")
    ensures Route(w, q, "bypass_cn",
                  RuleList(None, Routing("bypass_cn", Some(false), []), geo, cnCidrs)).outbound
            == if geo.geosite && UnderCn(w, q) then "direct" else "proxy"
  {
    ChineseNamesGive(w, q);
    RouteThree(w, q, a, b, ChineseNames(geo), UnderCn(w, q));
    ModeListAlone(geo, cnCidrs, a, b);
    ListBehindApi(w, q, RuleList(None, Routing("bypass_cn", Some(false), []), geo, cnCidrs),
                  [a, b] + ChineseNames(geo), if geo.geosite && UnderCn(w, q) then "direct" else "proxy");
  }

  /** Without user rules every other address goes to the proxy. */
  lemma BypassCnOtherwise(w: World, q: Query, geo: GeoData, cnCidrs: seq<string>)
    requires !EqualFold("api", q.inboundTag) && w.isIP(TrimSpace(q.host)) && AreCidrs(cnCidrs) && cnCidrs != []
    requires !IsPrivate(w, TrimSpace(q.host), geo) && !IsChinese(w, TrimSpace(q.host), geo, cnCidrs)
    ensures Route(w, q, "bypass_cn",
                  RuleList(None, Routing("bypass_cn", Some(false), []), geo, cnCidrs)).outbound == "proxy"
  {
    var (a, b) := (ToDirect(PrivateValues(geo)), ToDirect(ChineseValues(geo, cnCidrs)));
    AddressRulesGive(w, q, geo, cnCidrs, a, b);
    OnlyNames(w, q, geo, cnCidrs, a, b);
  }

  /** Names under cn go direct if there are data for names, and other names to the proxy,
      under the strategies that resolve nothing. */
  lemma BypassCnOfName(w: World, q: Query, geo: GeoData, cnCidrs: seq<string>)
    requires !EqualFold("api", q.inboundTag) && IsName(w, q) && cnCidrs != []
    requires Norm(q.strategy) !in {"ipondemand", "ipifnonmatch"}
    ensures Route(w, q, "bypass_cn",
                  RuleList(None, Routing("bypass_cn", Some(false), []), geo, cnCidrs)).outbound
            == if geo.geosite && exists front: string :: Norm(q.host) == front + ".cn" then "direct" else "proxy"
  {
    var (p, c) := (PrivateValues(geo), ChineseValues(geo, cnCidrs));
    AddressRuleMissed(w, q, ToDirect(p), p);
    AddressRuleMissed(w, q, ToDirect(c), c);
    OnlyNames(w, q, geo, cnCidrs, ToDirect(p), ToDirect(c));
  }
}
