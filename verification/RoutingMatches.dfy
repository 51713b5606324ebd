/** What one rule means, condition by condition: the verdict of a list of one rule, for
    every target and every pattern, said of texts and of the oracles of the world. */
module RoutingMatches {
  import opened Options
  import opened Text
  import opened RoutingRules
  import opened RoutingTest
  import opened RoutingGuards

  // ---- a list of one rule ---------------------------------------------------------

  /** The only rule of the list decides if it is met, and otherwise the default does. */
  ghost predicate Sent(v: Verdict, met: bool, outbound: string, mode: string) {
    && v.rule == (if met then 1 else 0)
    && v.outbound == if met then outbound else if mode == "direct" then "direct" else "proxy"
  }

  lemma FirstOfOne(m: Rule -> Match, rule: Rule)
    ensures FirstHit(m, [rule]) == if m(rule).Matched? then Some(Hit(0, m(rule))) else None
  {
    FirstMatchIff(m, [rule], if m(rule).Matched? then Some(0) else None);
  }

  /** The verdict of a list of one rule, by what the rule gives in each pass. */
  lemma DecideOne(first: Rule -> Match, answer: Option<seq<string>>, second: seq<string> -> Rule -> Match,
                  mode: string, rule: Rule, ips: seq<string>)
    requires Fitting(first, second, [rule])
    requires ips == if first(rule).Deferred? then OrNone(answer) else []
    ensures var (m, v) := (first(rule), Decide(first, answer, second, mode, [rule]));
            && (m.Matched? ==> v == Verdict(m.outbound, 1, m.value, []))
            && (m.NoMatch? ==> v == Default(mode, []))
            && (m.Deferred? ==>
                  v == if second(ips)(rule).Matched?
                       then Verdict(second(ips)(rule).outbound, 1, second(ips)(rule).value, ips)
                       else Default(mode, ips))
  {
    FirstOfOne(first, rule);
    FirstOfOne(second(ips), rule);
    assert [rule][0] == rule;
    assert AnyDeferred(first, [rule]) <==> first(rule).Deferred?;
  }

  /** A rule that matches the target, or else does not and is not deferred. */
  lemma RouteOne(w: World, q: Query, mode: string, rule: Rule, met: bool, outbound: string)
    requires !MatchRule(w, q, rule).Deferred? && (MatchRule(w, q, rule).Matched? <==> met)
    requires met ==> MatchRule(w, q, rule).outbound == outbound
    ensures Sent(Route(w, q, mode, [rule]), met, outbound, mode)
  {
    MatchersFit(w, q, [rule]);
    DecideOne(ByTarget(w, q), Resolve(w, q.host), Resolving(w, q), mode, rule, []);
  }

  /** A rule that is deferred. */
  lemma RouteDeferred(w: World, q: Query, mode: string, rule: Rule, ips: seq<string>, met: bool, outbound: string)
    requires MatchRule(w, q, rule).Deferred? && ips == OrNone(Resolve(w, q.host))
    requires MatchResolved(w, q, ips, rule).Matched? <==> met
    requires met ==> MatchResolved(w, q, ips, rule).outbound == outbound
    ensures Sent(Route(w, q, mode, [rule]), met, outbound, mode)
  {
    MatchersFit(w, q, [rule]);
    DecideOne(ByTarget(w, q), Resolve(w, q.host), Resolving(w, q), mode, rule, ips);
  }

  /** A pattern as it is compared: without white space around it, in lower case. */
  function Norm(value: string): string { ToLower(TrimSpace(value)) }

  // ---- domain values --------------------------------------------------------------

  /** A name and everything below it. */
  ghost predicate Under(h: string, d: string) { h == d || exists front: string :: h == front + ("." + d) }

  lemma SuffixIff(h: string, end: string)
    ensures HasSuffix(h, end) <==> exists front: string :: h == front + end
  {
    if HasSuffix(h, end) { assert h == h[..|h| - |end|] + end; }
  }

  lemma ContainsIff(h: string, k: string)
    ensures Contains(h, k) <==> exists a: string, b: string :: h == a + (k + b)
  {
    if Contains(h, k) {
      var i :| 0 <= i <= |h| - |k| && HasPrefix(h[i..], k);
      assert h == h[..i] + (k + h[i + |k|..]);
    }
    if a: string, b: string :| h == a + (k + b) {
      assert h[|a|..] == k + b;
      assert HasPrefix(h[|a|..], k);
    }
  }

  lemma Tagged(tag: string, d: string, c: string)
    requires c == tag + d
    ensures HasPrefix(c, tag) && c[|tag|..] == d
  {
  }

  lemma OtherTag(tag: string, c: string)
    requires tag != "" && c != "" && tag[0] != c[0]
    ensures !HasPrefix(c, tag)
  {
  }

  /** A pattern that starts with none of the five words. */
  predicate Bare(c: string) {
    && c != "" && !HasPrefix(c, "full:") && !HasPrefix(c, "domain:") && !HasPrefix(c, "keyword:")
    && !HasPrefix(c, "regexp:") && !HasPrefix(c, "geosite:cn")
  }

  lemma FullValue(h: string, value: string, d: string)
    requires Norm(value) == "full:" + d
    ensures DomainInValue(h, value) <==> h == d
  {
    Tagged("full:", d, Norm(value));
  }

  lemma SubdomainValue(h: string, value: string, d: string)
    requires Norm(value) == "domain:" + d
    ensures DomainInValue(h, value) <==> Under(h, d)
  {
    Tagged("domain:", d, Norm(value));
    OtherTag("full:", Norm(value));
    SuffixIff(h, "." + d);
  }

  lemma KeywordValue(h: string, value: string, k: string)
    requires Norm(value) == "keyword:" + k
    ensures DomainInValue(h, value) <==> exists a: string, b: string :: h == a + (k + b)
  {
    Tagged("keyword:", k, Norm(value));
    OtherTag("full:", Norm(value));
    OtherTag("domain:", Norm(value));
    ContainsIff(h, k);
  }

  lemma RegexpValue(h: string, value: string, x: string)
    requires Norm(value) == "regexp:" + x
    ensures !DomainInValue(h, value)
  {
    Tagged("regexp:", x, Norm(value));
    OtherTag("full:", Norm(value));
    OtherTag("domain:", Norm(value));
    OtherTag("keyword:", Norm(value));
  }

  lemma GeositeValue(h: string, value: string, x: string)
    requires Norm(value) == "geosite:cn" + x
    ensures DomainInValue(h, value) <==> exists front: string :: h == front + ".cn"
  {
    Tagged("geosite:cn", x, Norm(value));
    OtherTag("full:", Norm(value));
    OtherTag("domain:", Norm(value));
    OtherTag("keyword:", Norm(value));
    OtherTag("regexp:", Norm(value));
    SuffixIff(h, ".cn");
  }

  lemma BareValue(h: string, value: string)
    requires Bare(Norm(value))
    ensures DomainInValue(h, value) <==> Under(h, Norm(value))
  {
    SuffixIff(h, "." + Norm(value));
  }

  /** What a domain pattern says of a name; the text behind the word is d. */
  ghost predicate Names(c: string, d: string, h: string, met: bool) {
    && (c == "full:" + d ==> (met <==> h == d))
    && (c == "domain:" + d ==> (met <==> Under(h, d)))
    && (c == "keyword:" + d ==> (met <==> exists a: string, b: string :: h == a + (d + b)))
    && (c == "regexp:" + d ==> !met)
    && (c == "geosite:cn" + d ==> (met <==> exists front: string :: h == front + ".cn"))
    && (Bare(c) ==> (met <==> Under(h, c)))
    && (c == "" ==> !met)
  }

  lemma DomainValue(h: string, value: string, d: string)
    ensures Names(Norm(value), d, h, DomainInValue(h, value))
  {
    var c := Norm(value);
    if c == "full:" + d { FullValue(h, value, d); }
    if c == "domain:" + d { SubdomainValue(h, value, d); }
    if c == "keyword:" + d { KeywordValue(h, value, d); }
    if c == "regexp:" + d { RegexpValue(h, value, d); }
    if c == "geosite:cn" + d { GeositeValue(h, value, d); }
    if Bare(c) { BareValue(h, value); }
  }

  lemma OneDomainFound(w: World, host: string, value: string)
    ensures var h := Norm(host);
            MatchDomain(w, host, [value])
            == if h != "" && !w.isIP(h) && DomainInValue(h, value) then Some(value) else None
  {
    assert [value][1..] == [];
  }

  predicate OnlyDomain(rule: Rule, values: seq<string>, outbound: string) {
    && rule.inboundTag == rule.network == rule.protocol == rule.port == rule.ip == Absent
    && rule.domain == Many(values) && rule.outboundTag == outbound
  }

  lemma DomainRuleGives(w: World, q: Query, rule: Rule, values: seq<string>, outbound: string)
    requires OnlyDomain(rule, values, outbound) && values != [] && outbound != ""
    ensures MatchRule(w, q, rule)
            == FoundOrNot(w.isIP(TrimSpace(q.host)), MatchDomain(w, q.host, values), outbound)
  {
    DomainRuleMatches(w, q, rule);
    Unconditioned(w, q, rule);
  }

  function FoundOrNot(isAddress: bool, found: Option<string>, outbound: string): Match {
    if isAddress || found.None? then NoMatch else Matched(found.value, outbound)
  }

  lemma DomainRuleSent(w: World, q: Query, mode: string, rule: Rule, value: string, outbound: string, met: bool)
    requires OnlyDomain(rule, [value], outbound) && outbound != ""
    requires MatchDomain(w, q.host, [value]) == if met then Some(value) else None
    requires !w.isIP(TrimSpace(q.host))
    ensures Sent(Route(w, q, mode, [rule]), met, outbound, mode)
  {
    DomainRuleGives(w, q, rule, [value], outbound);
    RouteOne(w, q, mode, rule, met, outbound);
  }

  /** A rule of one domain pattern, for every target that is a name: "full:" asks for that
      name, "domain:" and a bare pattern for it and everything below it, "keyword:" for an
      occurrence, "geosite:cn" for names below cn, and "regexp:" is never met. */
  lemma DomainRuleMeans(w: World, q: Query, mode: string, outbound: string, value: string, d: string)
    returns (met: bool)
    requires outbound != "" && !w.isIP(TrimSpace(q.host)) && !w.isIP(Norm(q.host)) && Norm(q.host) != ""
    ensures Names(Norm(value), d, Norm(q.host), met)
    ensures Sent(Route(w, q, mode, [To(outbound).(domain := Many([value]))]), met, outbound, mode)
  {
    met := DomainInValue(Norm(q.host), value);
    OneDomainFound(w, q.host, value);
    DomainRuleSent(w, q, mode, To(outbound).(domain := Many([value])), value, outbound, met);
    DomainValue(Norm(q.host), value, d);
  }

  /** An address, or an empty name, meets no domain pattern. */
  lemma DomainRuleNeedsName(w: World, q: Query, mode: string, outbound: string, values: seq<string>)
    requires outbound != "" && values != []
    requires w.isIP(TrimSpace(q.host)) || w.isIP(Norm(q.host)) || Norm(q.host) == ""
    ensures Sent(Route(w, q, mode, [To(outbound).(domain := Many(values))]), false, outbound, mode)
  {
    NoDomainSent(w, q, mode, To(outbound).(domain := Many(values)), values, outbound);
  }

  lemma NoDomainSent(w: World, q: Query, mode: string, rule: Rule, values: seq<string>, outbound: string)
    requires OnlyDomain(rule, values, outbound) && outbound != "" && values != []
    requires w.isIP(TrimSpace(q.host)) || w.isIP(Norm(q.host)) || Norm(q.host) == ""
    ensures Sent(Route(w, q, mode, [rule]), false, outbound, mode)
  {
    DomainRuleGives(w, q, rule, values, outbound);
    RouteOne(w, q, mode, rule, false, outbound);
  }

  // ---- address values ---------------------------------------------------------------

  /** The oracle that a pattern asks about an address. */
  ghost predicate AsksFor(w: World, c: string, oracle: string -> bool) {
    && (c == "geoip:private" ==> forall ip :: oracle(ip) == (w.inGeoip(ip, "PRIVATE") || w.isPrivate(ip)))
    && (c == "geoip:cn" ==> forall ip :: oracle(ip) == (w.inGeoip(ip, "CN") || w.isBuiltinCN(ip)))
    && (forall code {:trigger "geoip:" + code} :: c == "geoip:" + code && code != "private" && code != "cn" ==>
          forall ip :: oracle(ip) == w.inGeoip(ip, code))
    && (!HasPrefix(c, "geoip:") && '/' in c ==> forall ip :: oracle(ip) == w.inCidr(ip, c))
    && (!HasPrefix(c, "geoip:") && '/' !in c ==> forall ip :: oracle(ip) == (w.canonical(ip) == c))
  }

  lemma GeoipValue(w: World, ip: string, value: string, code: string)
    requires Norm(value) == "geoip:" + code
    ensures code == "private" ==> (AddressInValue(w, ip, value) <==> w.inGeoip(ip, "PRIVATE") || w.isPrivate(ip))
    ensures code == "cn" ==> (AddressInValue(w, ip, value) <==> w.inGeoip(ip, "CN") || w.isBuiltinCN(ip))
    ensures code != "private" && code != "cn" ==> (AddressInValue(w, ip, value) <==> w.inGeoip(ip, code))
  {
    Tagged("geoip:", code, Norm(value));
    Tagged("geoip:", "private", "geoip:private");
    Tagged("geoip:", "cn", "geoip:cn");
  }

  lemma PlainAddressValue(w: World, ip: string, value: string)
    requires !HasPrefix(Norm(value), "geoip:")
    ensures AddressInValue(w, ip, value) <==> if '/' in Norm(value) then w.inCidr(ip, Norm(value))
                                              else w.canonical(ip) == Norm(value)
  {
    Tagged("geoip:", "private", "geoip:private");
    Tagged("geoip:", "cn", "geoip:cn");
  }

  lemma AddressValue(w: World, ip: string, value: string, oracle: string -> bool)
    requires AsksFor(w, Norm(value), oracle)
    ensures AddressInValue(w, ip, value) <==> oracle(ip)
  {
    var c := Norm(value);
    if HasPrefix(c, "geoip:") {
      assert c == "geoip:" + c[6..];
      GeoipValue(w, ip, value, c[6..]);
    } else {
      PlainAddressValue(w, ip, value);
    }
  }

  lemma OneAddressFound(w: World, host: string, value: string)
    ensures MatchIP(w, host, [value]).Some? <==> w.isIP(TrimSpace(host)) && AddressInValue(w, TrimSpace(host), value)
  {
    assert [value][1..] == [];
  }

  predicate OnlyAddress(rule: Rule, values: seq<string>, outbound: string) {
    && rule.inboundTag == rule.network == rule.protocol == rule.port == rule.domain == Absent
    && rule.ip == Many(values) && rule.outboundTag == outbound
  }

  lemma AddressRuleGives(w: World, q: Query, rule: Rule, values: seq<string>, outbound: string)
    requires OnlyAddress(rule, values, outbound) && values != [] && outbound != "" && w.isIP(TrimSpace(q.host))
    ensures var m := MatchRule(w, q, rule);
            && !m.Deferred?
            && (m.Matched? <==> MatchIP(w, q.host, values).Some?)
            && (m.Matched? ==> m.outbound == outbound)
  {
    AddressRuleMatches(w, q, rule);
    Unconditioned(w, q, rule);
    if MatchRule(w, q, rule).Deferred? { DeferredOnly(w, q, Some([]), rule); }
  }

  /** A rule of one address pattern, for a target that is an address: it is met exactly if
      the oracle of the pattern says so. */
  lemma AddressRuleMeans(w: World, q: Query, mode: string, outbound: string, value: string, oracle: string -> bool)
    requires outbound != "" && w.isIP(TrimSpace(q.host)) && AsksFor(w, Norm(value), oracle)
    ensures Sent(Route(w, q, mode, [To(outbound).(ip := Many([value]))]), oracle(TrimSpace(q.host)), outbound, mode)
  {
    var rule := To(outbound).(ip := Many([value]));
    AddressRuleSent(w, q, mode, rule, [value], outbound);
    OneAddressFound(w, q.host, value);
    AddressValue(w, TrimSpace(q.host), value, oracle);
  }

  lemma AddressRuleSent(w: World, q: Query, mode: string, rule: Rule, values: seq<string>, outbound: string)
    requires OnlyAddress(rule, values, outbound) && values != [] && outbound != "" && w.isIP(TrimSpace(q.host))
    ensures Sent(Route(w, q, mode, [rule]), MatchIP(w, q.host, values).Some?, outbound, mode)
  {
    AddressRuleGives(w, q, rule, values, outbound);
    RouteOne(w, q, mode, rule, MatchIP(w, q.host, values).Some?, outbound);
  }

  /** The addresses that a name resolves to; none if the lookup fails or there is no name. */
  function Addresses(w: World, host: string): seq<string> {
    if TrimSpace(host) == "" then [] else OrNone(w.lookup(TrimSpace(host)))
  }

  lemma ResolvesTo(w: World, host: string)
    requires !w.isIP(TrimSpace(host))
    ensures OrNone(Resolve(w, host)) == Addresses(w, host)
  {
  }

  lemma AddressRuleOnName(w: World, q: Query, rule: Rule, values: seq<string>, outbound: string)
    requires OnlyAddress(rule, values, outbound) && values != [] && outbound != "" && !w.isIP(TrimSpace(q.host))
    ensures var m := MatchRule(w, q, rule);
            if Strategy(q) == ON_DEMAND then m == AgainstResolved(w, Some([]), OrNone(Resolve(w, q.host)), rule)
            else if Strategy(q) == IF_NON_MATCH then m == Deferred
            else m == NoMatch
  {
    NameTarget(w, q, rule);
    Unconditioned(w, q, rule);
  }

  lemma NameTarget(w: World, q: Query, rule: Rule)
    requires Items(rule.domain) == [] && Items(rule.ip) != [] && !w.isIP(TrimSpace(q.host))
    ensures var m := AgainstTarget(w, q, Some([]), rule);
            if Strategy(q) == ON_DEMAND then m == AgainstResolved(w, Some([]), OrNone(Resolve(w, q.host)), rule)
            else if Strategy(q) == IF_NON_MATCH then m == Deferred
            else m == NoMatch
  {
  }

  /** Some resolved address meets the rule. */
  ghost predicate SomeMeets(w: World, ips: seq<string>, values: seq<string>) {
    exists ip :: ip in ips && MatchIP(w, ip, values).Some?
  }

  lemma OnDemandGives(w: World, q: Query, rule: Rule, values: seq<string>, outbound: string)
    requires OnlyAddress(rule, values, outbound) && values != [] && outbound != "" && !w.isIP(TrimSpace(q.host))
    requires Strategy(q) == ON_DEMAND
    ensures var m := MatchRule(w, q, rule);
            !m.Deferred? && (m.Matched? <==> SomeMeets(w, OrNone(Resolve(w, q.host)), values))
            && (m.Matched? ==> m.outbound == outbound)
  {
    AddressRuleResolved(w, OrNone(Resolve(w, q.host)), rule);
    ResolvedNeverDefers(w, Some([]), OrNone(Resolve(w, q.host)), rule);
    AddressRuleOnName(w, q, rule, values, outbound);
  }

  lemma OnDemandSent(w: World, q: Query, mode: string, rule: Rule, values: seq<string>, outbound: string)
    requires OnlyAddress(rule, values, outbound) && values != [] && outbound != "" && !w.isIP(TrimSpace(q.host))
    requires Strategy(q) == ON_DEMAND
    ensures Sent(Route(w, q, mode, [rule]), SomeMeets(w, Addresses(w, q.host), values), outbound, mode)
  {
    OnDemandGives(w, q, rule, values, outbound);
    ResolvesTo(w, q.host);
    RouteOne(w, q, mode, rule, SomeMeets(w, Addresses(w, q.host), values), outbound);
  }

  lemma ResolvedGives(w: World, q: Query, ips: seq<string>, rule: Rule, values: seq<string>, outbound: string)
    requires OnlyAddress(rule, values, outbound) && values != [] && outbound != ""
    ensures var m := MatchResolved(w, q, ips, rule);
            (m.Matched? <==> SomeMeets(w, ips, values)) && (m.Matched? ==> m.outbound == outbound)
  {
    AddressRuleResolved(w, ips, rule);
    NoConditions(q, rule);
  }

  lemma IfNonMatchSent(w: World, q: Query, mode: string, rule: Rule, values: seq<string>, outbound: string)
    requires OnlyAddress(rule, values, outbound) && values != [] && outbound != "" && !w.isIP(TrimSpace(q.host))
    requires Strategy(q) == IF_NON_MATCH
    ensures Sent(Route(w, q, mode, [rule]), SomeMeets(w, Addresses(w, q.host), values), outbound, mode)
  {
    AddressRuleOnName(w, q, rule, values, outbound);
    ResolvesTo(w, q.host);
    ResolvedGives(w, q, Addresses(w, q.host), rule, values, outbound);
    RouteDeferred(w, q, mode, rule, Addresses(w, q.host), SomeMeets(w, Addresses(w, q.host), values), outbound);
  }

  lemma OtherwiseSent(w: World, q: Query, mode: string, rule: Rule, values: seq<string>, outbound: string)
    requires OnlyAddress(rule, values, outbound) && values != [] && outbound != "" && !w.isIP(TrimSpace(q.host))
    requires Strategy(q) != ON_DEMAND && Strategy(q) != IF_NON_MATCH
    ensures Sent(Route(w, q, mode, [rule]), false, outbound, mode)
  {
    AddressRuleOnName(w, q, rule, values, outbound);
    RouteOne(w, q, mode, rule, false, outbound);
  }

  lemma AddressRuleOfName(w: World, q: Query, mode: string, rule: Rule, values: seq<string>, outbound: string)
    returns (met: bool)
    requires OnlyAddress(rule, values, outbound) && values != [] && outbound != "" && !w.isIP(TrimSpace(q.host))
    ensures met <==> Norm(q.strategy) in {"ipondemand", "ipifnonmatch"} && SomeMeets(w, Addresses(w, q.host), values)
    ensures Sent(Route(w, q, mode, [rule]), met, outbound, mode)
  {
    if Strategy(q) == ON_DEMAND {
      met := SomeMeets(w, Addresses(w, q.host), values);
      OnDemandSent(w, q, mode, rule, values, outbound);
    } else if Strategy(q) == IF_NON_MATCH {
      met := SomeMeets(w, Addresses(w, q.host), values);
      IfNonMatchSent(w, q, mode, rule, values, outbound);
    } else {
      met := false;
      OtherwiseSent(w, q, mode, rule, values, outbound);
    }
  }

  lemma SomeMeetsIff(w: World, ips: seq<string>, value: string, oracle: string -> bool)
    requires AsksFor(w, Norm(value), oracle)
    ensures SomeMeets(w, ips, [value])
            <==> exists ip :: ip in ips && w.isIP(TrimSpace(ip)) && oracle(TrimSpace(ip))
  {
    forall ip ensures MatchIP(w, ip, [value]).Some? <==> w.isIP(TrimSpace(ip)) && oracle(TrimSpace(ip)) {
      OneAddressFound(w, ip, value);
      AddressValue(w, TrimSpace(ip), value, oracle);
    }
  }

  /** The same rule, for a target that is a name: under "IPOnDemand" and "IPIfNonMatch" it
      is met exactly if the oracle says so of an address that the name resolves to, and
      under every other strategy never. */
  lemma AddressRuleMeansOfName(w: World, q: Query, mode: string, outbound: string, value: string,
                               oracle: string -> bool)
    returns (met: bool)
    requires outbound != "" && !w.isIP(TrimSpace(q.host)) && AsksFor(w, Norm(value), oracle)
    ensures Norm(q.strategy) in {"ipondemand", "ipifnonmatch"} ==>
              (met <==> exists ip :: ip in Addresses(w, q.host) && w.isIP(TrimSpace(ip)) && oracle(TrimSpace(ip)))
    ensures Norm(q.strategy) !in {"ipondemand", "ipifnonmatch"} ==> !met
    ensures Sent(Route(w, q, mode, [To(outbound).(ip := Many([value]))]), met, outbound, mode)
  {
    SomeMeetsIff(w, Addresses(w, q.host), value, oracle);
    met := AddressRuleOfName(w, q, mode, To(outbound).(ip := Many([value])), [value], outbound);
  }

  // ---- ports ------------------------------------------------------------------------

  lemma NumberText(n: nat)
    requires n <= MAX_INT64
    ensures Atoi(Itoa(n)) == Some(n) && TrimSpace(Itoa(n)) == Itoa(n) != "" && '-' !in Itoa(n)
  {
    AtoiItoa(n);
    ItoaDigits(n);
    TrimNothing(Itoa(n));
  }

  lemma PortNumber(port: int, value: string, n: nat)
    requires n <= MAX_INT64 && TrimSpace(value) == Itoa(n)
    ensures PortInValue(port, value) <==> port == n
  {
    NumberText(n);
    assert IndexOf(Itoa(n), '-') == |Itoa(n)|;
  }

  lemma FirstDash(x: string, y: string, v: string)
    requires v == x + ['-'] + y && '-' !in x
    ensures IndexOf(v, '-') == |x| && v[..|x|] == x && v[|x| + 1..] == y
  {
    assert v[|x|] == '-';
    assert forall i :: 0 <= i < |x| ==> v[i] == x[i];
  }

  lemma RangeOf(port: int, v: string, x: string, y: string)
    requires v == x + ['-'] + y && '-' !in x
    ensures PortInTrimmed(port, v) <==> Within(port, Number(x), Number(y))
  {
    FirstDash(x, y, v);
  }

  lemma PortRange(port: int, value: string, x: string, y: string, a: nat, b: nat)
    requires a <= MAX_INT64 && b <= MAX_INT64
    requires TrimSpace(value) == x + ['-'] + y && '-' !in x && TrimSpace(x) == Itoa(a) && TrimSpace(y) == Itoa(b)
    ensures PortInValue(port, value) <==> a <= port <= b
  {
    NumberText(a);
    NumberText(b);
    RangeOf(port, TrimSpace(value), x, y);
  }

  lemma OnePort(port: int, value: string)
    requires TrimSpace(value) != ""
    ensures CheckPort(port, One(value))
            == if port > 0 && PortInValue(port, value) then Met(TrimSpace(value)) else Refused
  {
    assert [value][1..] == [];
  }

  lemma ConditionsOfFourth(c: Check)
    ensures Conditions(Unspecified, Unspecified, Unspecified, c) == if c.Refused? then None else Some(ValueOf(c))
  {
    assert [] + [] + [] + ValueOf(c) == ValueOf(c);
  }

  lemma ConditionsOfThird(c: Check)
    ensures Conditions(Unspecified, Unspecified, c, Unspecified) == if c.Refused? then None else Some(ValueOf(c))
  {
    assert [] + [] + ValueOf(c) + [] == ValueOf(c);
  }

  /** A rule of the four conditions that are checked against the query itself. */
  predicate NoTarget(rule: Rule, outbound: string) {
    rule.domain == rule.ip == Absent && rule.outboundTag == outbound
  }

  /** A rule whose conditions come to one check. */
  lemma CheckedSent(w: World, q: Query, mode: string, rule: Rule, outbound: string, c: Check)
    requires NoTarget(rule, outbound) && outbound != "" && !c.Unspecified?
    requires Indicators(q, rule) == if c.Refused? then None else Some(ValueOf(c))
    ensures Sent(Route(w, q, mode, [rule]), c.Met?, outbound, mode)
  {
    if c.Met? { Unconditional(w, q, c.value, rule); }
    RouteOne(w, q, mode, rule, c.Met?, outbound);
  }

  lemma PortAlone(q: Query, rule: Rule)
    requires rule.inboundTag == rule.network == rule.protocol == Absent
    ensures var c := CheckPort(q.port, rule.port);
            Indicators(q, rule) == if c.Refused? then None else Some(ValueOf(c))
  {
    AbsentIsUnspecified(q);
    ConditionsOfFourth(CheckPort(q.port, rule.port));
  }

  lemma PortRuleSent(w: World, q: Query, mode: string, rule: Rule, outbound: string, value: string, met: bool)
    requires NoTarget(rule, outbound) && outbound != "" && TrimSpace(value) != ""
    requires rule.inboundTag == rule.network == rule.protocol == Absent && rule.port == One(value)
    requires met <==> q.port > 0 && PortInValue(q.port, value)
    ensures Sent(Route(w, q, mode, [rule]), met, outbound, mode)
  {
    OnePort(q.port, value);
    PortAlone(q, rule);
    CheckedSent(w, q, mode, rule, outbound, CheckPort(q.port, One(value)));
  }

  /** A rule of one port is met exactly by that port. */
  lemma PortRuleMeans(w: World, q: Query, mode: string, outbound: string, value: string, n: nat)
    requires outbound != "" && n <= MAX_INT64 && TrimSpace(value) == Itoa(n)
    ensures Sent(Route(w, q, mode, [To(outbound).(port := One(value))]), q.port > 0 && q.port == n, outbound, mode)
  {
    NumberText(n);
    PortNumber(q.port, value, n);
    PortRuleSent(w, q, mode, To(outbound).(port := One(value)), outbound, value, q.port > 0 && q.port == n);
  }

  /** A rule of a range of ports is met exactly within it, both ends included; white space
      may stand around the whole and around each end. */
  lemma PortRangeRuleMeans(w: World, q: Query, mode: string, outbound: string, value: string, x: string, y: string,
                           a: nat, b: nat)
    requires outbound != "" && a <= MAX_INT64 && b <= MAX_INT64
    requires TrimSpace(value) == x + ['-'] + y && '-' !in x && TrimSpace(x) == Itoa(a) && TrimSpace(y) == Itoa(b)
    ensures Sent(Route(w, q, mode, [To(outbound).(port := One(value))]), q.port > 0 && a <= q.port <= b, outbound, mode)
  {
    PortRange(q.port, value, x, y, a, b);
    PortRuleSent(w, q, mode, To(outbound).(port := One(value)), outbound, value, q.port > 0 && a <= q.port <= b);
  }

  /** A rule of a text that is neither is never met. */
  lemma NoPortRuleMeans(w: World, q: Query, mode: string, outbound: string, value: string)
    requires outbound != "" && TrimSpace(value) != "" && '-' !in TrimSpace(value) && Atoi(TrimSpace(value)) == None
    ensures Sent(Route(w, q, mode, [To(outbound).(port := One(value))]), false, outbound, mode)
  {
    assert IndexOf(TrimSpace(value), '-') == |TrimSpace(value)|;
    PortRuleSent(w, q, mode, To(outbound).(port := One(value)), outbound, value, false);
  }

  // ---- networks, protocols, inbounds ---------------------------------------------------

  /** One of the values is the text, but for case and the white space around the value. */
  ghost predicate Lists(values: seq<string>, text: string) {
    exists v :: v in values && Norm(v) == ToLower(text)
  }

  lemma ProtocolChecked(protocol: string, values: seq<string>)
    requires values != []
    ensures var c := CheckProtocol(protocol, Many(values));
            !c.Unspecified? && (c.Met? <==> Lists(values, protocol))
  {
  }

  lemma InboundChecked(tag: string, values: seq<string>)
    requires values != []
    ensures var c := CheckInboundTag(tag, Many(values));
            !c.Unspecified? && (c.Met? <==> tag != "" && Lists(values, tag))
  {
  }

  lemma NetworkAlone(q: Query, rule: Rule)
    requires rule.inboundTag == rule.protocol == rule.port == Absent
    ensures var c := CheckProtocol(q.protocol, rule.network);
            Indicators(q, rule) == if c.Refused? then None else Some(ValueOf(c))
  {
    AbsentIsUnspecified(q);
    ConditionsOfSecond(CheckProtocol(q.protocol, rule.network));
  }

  lemma ProtocolAlone(q: Query, rule: Rule)
    requires rule.inboundTag == rule.network == rule.port == Absent
    ensures var c := CheckProtocol(q.protocol, rule.protocol);
            Indicators(q, rule) == if c.Refused? then None else Some(ValueOf(c))
  {
    AbsentIsUnspecified(q);
    ConditionsOfThird(CheckProtocol(q.protocol, rule.protocol));
  }

  /** A rule of protocols or of networks is met exactly by a protocol that it lists. */
  lemma ProtocolRuleMeans(w: World, q: Query, mode: string, outbound: string, values: seq<string>)
    requires outbound != "" && values != []
    ensures Sent(
              Route(w, q, mode, [To(outbound).(protocol := Many(values))]), Lists(values, q.protocol), outbound, mode)
    ensures Sent(
              Route(w, q, mode, [To(outbound).(network := Many(values))]), Lists(values, q.protocol), outbound, mode)
  {
    var c := CheckProtocol(q.protocol, Many(values));
    ProtocolChecked(q.protocol, values);
    ProtocolAlone(q, To(outbound).(protocol := Many(values)));
    CheckedSent(w, q, mode, To(outbound).(protocol := Many(values)), outbound, c);
    NetworkAlone(q, To(outbound).(network := Many(values)));
    CheckedSent(w, q, mode, To(outbound).(network := Many(values)), outbound, c);
  }

  /** A rule of inbounds is met exactly by an inbound that it lists, and never without one. */
  lemma InboundRuleMeans(w: World, q: Query, mode: string, outbound: string, values: seq<string>)
    requires outbound != "" && values != []
    ensures Sent(Route(w, q, mode, [To(outbound).(inboundTag := Many(values))]),
                 q.inboundTag != "" && Lists(values, q.inboundTag), outbound, mode)
  {
    var rule := To(outbound).(inboundTag := Many(values));
    var c := CheckInboundTag(q.inboundTag, Many(values));
    InboundChecked(q.inboundTag, values);
    OnlyInbound(q, rule, c);
    CheckedSent(w, q, mode, rule, outbound, c);
  }

  // ---- several conditions ------------------------------------------------------------------

  lemma ConditionsMet(a: Check, b: Check, c: Check, d: Check)
    ensures Conditions(a, b, c, d).Some? <==> !a.Refused? && !b.Refused? && !c.Refused? && !d.Refused?
    ensures Conditions(a, b, c, d) == Some([]) <==> a == b == c == d == Unspecified
  {
    var all := ValueOf(a) + ValueOf(b) + ValueOf(c) + ValueOf(d);
    assert |all| == |ValueOf(a)| + |ValueOf(b)| + |ValueOf(c)| + |ValueOf(d)|;
  }

  /** The value of the last condition that is met, in the order inbound, network, protocol,
      port. */
  function LastMet(a: Check, b: Check, c: Check, d: Check): string {
    if d.Met? then d.value else if c.Met? then c.value else if b.Met? then b.value else if a.Met? then a.value else ""
  }

  lemma LastOfMet(a: Check, b: Check, c: Check, d: Check)
    requires Conditions(a, b, c, d).Some? && (a.Met? || b.Met? || c.Met? || d.Met?)
    ensures var met := Conditions(a, b, c, d).value; met != [] && met[|met| - 1] == LastMet(a, b, c, d)
  {
    assert ValueOf(a) + ValueOf(b) + ValueOf(c) + [] == ValueOf(a) + ValueOf(b) + ValueOf(c);
    assert ValueOf(a) + ValueOf(b) + [] == ValueOf(a) + ValueOf(b) && ValueOf(a) + [] == ValueOf(a);
  }

  lemma MetMatches(w: World, q: Query, met: seq<string>, rule: Rule)
    requires rule.domain == rule.ip == Absent
    ensures AgainstTarget(w, q, Some(met), rule)
            == if met == [] then NoMatch
               else Matched(met[|met| - 1], if rule.outboundTag == "" then "proxy" else rule.outboundTag)
  {
  }

  lemma AllMet(w: World, q: Query, rule: Rule, a: Check, b: Check, c: Check, d: Check)
    requires rule.domain == rule.ip == Absent
    ensures AgainstTarget(w, q, Conditions(a, b, c, d), rule)
            == if !a.Refused? && !b.Refused? && !c.Refused? && !d.Refused? && (a.Met? || b.Met? || c.Met? || d.Met?)
               then Matched(LastMet(a, b, c, d), if rule.outboundTag == "" then "proxy" else rule.outboundTag)
               else NoMatch
  {
    ConditionsMet(a, b, c, d);
    if Conditions(a, b, c, d).Some? {
      if a.Met? || b.Met? || c.Met? || d.Met? { LastOfMet(a, b, c, d); }
      MetMatches(w, q, Conditions(a, b, c, d).value, rule);
    }
  }

  /** A rule matches when none of the conditions that it states is refused, and it states
      at least one; what is reported is the value of the last one, and the outbound is the
      rule's own, or the proxy if it names none. */
  lemma RuleIsConjunction(w: World, q: Query, rule: Rule, a: Check, b: Check, c: Check, d: Check)
    requires rule.domain == rule.ip == Absent
    requires a == CheckInboundTag(q.inboundTag, rule.inboundTag) && b == CheckProtocol(q.protocol, rule.network)
    requires c == CheckProtocol(q.protocol, rule.protocol) && d == CheckPort(q.port, rule.port)
    ensures MatchRule(w, q, rule)
            == if !a.Refused? && !b.Refused? && !c.Refused? && !d.Refused? && (a.Met? || b.Met? || c.Met? || d.Met?)
               then Matched(LastMet(a, b, c, d), if rule.outboundTag == "" then "proxy" else rule.outboundTag)
               else NoMatch
  {
    AllMet(w, q, rule, a, b, c, d);
  }

  /** What a rule reports for a target condition is the pattern that was met. */
  lemma PatternIsReported(w: World, q: Query, rule: Rule, value: string, outbound: string)
    requires OnlyDomain(rule, [value], outbound) && outbound != "" && MatchRule(w, q, rule).Matched?
    ensures MatchRule(w, q, rule).value == value
  {
    DomainRuleGives(w, q, rule, [value], outbound);
    OneDomainFound(w, q.host, value);
  }

  /** The addresses looked up are reported exactly if no rule matched the target itself, some
      rule waited for them, and the lookup went well. */
  lemma AddressesReported(w: World, q: Query, mode: string, rules: seq<Rule>)
    ensures Route(w, q, mode, rules).resolved
            == if (exists r :: r in rules && MatchRule(w, q, r).Matched?)
                  || (forall r :: r in rules ==> !MatchRule(w, q, r).Deferred?)
               then [] else OrNone(Resolve(w, q.host))
  {
    ReportedBy(ByTarget(w, q), Resolve(w, q.host), Resolving(w, q), mode, rules);
    assert forall r :: ByTarget(w, q)(r) == MatchRule(w, q, r);
  }

  lemma ReportedBy(first: Rule -> Match, answer: Option<seq<string>>, second: seq<string> -> Rule -> Match,
                   mode: string, rules: seq<Rule>)
    ensures Decide(first, answer, second, mode, rules).resolved
            == if (exists r :: r in rules && first(r).Matched?) || (forall r :: r in rules ==> !first(r).Deferred?)
               then [] else OrNone(answer)
  {
    FirstMatchIsFirst(first, rules);
    if r :| r in rules && first(r).Matched? {
      var k :| 0 <= k < |rules| && rules[k] == r;
      FirstHitNoLater(first, rules, k);
    }
  }
}
