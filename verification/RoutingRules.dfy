/** The compiler from the routing settings to the ordered rule list. */
module RoutingRules {
  import opened Options
  import opened Text

  /** A rule field: missing, one string, or a list of strings. */
  datatype Values = Absent | One(text: string) | Many(items: seq<string>)

  /** routingToStringSlice: a single string is never split. */
  function Items(v: Values): seq<string> {
    match v
    case Absent => []
    case One(text) => if TrimSpace(text) == "" then [] else [text]
    case Many(items) => items
  }

  datatype Rule = Rule(inboundTag: Values, network: Values, protocol: Values, port: Values,
                       domain: Values, ip: Values, outboundTag: string)

  function To(outbound: string): Rule {
    Rule(Absent, Absent, Absent, Absent, Absent, Absent, outbound)
  }

  datatype UserRule = UserRule(kind: string, values: seq<string>, outbound: string)

  /** The routing settings; the domain strategy goes into the query. */
  datatype Routing = Routing(mode: string, localBypass: Option<bool>, rules: seq<UserRule>)

  datatype GeoData = GeoData(geoip: bool, geosite: bool)

  const LOOPBACK: seq<string> := ["127.0.0.0/8", "::1/128"]
  const PRIVATE: seq<string> :=
    ["10.0.0.0/8", "172.16.0.0/12", "192.168.0.0/16", "127.0.0.0/8", "169.254.0.0/16",
     "::1/128", "fe80::/10", "fc00::/7"]

  function LocalBypass(routing: Routing): bool { routing.localBypass != Some(false) }

  /** localProxyTrafficMode is "force-proxy". */
  predicate ForceProxy(localProxyMode: Option<string>) {
    var text := if localProxyMode.Some? && localProxyMode.value != "" then localProxyMode.value else "follow-routing";
    ToLower(TrimSpace(text)) in ["force-proxy", "force_proxy", "proxy", "always-proxy"]
  }

  // ---- the layers of the rule list ------------------------------------------------

  function ApiRule(): Rule { To("api").(inboundTag := Many(["api"])) }

  function LocalhostRule(): Rule { To("direct").(domain := Many(["full:localhost"])) }

  function LoopbackRule(): Rule { To("direct").(ip := Many(LOOPBACK)) }

  function LocalProxyRule(): Rule { To("proxy").(inboundTag := Many(["http", "socks"])) }

  function Layer(api: Rule, localhost: Rule, loopback: Rule, proxy: Rule, bypass: bool, force: bool): seq<Rule> {
    [api] + (if bypass then [localhost, loopback] else []) + (if force then [proxy] else [])
  }

  function Guards(bypass: bool, force: bool): seq<Rule> {
    Layer(ApiRule(), LocalhostRule(), LoopbackRule(), LocalProxyRule(), bypass, force)
  }

  function GuardRules(localProxyMode: Option<string>, routing: Routing): seq<Rule> {
    Guards(LocalBypass(routing), ForceProxy(localProxyMode))
  }

  function ModeRules(mode: string, geo: GeoData, cnCidrs: seq<string>): seq<Rule> {
    if mode != "bypass_cn" then []
    else
      [To("direct").(ip := Many(if geo.geoip then ["geoip:private"] else PRIVATE)),
       To("direct").(ip := Many(if geo.geoip then ["geoip:cn"] else cnCidrs))]
      + (if geo.geosite then [To("direct").(domain := Many(["geosite:cn"]))] else [])
  }

  function WithPrefix(prefix: string, values: seq<string>): seq<string> {
    seq(|values|, i requires 0 <= i < |values| => prefix + values[i])
  }

  /** One user rule; geo rules are skipped without their data. */
  function UserRules(r: UserRule, geo: GeoData): seq<Rule> {
    var base := To(r.outbound);
    match r.kind
    case "domain" => [base.(domain := Many(r.values))]
    case "ip" => [base.(ip := Many(r.values))]
    case "geoip" => if geo.geoip then [base.(ip := Many(WithPrefix("geoip:", r.values)))] else []
    case "geosite" => if geo.geosite then [base.(domain := Many(WithPrefix("geosite:", r.values)))] else []
    case "port" => [base.(port := One(Join(r.values, ',')))]
    case "protocol" => [base.(protocol := Many(r.values))]
    case _ => [base]
  }

  function AllUserRules(rs: seq<UserRule>, geo: GeoData): seq<Rule> {
    if rs == [] then [] else UserRules(rs[0], geo) + AllUserRules(rs[1..], geo)
  }

  function DefaultRules(mode: string): seq<Rule> {
    if mode == "direct" then [To("direct").(network := One("tcp,udp"))] else []
  }

  function OtherRules(routing: Routing, geo: GeoData, cnCidrs: seq<string>): seq<Rule> {
    ModeRules(routing.mode, geo, cnCidrs) + AllUserRules(routing.rules, geo) + DefaultRules(routing.mode)
  }

  function RuleList(localProxyMode: Option<string>, routing: Routing, geo: GeoData, cnCidrs: seq<string>): seq<Rule> {
    GuardRules(localProxyMode, routing)
    + OtherRules(routing, geo, cnCidrs)
  }

  /** buildRoutingRulesWithConfig */
  method BuildRoutingRules(localProxyMode: Option<string>, routing: Routing, geo: GeoData, cnCidrs: seq<string>)
    returns (rules: seq<Rule>)
    ensures rules == RuleList(localProxyMode, routing, geo, cnCidrs)
  {
    rules := GuardLayer(LocalBypass(routing), ForceProxy(localProxyMode));
    assert rules == GuardRules(localProxyMode, routing);
    var defaultRules;
    rules, defaultRules := AddModeRules(rules, routing.mode, geo, cnCidrs);
    rules := AddUserRules(rules, routing.rules, geo);
    rules := rules + defaultRules;
    Layers(GuardRules(localProxyMode, routing), ModeRules(routing.mode, geo, cnCidrs),
           AllUserRules(routing.rules, geo), defaultRules);
  }

  lemma Layers(a: seq<Rule>, b: seq<Rule>, c: seq<Rule>, d: seq<Rule>)
    ensures a + b + c + d == a + (b + c + d)
  {
  }

  method GuardLayer(bypass: bool, force: bool) returns (rules: seq<Rule>)
    ensures rules == Guards(bypass, force)
  {
    rules := [ApiRule()];
    if bypass {
      rules := rules + [LocalhostRule(), LoopbackRule()];
    }
    if force {
      rules := rules + [LocalProxyRule()];
    }
  }

  method AddModeRules(before: seq<Rule>, mode: string, geo: GeoData, cnCidrs: seq<string>)
    returns (rules: seq<Rule>, defaultRules: seq<Rule>)
    ensures rules == before + ModeRules(mode, geo, cnCidrs) && defaultRules == DefaultRules(mode)
  {
    rules, defaultRules := before, [];
    if mode == "bypass_cn" {
      rules := AddBypassRules(rules, geo, cnCidrs);
    } else if mode == "direct" {
      defaultRules := [To("direct").(network := One("tcp,udp"))];
    }
  }

  method AddBypassRules(before: seq<Rule>, geo: GeoData, cnCidrs: seq<string>) returns (rules: seq<Rule>)
    ensures rules == before + ModeRules("bypass_cn", geo, cnCidrs)
  {
    var privateIPs := ["geoip:private"];
    if !geo.geoip { privateIPs := PRIVATE; }
    rules := before + [To("direct").(ip := Many(privateIPs))];
    if geo.geoip {
      rules := rules + [To("direct").(ip := Many(["geoip:cn"]))];
    } else {
      rules := rules + [To("direct").(ip := Many(cnCidrs))];
    }
    if geo.geosite {
      rules := rules + [To("direct").(domain := Many(["geosite:cn"]))];
    }
  }

  lemma AllUserRulesFrom(users: seq<UserRule>, i: nat, geo: GeoData)
    requires i < |users|
    ensures AllUserRules(users[i..], geo) == UserRules(users[i], geo) + AllUserRules(users[i + 1..], geo)
  {
    assert users[i..][0] == users[i] && users[i..][1..] == users[i + 1..];
  }

  lemma Regrouped(rules: seq<Rule>, made: seq<Rule>, rest: seq<Rule>)
    ensures rules + (made + rest) == rules + made + rest
  {
  }

  method AddUserRules(before: seq<Rule>, users: seq<UserRule>, geo: GeoData) returns (rules: seq<Rule>)
    ensures rules == before + AllUserRules(users, geo)
  {
    rules := before;
    assert users[0..] == users;
    for i := 0 to |users|
      invariant rules + AllUserRules(users[i..], geo) == before + AllUserRules(users, geo)
    {
      AllUserRulesFrom(users, i, geo);
      var r := OneUserRule(users[i], geo);
      Regrouped(rules, MadeRules(r), AllUserRules(users[i + 1..], geo));
      rules := rules + MadeRules(r);
    }
    assert rules + [] == rules;
  }

  function MadeRules(made: Option<Rule>): seq<Rule> { if made.Some? then [made.value] else [] }

  method OneUserRule(rule: UserRule, geo: GeoData) returns (made: Option<Rule>)
    ensures UserRules(rule, geo) == MadeRules(made)
  {
    var r := To(rule.outbound);
    match rule.kind {
      case "domain" => r := r.(domain := Many(rule.values));
      case "ip" => r := r.(ip := Many(rule.values));
      case "geoip" =>
        if !geo.geoip { return None; }
        r := r.(ip := Many(WithPrefix("geoip:", rule.values)));
      case "geosite" =>
        if !geo.geosite { return None; }
        r := r.(domain := Many(WithPrefix("geosite:", rule.values)));
      case "port" => r := r.(port := One(Join(rule.values, ',')));
      case "protocol" => r := r.(protocol := Many(rule.values));
      case _ =>
    }
    made := Some(r);
  }
}
