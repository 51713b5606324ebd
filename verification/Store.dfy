/** The persistent settings: normal form, file and cache. */
module Store {
  import opened Options
  import opened Text

  /** A value as Go holds it: Whole and Strings exist in memory only, since JSON gives
      back numbers as Number and string slices as List. Nested objects are not looked
      into; they stand by their JSON text. */
  datatype Value =
    | Null
    | Flag(b: bool)
    | Str(s: string)
    | Whole(n: int)
    | Number(r: real)
    | Strings(ss: seq<string>)
    | List(vs: seq<Value>)
    | Object(json: string)

  datatype Key =
    | DnsServers | DnsList | CoreEngine | TunMode | EnableTun | TunStack | TunHijack | TunHijackExplicit
    | SystemProxyMode | LocalProxyMode | SystemProxyUsers
    | Named(name: string)

  type Config = map<Key, Value>

  // ---- JSON ---------------------------------------------------------------------------

  /** What writing a value as JSON and reading it back gives. */
  function Decoded(v: Value): Value {
    match v
    case Whole(n) => Number(n as real)
    case Strings(ss) => List(seq(|ss|, i requires 0 <= i < |ss| => Str(ss[i])))
    case List(vs) => List(seq(|vs|, i requires 0 <= i < |vs| => Decoded(vs[i])))
    case _ => v
  }

  function DecodedConfig(c: Config): Config { map k | k in c :: Decoded(c[k]) }

  lemma {:induction false} DecodedTwice(v: Value)
    ensures Decoded(Decoded(v)) == Decoded(v)
  {
    match v
    case List(vs) =>
      forall i | 0 <= i < |vs| ensures Decoded(Decoded(vs[i])) == Decoded(vs[i]) { DecodedTwice(vs[i]); }
      assert Decoded(Decoded(v)).vs == Decoded(v).vs;
    case Strings(ss) =>
      assert Decoded(Decoded(v)).vs == Decoded(v).vs;
    case _ =>
  }

  /** Equal up to how Go holds numbers and string slices. */
  ghost predicate Same(a: Config, b: Config) { DecodedConfig(a) == DecodedConfig(b) }

  // ---- the parts of normalizeConfigMap -----------------------------------------------

  function Get(c: Config, k: Key): Option<Value> { if k in c then Some(c[k]) else None }

  /** asString: anything but a string is empty. */
  function AsString(v: Option<Value>): string { if v.Some? && v.value.Str? then v.value.s else "" }

  function NormalTunMode(s: string): (r: string)
    ensures r in ["off", "mixed", "system", "gvisor"]
    ensures s in ["off", "mixed", "system", "gvisor"] ==> r == s
  {
    if s in ["mixed", "system", "gvisor"] then s
    else if s in ["", "off", "disabled", "none"] then "off"
    else "mixed"
  }

  const FORCED_CHANGE := ["forced_change", "change", "global", "manual", "on", "enable", "enabled"]
  const FORCED_CLEAR := ["forced_clear", "clear", "off", "disable", "disabled", "direct", "none"]
  const FORCE_PROXY := ["force-proxy", "force_proxy", "proxy", "always-proxy"]

  function SystemProxyModeOf(mode: string): (r: string)
    ensures r in ["forced_change", "forced_clear", "pac"]
  {
    if mode in FORCED_CHANGE then "forced_change"
    else if mode in FORCED_CLEAR then "forced_clear"
    else if mode == "pac" then "pac"
    else "forced_clear"
  }

  function NormalSystemProxyMode(s: string): string { SystemProxyModeOf(ToLower(TrimSpace(s))) }

  function LocalProxyModeOf(mode: string): (r: string)
    ensures r in ["follow-routing", "force-proxy"]
  {
    if mode in FORCE_PROXY then "force-proxy" else "follow-routing"
  }

  function NormalLocalProxyMode(s: string): string { LocalProxyModeOf(ToLower(TrimSpace(s))) }

  lemma PlainText(t: string)
    requires t != "" && !IsSpace(t[0]) && !IsSpace(t[|t| - 1]) && forall i :: 0 <= i < |t| ==> !('A' <= t[i] <= 'Z')
    ensures ToLower(TrimSpace(t)) == t
  {
  }

  lemma PlainSystemProxyMode(t: string)
    requires t in ["forced_change", "forced_clear", "pac"]
    ensures ToLower(TrimSpace(t)) == t
  {
    PlainText(t);
  }

  lemma PlainLocalProxyMode(t: string)
    requires t in ["follow-routing", "force-proxy"]
    ensures ToLower(TrimSpace(t)) == t
  {
    PlainText(t);
  }

  lemma SystemProxyModeStays(t: string)
    requires t in ["forced_change", "forced_clear", "pac"]
    ensures SystemProxyModeOf(t) == t
  {
    assert "forced_change" == FORCED_CHANGE[0] && "forced_clear" == FORCED_CLEAR[0];
  }

  lemma LocalProxyModeStays(t: string)
    requires t in ["follow-routing", "force-proxy"]
    ensures LocalProxyModeOf(t) == t
  {
    assert "force-proxy" == FORCE_PROXY[0];
  }

  lemma SystemProxyModeFixed(s: string)
    ensures NormalSystemProxyMode(NormalSystemProxyMode(s)) == NormalSystemProxyMode(s)
  {
    PlainSystemProxyMode(NormalSystemProxyMode(s));
    SystemProxyModeStays(NormalSystemProxyMode(s));
  }

  lemma LocalProxyModeFixed(s: string)
    ensures NormalLocalProxyMode(NormalLocalProxyMode(s)) == NormalLocalProxyMode(s)
  {
    PlainLocalProxyMode(NormalLocalProxyMode(s));
    LocalProxyModeStays(NormalLocalProxyMode(s));
  }

  predicate IsSeparator(c: char) { c == ',' || c == ';' || c == '\n' }

  /** A text split at commas, semicolons and line ends. */
  function Pieces(s: string): seq<string> {
    if s == [] then [""]
    else if IsSeparator(s[0]) then [""] + Pieces(s[1..])
    else var rest := Pieces(s[1..]); if rest == [] then [[s[0]]] else [[s[0]] + rest[0]] + rest[1..]
  }

  function Parts(v: Option<Value>): seq<string> {
    if v.None? then []
    else match v.value
      case Str(s) => Pieces(s)
      case Strings(ss) => ss
      case List(vs) => seq(|vs|, i requires 0 <= i < |vs| => AsString(Some(vs[i])))
      case _ => []
  }

  /** Trimmed, without empty texts and repetitions, in order of first appearance. */
  function Clean(parts: seq<string>): seq<string> {
    if parts == [] then []
    else
      var before := Clean(parts[..|parts| - 1]);
      var token := TrimSpace(parts[|parts| - 1]);
      if token == "" || token in before then before else before + [token]
  }

  ghost predicate IsClean(ts: seq<string>) {
    && (forall i :: 0 <= i < |ts| ==> ts[i] != "" && TrimSpace(ts[i]) == ts[i])
    && (forall i, j :: 0 <= i < j < |ts| ==> ts[i] != ts[j])
  }

  lemma {:induction false} CleanIsClean(parts: seq<string>)
    ensures IsClean(Clean(parts))
  {
    if parts != [] { CleanIsClean(parts[..|parts| - 1]); }
  }

  lemma {:induction false} CleanIsFixed(ts: seq<string>)
    requires IsClean(ts)
    ensures Clean(ts) == ts
  {
    if ts != [] {
      var n := |ts| - 1;
      CleanIsFixed(ts[..n]);
      assert ts == ts[..n] + [ts[n]];
      assert ts[n] !in ts[..n];
    }
  }

  function StrList(ts: seq<string>): Value { List(seq(|ts|, i requires 0 <= i < |ts| => Str(ts[i]))) }

  /** normalizeStringSliceValue */
  method NormalizeStringSliceValue(v: Option<Value>) returns (items: Value)
    ensures items == StrList(Clean(Parts(v)))
  {
    var parts := Parts(v);
    var tokens: seq<string> := [];
    var seen: set<string> := {};
    for i := 0 to |parts|
      invariant tokens == Clean(parts[..i]) && seen == set t | t in tokens
    {
      var token := TrimSpace(parts[i]);
      assert parts[..i + 1][..i] == parts[..i];
      if token != "" && token !in seen {
        seen := seen + {token};
        tokens := tokens + [token];
      }
    }
    assert parts[..|parts|] == parts;
    items := StrList(tokens);
  }

  predicate Enabled(v: Option<Value>) { v == Some(Flag(true)) || v == Some(Str("true")) }

  /** The TUN mode: the given one, or else the one that the older switch implies. */
  function TunModeOf(c: Config): (r: string)
    ensures r in ["off", "mixed", "system", "gvisor"]
  {
    var given := Get(c, TunMode);
    if given.Some? && given.value.Str? then NormalTunMode(given.value.s)
    else if Enabled(Get(c, EnableTun)) then
      var stack := NormalTunMode(AsString(Get(c, TunStack)));
      if stack == "off" then "mixed" else stack
    else "off"
  }

  predicate Explicit(c: Config) { Get(c, TunHijackExplicit) == Some(Flag(true)) }

  /** The normal form, key by key. */
  function NormalValue(c: Config, k: Key): Option<Value> {
    match k
    case DnsServers => None
    case DnsList => if k in c then Get(c, k) else Get(c, DnsServers)
    case CoreEngine => Some(Str("xray-core"))
    case TunMode => Some(Str(TunModeOf(c)))
    case EnableTun => Some(Flag(TunModeOf(c) != "off"))
    case TunStack =>
      if TunModeOf(c) != "off" then Some(Str(TunModeOf(c)))
      else if AsString(Get(c, k)) == "" then Some(Str("mixed"))
      else Get(c, k)
    case TunHijack => if Explicit(c) then Get(c, k) else Some(Flag(false))
    case TunHijackExplicit => Some(Flag(Explicit(c)))
    case SystemProxyMode => Some(Str(NormalSystemProxyMode(AsString(Get(c, k)))))
    case LocalProxyMode => Some(Str(NormalLocalProxyMode(AsString(Get(c, k)))))
    case SystemProxyUsers => Some(StrList(Clean(Parts(Get(c, k)))))
    case Named(_) => Get(c, k)
  }

  const SPECIAL: set<Key> := {DnsList, CoreEngine, TunMode, EnableTun, TunStack, TunHijack, TunHijackExplicit,
                              SystemProxyMode, LocalProxyMode, SystemProxyUsers}

  function Normal(c: Config): Config {
    map k | k in c.Keys + SPECIAL && NormalValue(c, k).Some? :: NormalValue(c, k).value
  }

  lemma NormalGet(c: Config, k: Key)
    ensures Get(Normal(c), k) == NormalValue(c, k)
  {
  }

  lemma ConfigsEqual(a: Config, b: Config)
    requires forall k :: Get(a, k) == Get(b, k)
    ensures a == b
  {
    forall k ensures (k in a <==> k in b) && (k in a ==> a[k] == b[k]) {
      assert Get(a, k) == Get(b, k);
    }
  }

  /** normalizeConfigMap on a map that is there: the map rewritten key by key. */
  method NormalizeConfigMap(c: Config) returns (n: Config)
    ensures n == Normal(c)
  {
    var renamed := RenameDnsServers(c);
    renamed := renamed[CoreEngine := Str("xray-core")];
    var tun := NormalizeTun(renamed);
    n := NormalizeModes(tun);
    AllKeysNormal(c, renamed, tun, n);
  }

  predicate IsRenamedKey(k: Key) { k == DnsServers || k == DnsList || k == CoreEngine }

  lemma AllKeysNormal(c: Config, renamed: Config, tun: Config, n: Config)
    requires forall k :: Get(renamed, k) == if IsRenamedKey(k) then NormalValue(c, k) else Get(c, k)
    requires forall k :: Get(tun, k) == if IsTunKey(k) then NormalValue(renamed, k) else Get(renamed, k)
    requires forall k :: Get(n, k) == if IsModeKey(k) then NormalValue(tun, k) else Get(tun, k)
    ensures n == Normal(c)
  {
    forall l | IsTunKey(l) ensures Get(renamed, l) == Get(c, l) { KindsAreApart(l); }
    forall k ensures Get(n, k) == Get(Normal(c), k) {
      NormalGet(c, k);
      KindsAreApart(k);
      if IsTunKey(k) { TunKeysDecide(c, renamed, k); }
      if IsModeKey(k) { ModeKeyDecides(c, tun, k); }
      if !IsRenamedKey(k) && !IsTunKey(k) && !IsModeKey(k) { OtherKeysKept(c, k); }
      ThroughTheSteps(IsRenamedKey(k), IsTunKey(k), IsModeKey(k), Get(c, k), NormalValue(c, k), Get(renamed, k),
                      NormalValue(renamed, k), Get(tun, k), NormalValue(tun, k), Get(n, k));
    }
    ConfigsEqual(n, Normal(c));
  }

  lemma KindsAreApart(k: Key)
    ensures !(IsRenamedKey(k) && IsTunKey(k)) && !(IsRenamedKey(k) && IsModeKey(k)) && !(IsTunKey(k) && IsModeKey(k))
  {
  }

  /** One key through the three steps, each of which sets the keys of its kind. */
  lemma ThroughTheSteps(isRenamed: bool, isTun: bool, isMode: bool, given: Option<Value>, normal: Option<Value>,
                        renamed: Option<Value>, renamedNormal: Option<Value>, tun: Option<Value>,
                        tunNormal: Option<Value>, end: Option<Value>)
    requires !(isRenamed && isTun) && !(isRenamed && isMode) && !(isTun && isMode)
    requires renamed == if isRenamed then normal else given
    requires tun == if isTun then renamedNormal else renamed
    requires end == if isMode then tunNormal else tun
    requires (isTun ==> renamedNormal == normal) && (isMode ==> tun == given ==> tunNormal == normal)
    requires !isRenamed && !isTun && !isMode ==> normal == given
    ensures end == normal
  {
  }

  lemma TunModeDecides(c: Config, d: Config)
    requires Get(c, TunMode) == Get(d, TunMode) && Get(c, EnableTun) == Get(d, EnableTun)
    requires Get(c, TunStack) == Get(d, TunStack) && Get(c, TunHijackExplicit) == Get(d, TunHijackExplicit)
    ensures TunModeOf(c) == TunModeOf(d) && Explicit(c) == Explicit(d)
  {
  }

  lemma TunKeysDecide(c: Config, d: Config, k: Key)
    requires IsTunKey(k) && forall l :: IsTunKey(l) ==> Get(c, l) == Get(d, l)
    ensures NormalValue(c, k) == NormalValue(d, k)
  {
    TunModeDecides(c, d);
    assert Get(c, k) == Get(d, k);
  }

  lemma ModeKeyDecides(c: Config, d: Config, k: Key)
    requires IsModeKey(k)
    ensures Get(d, k) == Get(c, k) ==> NormalValue(d, k) == NormalValue(c, k)
  {
  }

  lemma OtherKeysKept(c: Config, k: Key)
    requires !IsRenamedKey(k) && !IsTunKey(k) && !IsModeKey(k)
    ensures NormalValue(c, k) == Get(c, k)
  {
  }

  method RenameDnsServers(c: Config) returns (n: Config)
    ensures forall k :: Get(n, k) == if k == DnsServers || k == DnsList then NormalValue(c, k) else Get(c, k)
  {
    n := c;
    if DnsServers in n {
      if DnsList !in n { n := n[DnsList := n[DnsServers]]; }
      n := n - {DnsServers};
    }
  }

  predicate IsTunKey(k: Key) {
    k == TunMode || k == EnableTun || k == TunStack || k == TunHijack || k == TunHijackExplicit
  }

  predicate IsModeKey(k: Key) { k == SystemProxyMode || k == LocalProxyMode || k == SystemProxyUsers }

  method NormalizeTun(c: Config) returns (n: Config)
    ensures forall k :: Get(n, k) == if IsTunKey(k) then NormalValue(c, k) else Get(c, k)
  {
    n := c;
    var tunMode := NormalizedTunMode(n);
    n := n[TunMode := Str(tunMode)];
    n := n[EnableTun := Flag(tunMode != "off")];
    if Get(n, TunHijackExplicit) != Some(Flag(true)) {
      n := n[TunHijack := Flag(false)];
      n := n[TunHijackExplicit := Flag(false)];
    }
    if tunMode == "off" {
      if AsString(Get(n, TunStack)) == "" { n := n[TunStack := Str("mixed")]; }
    } else {
      n := n[TunStack := Str(tunMode)];
    }
    TunKeysSet(c, n);
  }

  lemma TunKeysSet(c: Config, n: Config)
    requires Get(n, TunMode) == Some(Str(TunModeOf(c))) && Get(n, EnableTun) == Some(Flag(TunModeOf(c) != "off"))
    requires Get(n, TunHijackExplicit) == Some(Flag(Explicit(c)))
    requires Get(n, TunHijack) == if Explicit(c) then Get(c, TunHijack) else Some(Flag(false))
    requires Get(n, TunStack) == if TunModeOf(c) != "off" then Some(Str(TunModeOf(c)))
                                 else if AsString(Get(c, TunStack)) == "" then Some(Str("mixed")) else Get(c, TunStack)
    requires forall k :: !IsTunKey(k) ==> Get(n, k) == Get(c, k)
    ensures forall k :: Get(n, k) == if IsTunKey(k) then NormalValue(c, k) else Get(c, k)
  {
  }

  method NormalizeModes(c: Config) returns (n: Config)
    ensures forall k :: Get(n, k) == if IsModeKey(k) then NormalValue(c, k) else Get(c, k)
  {
    var system := NormalSystemProxyMode(AsString(Get(c, SystemProxyMode)));
    var local := NormalLocalProxyMode(AsString(Get(c, LocalProxyMode)));
    var users := NormalizeStringSliceValue(Get(c, SystemProxyUsers));
    n := c[SystemProxyMode := Str(system)];
    n := n[LocalProxyMode := Str(local)];
    n := n[SystemProxyUsers := users];
    ModeKeysSet(c, n);
  }

  lemma ModeKeysSet(c: Config, n: Config)
    requires Get(n, SystemProxyMode) == Some(Str(NormalSystemProxyMode(AsString(Get(c, SystemProxyMode)))))
    requires Get(n, LocalProxyMode) == Some(Str(NormalLocalProxyMode(AsString(Get(c, LocalProxyMode)))))
    requires Get(n, SystemProxyUsers) == Some(StrList(Clean(Parts(Get(c, SystemProxyUsers)))))
    requires forall k :: !IsModeKey(k) ==> Get(n, k) == Get(c, k)
    ensures forall k :: Get(n, k) == if IsModeKey(k) then NormalValue(c, k) else Get(c, k)
  {
  }

  method NormalizedTunMode(c: Config) returns (tunMode: string)
    ensures tunMode == TunModeOf(c)
  {
    var given := Get(c, TunMode);
    var hasTunMode := given.Some? && given.value.Str?;
    tunMode := NormalTunMode(AsString(given));
    if !hasTunMode || tunMode == "" {
      if Enabled(Get(c, EnableTun)) {
        tunMode := NormalTunMode(AsString(Get(c, TunStack)));
        if tunMode == "off" { tunMode := "mixed"; }
      } else {
        tunMode := "off";
      }
    }
  }

  // ---- laws of the normal form -----------------------------------------------------------

  lemma PartsOfStrList(ts: seq<string>)
    ensures Parts(Some(StrList(ts))) == ts
  {
  }

  lemma TunModeFixed(c: Config)
    ensures TunModeOf(Normal(c)) == TunModeOf(c) && Explicit(Normal(c)) == Explicit(c)
  {
    NormalGet(c, TunMode);
    NormalGet(c, TunHijackExplicit);
  }

  lemma UsersFixed(v: Option<Value>)
    ensures Clean(Parts(Some(StrList(Clean(Parts(v)))))) == Clean(Parts(v))
  {
    CleanIsClean(Parts(v));
    PartsOfStrList(Clean(Parts(v)));
    CleanIsFixed(Clean(Parts(v)));
  }

  lemma TunValueFixed(c: Config, k: Key)
    requires IsTunKey(k)
    ensures NormalValue(Normal(c), k) == NormalValue(c, k)
  {
    TunModeFixed(c);
    NormalGet(c, k);
  }

  lemma ModeValueFixed(c: Config, k: Key)
    requires IsModeKey(k)
    ensures NormalValue(Normal(c), k) == NormalValue(c, k)
  {
    NormalGet(c, k);
    match k
    case SystemProxyMode => SystemProxyModeFixed(AsString(Get(c, k)));
    case LocalProxyMode => LocalProxyModeFixed(AsString(Get(c, k)));
    case SystemProxyUsers => UsersFixed(Get(c, k));
    case _ =>
  }

  lemma NormalValueFixed(c: Config, k: Key)
    ensures NormalValue(Normal(c), k) == NormalValue(c, k)
  {
    if IsTunKey(k) {
      TunValueFixed(c, k);
    } else if IsModeKey(k) {
      ModeValueFixed(c, k);
    } else {
      NormalGet(c, k);
      NormalGet(c, DnsServers);
    }
  }

  /** Normalising twice is normalising once. */
  lemma NormalIsIdempotent(c: Config)
    ensures Normal(Normal(c)) == Normal(c)
  {
    forall k ensures Get(Normal(Normal(c)), k) == Get(Normal(c), k) {
      NormalGet(Normal(c), k);
      NormalGet(c, k);
      NormalValueFixed(c, k);
    }
    ConfigsEqual(Normal(Normal(c)), Normal(c));
  }

  function DecodedOption(v: Option<Value>): Option<Value> { if v.None? then None else Some(Decoded(v.value)) }

  lemma DecodedGet(c: Config, k: Key)
    ensures Get(DecodedConfig(c), k) == DecodedOption(Get(c, k))
  {
  }

  lemma DecodedKeepsText(v: Option<Value>)
    ensures AsString(DecodedOption(v)) == AsString(v) && Enabled(DecodedOption(v)) == Enabled(v)
    ensures DecodedOption(v) == Some(Flag(true)) <==> v == Some(Flag(true))
    ensures (DecodedOption(v).Some? && DecodedOption(v).value.Str?) <==> (v.Some? && v.value.Str?)
  {
  }

  lemma DecodedKeepsParts(v: Option<Value>)
    ensures Parts(DecodedOption(v)) == Parts(v)
  {
    if v.Some? && v.value.List? {
      forall i | 0 <= i < |v.value.vs| ensures Parts(DecodedOption(v))[i] == Parts(v)[i] {
        assert AsString(Some(Decoded(v.value.vs[i]))) == AsString(Some(v.value.vs[i]));
      }
    } else if v.Some? && v.value.Strings? {
      assert forall i :: 0 <= i < |v.value.ss| ==> Parts(DecodedOption(v))[i] == v.value.ss[i];
    }
  }

  lemma StrListIsDecoded(ts: seq<string>)
    ensures Decoded(StrList(ts)) == StrList(ts)
  {
    assert Decoded(StrList(ts)).vs == StrList(ts).vs;
  }

  lemma UsersDecode(v: Option<Value>)
    ensures StrList(Clean(Parts(DecodedOption(v)))) == Decoded(StrList(Clean(Parts(v))))
  {
    DecodedKeepsParts(v);
    StrListIsDecoded(Clean(Parts(v)));
  }

  lemma TunValueDecodes(c: Config, k: Key)
    requires IsTunKey(k)
    ensures NormalValue(DecodedConfig(c), k) == DecodedOption(NormalValue(c, k))
  {
    DecodedGet(c, k);
    DecodedKeepsText(Get(c, k));
    TunDecodes(c);
  }

  lemma ModeValueDecodes(c: Config, k: Key)
    requires IsModeKey(k)
    ensures NormalValue(DecodedConfig(c), k) == DecodedOption(NormalValue(c, k))
  {
    DecodedGet(c, k);
    DecodedKeepsText(Get(c, k));
    UsersDecode(Get(c, k));
  }

  lemma NormalValueDecodes(c: Config, k: Key)
    ensures NormalValue(DecodedConfig(c), k) == DecodedOption(NormalValue(c, k))
  {
    if IsTunKey(k) {
      TunValueDecodes(c, k);
    } else if IsModeKey(k) {
      ModeValueDecodes(c, k);
    } else {
      DecodedGet(c, k);
      DecodedGet(c, DnsServers);
    }
  }

  lemma TunDecodes(c: Config)
    ensures TunModeOf(DecodedConfig(c)) == TunModeOf(c) && Explicit(DecodedConfig(c)) == Explicit(c)
  {
    forall k ensures Get(DecodedConfig(c), k) == DecodedOption(Get(c, k)) { DecodedGet(c, k); }
    DecodedKeepsText(Get(c, TunMode));
    DecodedKeepsText(Get(c, EnableTun));
    DecodedKeepsText(Get(c, TunStack));
    DecodedKeepsText(Get(c, TunHijackExplicit));
  }

  /** Normalising commutes with writing to the file and reading back. */
  lemma NormalCommutesWithJson(c: Config)
    ensures Normal(DecodedConfig(c)) == DecodedConfig(Normal(c))
  {
    forall k ensures Get(Normal(DecodedConfig(c)), k) == Get(DecodedConfig(Normal(c)), k) {
      NormalGet(DecodedConfig(c), k);
      NormalValueDecodes(c, k);
      DecodedGet(Normal(c), k);
      NormalGet(c, k);
    }
    ConfigsEqual(Normal(DecodedConfig(c)), DecodedConfig(Normal(c)));
  }

  // ---- the file and its cache ----------------------------------------------------------

  function DefaultConfig(): Config {
    map[
      Named("socksPort") := Whole(10808), Named("httpPort") := Whole(10809), Named("listenAddr") := Str("127.0.0.1"),
      Named("allowLan") := Flag(false), Named("logLevel") := Str("warning"), Named("statsPort") := Whole(10085),
      Named("autoRun") := Flag(false), Named("skipCertVerify") := Flag(false),
      EnableTun := Flag(false), TunMode := Str("off"), Named("tunName") := Str("xraye0"), TunStack := Str("mixed"),
      Named("tunMtu") := Whole(1500), Named("tunAutoRoute") := Flag(true),
      TunHijack := Flag(false), TunHijackExplicit := Flag(false), Named("tunStrictRoute") := Flag(false),
      SystemProxyMode := Str("forced_clear"), LocalProxyMode := Str("follow-routing"),
      Named("systemProxyExceptions") := Str(""), SystemProxyUsers := List([]),
      Named("coreAutoRestart") := Flag(true), Named("coreAutoRestartMaxRetries") := Whole(5),
      Named("coreAutoRestartBackoffMs") := Whole(500),
      CoreEngine := Str("xray-core"), Named("dnsMode") := Str("UseSystemDNS"),
      DnsList := List([Str("1.1.1.1"), Str("8.8.8.8")])]
  }

  /** config.json: not there, unreadable or no JSON, the JSON null, or a map as read
      back. */
  datatype Disk = Missing | Unreadable | JsonNull | File(c: Config)

  /** What a process that has nothing cached reads; only an unreadable file is not
      cached. */
  function Fresh(d: Disk): Config {
    if d.File? then DefaultConfig() + Normal(d.c) else DefaultConfig()
  }

  /** normalizeConfigMap, with the nil map. */
  function NormalOf(cfg: Option<Config>): Config { if cfg.None? then DefaultConfig() else Normal(cfg.value) }

  datatype State = State(disk: Disk, cache: Option<Config>)

  function Answer(s: State): Config { if s.cache.Some? then s.cache.value else Fresh(s.disk) }

  function Loaded(s: State): State { if s.disk.Unreadable? then s else s.(cache := Some(Answer(s))) }

  function Saved(s: State, cfg: Option<Config>, writes: bool): State {
    if writes then State(File(DecodedConfig(NormalOf(cfg))), Some(NormalOf(cfg))) else s
  }

  class ConfigStore {
    var disk: Disk
    var config: Config
    var configOK: bool

    ghost function View(): State
      reads this
    {
      State(disk, if configOK then Some(config) else None)
    }

    constructor (disk: Disk)
      ensures View() == State(disk, None)
    {
      this.disk, config, configOK := disk, map[], false;
    }

    method LoadConfig() returns (cfg: Config)
      modifies this`config, this`configOK
      ensures cfg == Answer(old(View())) && View() == Loaded(old(View()))
    {
      if configOK { return config; }
      if disk.Unreadable? { return DefaultConfig(); }
      cfg := DefaultConfig();
      if disk.File? {
        var normal := NormalizeConfigMap(disk.c);
        cfg := cfg + normal;
      }
      config, configOK := cfg, true;
    }

    /** The write replaces the file whole or, on an error, leaves it. */
    method SaveConfig(cfg: Option<Config>, writes: bool) returns (ok: bool)
      modifies this
      ensures ok == writes && View() == Saved(old(View()), cfg, writes)
    {
      var normalized := DefaultConfig();
      if cfg.Some? { normalized := NormalizeConfigMap(cfg.value); }
      if !writes { return false; }
      disk := File(DecodedConfig(normalized));
      config, configOK := normalized, true;
      ok := true;
    }
  }

  // ---- the cache agrees with the file -----------------------------------------------------

  /** A fresh process would read what is cached. */
  ghost predicate Coherent(s: State) { s.cache.Some? ==> Same(s.cache.value, Fresh(s.disk)) }

  ghost predicate Complete(c: Config) { DefaultConfig().Keys <= c.Keys }

  lemma DefaultIsNormal()
    ensures Normal(DefaultConfig()) == DefaultConfig()
  {
    DefaultTunKeys();
    DefaultHijackKeys();
    DefaultModeKeys();
    DefaultOtherKeys();
    AlreadyNormal(DefaultConfig());
  }

  ghost predicate TunIsNormal(c: Config) {
    Get(c, TunMode) == Some(Str("off")) && Get(c, EnableTun) == Some(Flag(false))
      && Get(c, TunStack) == Some(Str("mixed"))
  }

  ghost predicate HijackIsNormal(c: Config) { Get(c, TunHijack) == Get(c, TunHijackExplicit) == Some(Flag(false)) }

  ghost predicate ModesAreNormal(c: Config) {
    && Get(c, SystemProxyMode) == Some(Str("forced_clear")) && Get(c, LocalProxyMode) == Some(Str("follow-routing"))
    && Get(c, SystemProxyUsers) == Some(List([]))
  }

  ghost predicate OthersAreNormal(c: Config) {
    DnsServers !in c && DnsList in c && Get(c, CoreEngine) == Some(Str("xray-core"))
  }

  lemma DefaultTunMode()
    ensures Get(DefaultConfig(), TunMode) == Some(Str("off"))
  {
  }

  lemma DefaultEnableTun()
    ensures Get(DefaultConfig(), EnableTun) == Some(Flag(false))
  {
  }

  lemma DefaultTunStack()
    ensures Get(DefaultConfig(), TunStack) == Some(Str("mixed"))
  {
  }

  lemma DefaultTunKeys()
    ensures TunIsNormal(DefaultConfig())
  {
    DefaultTunMode();
    DefaultEnableTun();
    DefaultTunStack();
  }

  lemma DefaultHijackKeys()
    ensures HijackIsNormal(DefaultConfig())
  {
  }

  lemma DefaultModeKeys()
    ensures ModesAreNormal(DefaultConfig())
  {
  }

  lemma DefaultOtherKeys()
    ensures OthersAreNormal(DefaultConfig())
  {
  }

  lemma AlreadyNormal(c: Config)
    requires TunIsNormal(c) && HijackIsNormal(c) && ModesAreNormal(c) && OthersAreNormal(c)
    ensures Normal(c) == c
  {
    forall k ensures Get(Normal(c), k) == Get(c, k) {
      NormalGet(c, k);
      if IsTunKey(k) {
        DefaultTun(c, k);
      } else if IsModeKey(k) {
        DefaultModes(c, k);
      } else if IsRenamedKey(k) {
        DefaultOthers(c, k);
      } else {
        OtherKeysKept(c, k);
      }
    }
    ConfigsEqual(Normal(c), c);
  }

  lemma DefaultTun(c: Config, k: Key)
    requires TunIsNormal(c) && HijackIsNormal(c) && IsTunKey(k)
    ensures NormalValue(c, k) == Get(c, k)
  {
  }

  lemma DefaultModes(c: Config, k: Key)
    requires ModesAreNormal(c) && IsModeKey(k)
    ensures NormalValue(c, k) == Get(c, k)
  {
    match k
    case SystemProxyMode => DefaultSystemProxyMode("forced_clear");
    case LocalProxyMode => DefaultLocalProxyMode("follow-routing");
    case _ => NobodyIsClean(Get(c, k));
  }

  lemma NobodyIsClean(v: Option<Value>)
    requires v == Some(List([]))
    ensures Some(StrList(Clean(Parts(v)))) == v
  {
    assert Parts(v) == [];
    assert StrList([]) == List([]);
  }

  lemma DefaultSystemProxyMode(t: string)
    requires t == "forced_clear"
    ensures NormalSystemProxyMode(t) == t
  {
    PlainSystemProxyMode(t);
    SystemProxyModeStays(t);
  }

  lemma DefaultLocalProxyMode(t: string)
    requires t == "follow-routing"
    ensures NormalLocalProxyMode(t) == t
  {
    PlainLocalProxyMode(t);
    LocalProxyModeStays(t);
  }

  lemma DefaultOthers(c: Config, k: Key)
    requires OthersAreNormal(c) && IsRenamedKey(k)
    ensures NormalValue(c, k) == Get(c, k)
  {
  }

  lemma NormalOfIsNormal(cfg: Option<Config>)
    ensures Normal(NormalOf(cfg)) == NormalOf(cfg)
  {
    if cfg.None? { DefaultIsNormal(); } else { NormalIsIdempotent(cfg.value); }
  }

  lemma DecodedConfigTwice(c: Config)
    ensures DecodedConfig(DecodedConfig(c)) == DecodedConfig(c)
  {
    forall k | k in c ensures Decoded(Decoded(c[k])) == Decoded(c[k]) { DecodedTwice(c[k]); }
  }

  /** What a fresh process reads after a save. */
  lemma FreshAfterSave(cfg: Option<Config>)
    ensures Fresh(File(DecodedConfig(NormalOf(cfg)))) == DefaultConfig() + DecodedConfig(NormalOf(cfg))
  {
    NormalCommutesWithJson(NormalOf(cfg));
    NormalOfIsNormal(cfg);
  }

  lemma FilledSameIff(defaults: Config, c: Config)
    ensures Same(c, defaults + DecodedConfig(c)) <==> defaults.Keys <= c.Keys
  {
    var filled := defaults + DecodedConfig(c);
    assert filled.Keys == defaults.Keys + c.Keys;
    DecodedConfigTwice(c);
    if defaults.Keys <= c.Keys {
      assert filled == DecodedConfig(c);
    } else {
      assert DecodedConfig(filled).Keys == filled.Keys && DecodedConfig(c).Keys == c.Keys;
    }
  }

  /** After a save the cache agrees with the file exactly if the normalised map has
      every default key: a fresh process fills in the others, the cache does not. */
  lemma SaveIsCoherentIff(s: State, cfg: Option<Config>)
    ensures Coherent(Saved(s, cfg, true)) <==> Complete(NormalOf(cfg))
  {
    FreshAfterSave(cfg);
    FilledSameIff(DefaultConfig(), NormalOf(cfg));
  }

  /** The keys that normalising a map gives: its own, those that are always set, and two
      that depend on it. */
  predicate HasValue(c: Config, k: Key) {
    || (k in c && k != DnsServers)
    || (k in SPECIAL && k != DnsList && k != TunHijack)
    || (k == DnsList && DnsServers in c) || (k == TunHijack && !Explicit(c))
  }

  /** The same condition on the map that the caller saves. */
  lemma SavedMapIsCompleteIff(c: Config)
    ensures Complete(Normal(c)) <==>
      forall k :: k in DefaultConfig() ==> HasValue(c, k)
  {
    forall k ensures k in Normal(c) <==> HasValue(c, k) { NormalHas(c, k); }
  }

  lemma NormalHas(c: Config, k: Key)
    ensures k in Normal(c) <==> HasValue(c, k)
  {
    NormalGet(c, k);
    if IsTunKey(k) {
      TunKeyHas(c, k);
    } else if IsModeKey(k) {
      ModeKeyHas(c, k);
    } else {
      OtherKeyHas(c, k);
    }
  }

  lemma TunKeyHas(c: Config, k: Key)
    requires IsTunKey(k)
    ensures NormalValue(c, k).Some? <==> HasValue(c, k)
  {
  }

  lemma ModeKeyHas(c: Config, k: Key)
    requires IsModeKey(k)
    ensures NormalValue(c, k).Some? <==> HasValue(c, k)
  {
  }

  lemma OtherKeyHas(c: Config, k: Key)
    requires !IsTunKey(k) && !IsModeKey(k)
    ensures NormalValue(c, k).Some? <==> HasValue(c, k)
  {
  }

  datatype Op = Load | Save(cfg: Option<Config>, writes: bool)

  function Run(s: State, ops: seq<Op>): State
    decreases ops
  {
    if ops == [] then s
    else Run(if ops[0].Load? then Loaded(s) else Saved(s, ops[0].cfg, ops[0].writes), ops[1..])
  }

  /** Along any run of loads and saves, failing ones included, whose saved maps keep the
      default keys, the cache agrees with the file, and a load answers what a fresh
      process would read, with every default key. */
  lemma {:induction false} RunsStayCoherent(s: State, ops: seq<Op>)
    requires Coherent(s) && (s.cache.Some? ==> Complete(s.cache.value))
    requires forall op :: op in ops && op.Save? && op.writes ==> Complete(NormalOf(op.cfg))
    ensures var r := Run(s, ops); Coherent(r) && Same(Answer(r), Fresh(r.disk)) && Complete(Answer(r))
    decreases ops
  {
    if ops == [] {
    } else {
      var op := ops[0];
      if op.Save? && op.writes { SaveIsCoherentIff(s, op.cfg); }
      RunsStayCoherent(if op.Load? then Loaded(s) else Saved(s, op.cfg, op.writes), ops[1..]);
    }
  }
}
