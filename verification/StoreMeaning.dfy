/** What the normal form of the settings says, setting by setting, in the words that users
    and older versions write. */
module StoreMeaning {
  import opened Options
  import opened Text
  import opened Store

  // ---- the TUN mode ---------------------------------------------------------------------

  /** A text as a TUN mode: three words stand for themselves, four mean that it is off, and
      every other word means "mixed". */
  ghost predicate MeansMode(s: string, mode: string) {
    && (s in {"mixed", "system", "gvisor"} ==> mode == s)
    && (s in {"", "off", "disabled", "none"} ==> mode == "off")
    && (s !in {"mixed", "system", "gvisor", "", "off", "disabled", "none"} ==> mode == "mixed")
  }

  lemma NormalTunModeMeans(s: string)
    ensures MeansMode(s, NormalTunMode(s))
  {
  }

  /** A setting that is a text decides the mode. */
  lemma GivenModeDecides(c: Config, s: string)
    requires Get(c, TunMode) == Some(Str(s))
    ensures Get(Normal(c), TunMode).Some? && Get(Normal(c), TunMode).value.Str?
    ensures MeansMode(s, Get(Normal(c), TunMode).value.s)
  {
    NormalGet(c, TunMode);
    NormalTunModeMeans(s);
  }

  lemma TextOrNot(c: Config)
    ensures Get(c, TunMode).Some? && Get(c, TunMode).value.Str? <==> exists s :: Get(c, TunMode) == Some(Str(s))
  {
  }

  /** Without one, the older switch does: if it is on, as a flag or as the text "true", the
      mode is that of the older stack setting, which cannot turn it off. */
  lemma OlderSwitchDecides(c: Config)
    requires forall s :: Get(c, TunMode) != Some(Str(s))
    ensures var (on, stack) := (Get(c, EnableTun) in {Some(Flag(true)), Some(Str("true"))}, AsString(Get(c, TunStack)));
            && (!on ==> Get(Normal(c), TunMode) == Some(Str("off")))
            && (on ==> Get(Normal(c), TunMode)
                       == Some(Str(if stack in {"mixed", "system", "gvisor"} then stack else "mixed")))
  {
    NormalGet(c, TunMode);
    TextOrNot(c);
    NormalTunModeMeans(AsString(Get(c, TunStack)));
  }

  /** In the normal form mode, switch and stack say the same: the switch is on exactly if
      the mode is not "off", and then the stack is the mode. */
  lemma TunKeysAgree(c: Config)
    ensures var n := Normal(c);
            && Get(n, TunMode).Some? && Get(n, TunMode).value.Str?
            && Get(n, EnableTun) == Some(Flag(Get(n, TunMode) != Some(Str("off"))))
            && (Get(n, TunMode) != Some(Str("off")) ==> Get(n, TunStack) == Get(n, TunMode))
            && (Get(n, TunMode) == Some(Str("off")) && AsString(Get(c, TunStack)) != "" ==>
                  Get(n, TunStack) == Get(c, TunStack))
            && (Get(n, TunMode) == Some(Str("off")) && AsString(Get(c, TunStack)) == "" ==>
                  Get(n, TunStack) == Some(Str("mixed")))
  {
    NormalGet(c, TunMode);
    NormalGet(c, EnableTun);
    NormalGet(c, TunStack);
  }

  /** The default route is taken over only if the user said so explicitly. */
  lemma HijackNeedsExplicit(c: Config)
    ensures Get(Normal(c), TunHijack) == Some(Flag(true))
            <==> Get(c, TunHijack) == Some(Flag(true)) && Get(c, TunHijackExplicit) == Some(Flag(true))
  {
    NormalGet(c, TunHijack);
  }

  // ---- the proxy modes ------------------------------------------------------------------

  /** Seven words set the system proxy, "pac" is kept, and everything else clears it. */
  lemma SystemProxyModeMeans(c: Config)
    ensures var word := ToLower(TrimSpace(AsString(Get(c, SystemProxyMode))));
            Get(Normal(c), SystemProxyMode)
            == Some(Str(if word in {"forced_change", "change", "global", "manual", "on", "enable", "enabled"}
                        then "forced_change"
                        else if word == "pac" then "pac" else "forced_clear"))
  {
    NormalGet(c, SystemProxyMode);
    SystemWords(ToLower(TrimSpace(AsString(Get(c, SystemProxyMode)))));
  }

  lemma SystemWords(word: string)
    ensures SystemProxyModeOf(word)
            == if word in {"forced_change", "change", "global", "manual", "on", "enable", "enabled"}
               then "forced_change" else if word == "pac" then "pac" else "forced_clear"
  {
    assert word in FORCED_CHANGE
           <==> word in {"forced_change", "change", "global", "manual", "on", "enable", "enabled"};
    PacIsPac(word);
  }

  lemma PacIsPac(word: string)
    ensures word == "pac" ==> word !in FORCED_CHANGE && word !in FORCED_CLEAR
  {
  }

  /** Four words force local traffic through the proxy, and nothing else does. */
  lemma LocalProxyModeMeans(c: Config)
    ensures var word := ToLower(TrimSpace(AsString(Get(c, LocalProxyMode))));
            Get(Normal(c), LocalProxyMode)
            == Some(Str(if word in {"force-proxy", "force_proxy", "proxy", "always-proxy"}
                        then "force-proxy" else "follow-routing"))
  {
    NormalGet(c, LocalProxyMode);
    LocalWords(ToLower(TrimSpace(AsString(Get(c, LocalProxyMode)))));
  }

  lemma LocalWords(word: string)
    ensures LocalProxyModeOf(word)
            == if word in {"force-proxy", "force_proxy", "proxy", "always-proxy"} then "force-proxy"
               else "follow-routing"
  {
  }

  // ---- renamed and untouched keys ---------------------------------------------------------

  /** The DNS list takes over the older key, unless it is there itself; the older key goes,
      the engine is fixed, and every key that the service does not know stays as it is. */
  lemma OtherKeys(c: Config, name: string)
    ensures var n := Normal(c);
            && DnsServers !in n
            && Get(n, DnsList) == (if DnsList in c then Get(c, DnsList) else Get(c, DnsServers))
            && Get(n, CoreEngine) == Some(Str("xray-core"))
            && Get(n, Named(name)) == Get(c, Named(name))
  {
    NormalGet(c, DnsServers);
    NormalGet(c, DnsList);
    NormalGet(c, CoreEngine);
    NormalGet(c, Named(name));
  }

  // ---- lists of users -----------------------------------------------------------------------

  /** Some part gives the token once the white space is gone. */
  ghost predicate Gives(parts: seq<string>, token: string) {
    exists part :: part in parts && TrimSpace(part) == token
  }

  lemma GivesLast(parts: seq<string>, token: string)
    requires parts != []
    ensures Gives(parts, token) <==> Gives(parts[..|parts| - 1], token) || TrimSpace(parts[|parts| - 1]) == token
  {
    assert parts == parts[..|parts| - 1] + [parts[|parts| - 1]];
  }

  /** A token is there exactly if it is not empty and some part gives it. */
  lemma {:induction false} CleanIff(parts: seq<string>, token: string)
    ensures token in Clean(parts) <==> token != "" && Gives(parts, token)
    decreases |parts|
  {
    if parts != [] {
      CleanIff(parts[..|parts| - 1], token);
      GivesLast(parts, token);
      CleanStep(parts, token);
    }
  }

  lemma CleanStep(parts: seq<string>, token: string)
    requires parts != []
    ensures token in Clean(parts)
            <==> token in Clean(parts[..|parts| - 1]) || (token != "" && token == TrimSpace(parts[|parts| - 1]))
  {
  }

  /** More parts only add tokens behind those that are there: the order is that of first
      appearance. */
  lemma CleanGrows(parts: seq<string>, part: string)
    ensures Clean(parts) <= Clean(parts + [part])
    ensures |Clean(parts + [part])| <= |Clean(parts)| + 1
  {
    assert (parts + [part])[..|parts|] == parts;
  }

  /** A text is split at every comma, semicolon and line end, and nowhere else. */
  lemma {:induction false} PiecesJoin(a: string, sep: char, b: string)
    requires sep in {',', ';', '\n'}
    ensures Pieces(a + [sep] + b) == Pieces(a) + Pieces(b)
  {
    var s := a + [sep] + b;
    if a == [] {
      assert s[0] == sep && s[1..] == b;
    } else {
      var rest := a[1..] + [sep] + b;
      PiecesJoin(a[1..], sep, b);
      PiecesCons(a[0], a[1..], a);
      assert s == [a[0]] + rest;
      PiecesCons(a[0], rest, s);
      FirstLonger(a[0], Pieces(a[1..]), Pieces(b));
    }
  }

  lemma PiecesCons(c: char, rest: string, s: string)
    requires s == [c] + rest
    ensures Pieces(rest) != []
    ensures Pieces(s) == if IsSeparator(c) then [""] + Pieces(rest)
                         else [[c] + Pieces(rest)[0]] + Pieces(rest)[1..]
  {
    assert s[0] == c && s[1..] == rest;
  }

  lemma FirstLonger(c: char, front: seq<string>, back: seq<string>)
    requires front != []
    ensures [""] + (front + back) == [""] + front + back
    ensures [[c] + (front + back)[0]] + (front + back)[1..] == [[c] + front[0]] + front[1..] + back
  {
  }

  lemma {:induction false} NotSplit(s: string)
    requires ',' !in s && ';' !in s && '\n' !in s
    ensures Pieces(s) == [s]
  {
    if s != [] {
      assert s[0] in s;
      NotSplit(s[1..]);
      assert [s[0]] + s[1..] == s && [s[1..]][1..] == [];
    }
  }

  // ---- a fresh installation -------------------------------------------------------------------

  lemma DefaultReach()
    ensures var d := DefaultConfig();
            Get(d, Named("listenAddr")) == Some(Str("127.0.0.1")) && Get(d, Named("allowLan")) == Some(Flag(false))
            && Get(d, Named("skipCertVerify")) == Some(Flag(false)) && Get(d, TunHijack) == Some(Flag(false))
  {
  }

  /** Without a settings file the service listens on the loopback address only, verifies
      certificates, leaves the system proxy and the routes alone, and restarts a core that
      crashed at most five times. */
  lemma FreshInstallation()
    ensures var c := Fresh(Missing);
            && Get(c, Named("listenAddr")) == Some(Str("127.0.0.1")) && Get(c, Named("allowLan")) == Some(Flag(false))
            && Get(c, Named("skipCertVerify")) == Some(Flag(false)) && Get(c, TunMode) == Some(Str("off"))
            && Get(c, TunHijack) == Some(Flag(false)) && Get(c, SystemProxyMode) == Some(Str("forced_clear"))
            && Get(c, LocalProxyMode) == Some(Str("follow-routing"))
            && Get(c, Named("coreAutoRestart")) == Some(Flag(true))
            && Get(c, Named("coreAutoRestartMaxRetries")) == Some(Whole(5))
            && Get(c, Named("coreAutoRestartBackoffMs")) == Some(Whole(500))
  {
    DefaultReach();
    DefaultTunMode();
    DefaultModeKeys();
    DefaultRestarts();
  }

  lemma DefaultRestarts()
    ensures var d := DefaultConfig();
            Get(d, Named("coreAutoRestart")) == Some(Flag(true))
            && Get(d, Named("coreAutoRestartMaxRetries")) == Some(Whole(5))
            && Get(d, Named("coreAutoRestartBackoffMs")) == Some(Whole(500))
  {
  }

  /** A settings file decides every key that it has once it is in normal form; the others
      have their defaults. */
  lemma FileDecides(c: Config, k: Key)
    ensures Get(Fresh(File(c)), k) == if k in Normal(c) then Get(Normal(c), k) else Get(DefaultConfig(), k)
  {
  }

  /** A file that could not be read is tried again: once it can be, a load answers what it
      holds. What was read is kept instead, whatever happens to the file behind the back of
      the service. */
  lemma OnlyFailuresAreRetried(d: Disk, later: Disk)
    ensures var s := Loaded(State(d, None)).(disk := later);
            Answer(s) == if d.Unreadable? then Fresh(later) else Fresh(d)
  {
  }
}
