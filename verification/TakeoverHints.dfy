/** What a takeover of the default route leaves behind for later, and what is made of it:
    the device's own route, the hints, and what a restore forgets. */
module TakeoverHints {
  import opened Options
  import opened Text
  import opened RouteText
  import opened Takeover

  /** After a takeover the first default route is the device's, without a metric, and
      behind it are the routes that had one. */
  lemma DeviceComesFirst(s: State, tun: string)
    requires Foreign(s.table, tun) && s.table != []
    ensures var (s', ok) := SetUp(s, tun);
            && ok && s'.table != [] && s'.table[0] == Route(["default", "dev", tun], 0, [])
            && forall r :: r in s'.table[1..] <==> r in s.table && r.metric > 0
  {
    SetUpKeepsAll(s, tun);
    TakenTable(s.table, tun);
    AboveIff(s.table);
  }

  /** A restore forgets everything that was kept: memory, file and hints. */
  lemma RestoreForgets(s: State, tun: string)
    ensures var s' := Cleared(s, tun); s'.memory == [] && s'.saved == [] && s'.dev == "" && s'.via == ""
  {
  }

  /** A takeover is refused exactly if there is no default route, or none to go back to;
      then nothing changes. */
  lemma RefusedIff(s: State, tun: string)
    ensures var (s', ok) := SetUp(s, tun);
            && (!ok ==> s' == s)
            && (!ok <==> s.table == []
                         || (Sanitized(Keep(tun), Lines(s.table)) == [] && Sanitized(Keep(tun), s.saved) == []
                             && Sanitized(Keep(tun), Fallback(s, tun)) == []))
  {
  }

  // ---- the hints ------------------------------------------------------------------------

  lemma {:induction false} WordNotThere(ws: seq<string>, key: string)
    requires key !in ws
    ensures WordAfter(ws, key) == ""
  {
    if |ws| >= 2 {
      assert ws[|ws| - 2] in ws;
      WordNotThere(ws[..|ws| - 1], key);
    }
  }

  /** The word after the only occurrence of a key. */
  lemma {:induction false} WordBehind(front: seq<string>, key: string, word: string, rest: seq<string>)
    requires key !in rest && word != key
    ensures WordAfter(front + [key, word] + rest, key) == word
    decreases |rest|
  {
    var ws := front + [key, word] + rest;
    if rest == [] {
      assert ws[|ws| - 2] == key && ws[|ws| - 1] == word;
    } else {
      assert ws[|ws| - 2] != key by {
        if |rest| >= 2 { assert ws[|ws| - 2] == rest[|rest| - 2]; } else { assert ws[|ws| - 2] == word; }
      }
      assert ws[..|ws| - 1] == front + [key, word] + rest[..|rest| - 1];
      WordBehind(front, key, word, rest[..|rest| - 1]);
    }
  }

  /** A route through a gateway, as it is usually shown: "default via G dev D ...". */
  predicate ThroughGateway(r: Route, via: string, dev: string, rest: seq<string>) {
    && Words(r) == ["default", "via", via, "dev", dev] + rest
    && "via" !in rest && "dev" !in rest && via != "via" && via != "dev" && dev != "dev" && dev != "via"
  }

  lemma GatewayWords(ws: seq<string>, via: string, dev: string, rest: seq<string>)
    requires ws == ["default", "via", via, "dev", dev] + rest
    requires "via" !in rest && "dev" !in rest && via != "via" && via != "dev" && dev != "dev" && dev != "via"
    ensures WordAfter(ws, "dev") == dev && WordAfter(ws, "via") == via
  {
    assert ws == ["default", "via", via] + ["dev", dev] + rest;
    WordBehind(["default", "via", via], "dev", dev, rest);
    assert ws == ["default"] + ["via", via] + (["dev", dev] + rest);
    WordBehind(["default"], "via", via, ["dev", dev] + rest);
  }

  lemma HintOfFirst(r: Route, lines: seq<string>, via: string, dev: string, rest: seq<string>, tun: string)
    requires WellFormed(r) && ThroughGateway(r, via, dev, rest) && dev != "" && dev != tun
    requires lines != [] && lines[0] == Line(r)
    ensures Hint(lines, tun) == (dev, via)
  {
    LineReadsBack(r);
    GatewayWords(Words(r), via, dev, rest);
  }

  lemma PersistedHint(s: State, lines: seq<string>, tun: string)
    requires Sanitized(Keep(tun), lines) == lines != []
    ensures (Persisted(s, lines, tun).dev, Persisted(s, lines, tun).via) == Hint(lines, tun)
  {
  }

  lemma SetUpHint(s: State, tun: string)
    requires Foreign(s.table, tun) && s.table != []
    ensures (SetUp(s, tun).0.dev, SetUp(s, tun).0.via) == Hint(Lines(s.table), tun)
  {
    LinesFixed(s.table, tun);
    PersistedHint(s.(table := Replace(s.table, TunRoute(tun)), memory := Lines(s.table)), Lines(s.table), tun);
  }

  /** A takeover notes the device and the gateway of the first default route. */
  lemma TakeoverNotesHint(s: State, tun: string, via: string, dev: string, rest: seq<string>)
    requires Foreign(s.table, tun) && s.table != [] && ThroughGateway(s.table[0], via, dev, rest)
    ensures SetUp(s, tun).0.dev == dev && SetUp(s, tun).0.via == via
  {
    var r := s.table[0];
    assert r in s.table && WellFormed(r);
    WordsAreTokens(r);
    assert Words(r)[4] == dev && dev in Words(r);
    assert dev != tun by { assert Words(r)[3] == "dev" && !Uses(r, tun); }
    HintOfFirst(r, Lines(s.table), via, dev, rest, tun);
    SetUpHint(s, tun);
  }

  lemma JoinCons(word: string, rest: seq<string>)
    requires rest != []
    ensures Join([word] + rest, ' ') == word + [' '] + Join(rest, ' ')
  {
    assert ([word] + rest)[1..] == rest;
  }

  lemma GatewayText(via: string, dev: string)
    ensures Join(["default", "via", via, "dev", dev], ' ') == "default via " + via + " dev " + dev
  {
    var (a, b, c) := (["dev", dev], ["via", via, "dev", dev], [via, "dev", dev]);
    assert Join([dev], ' ') == dev;
    assert a == ["dev"] + [dev] && c == [via] + a && b == ["via"] + c;
    JoinCons("dev", [dev]);
    JoinCons(via, a);
    JoinCons("via", c);
    JoinCons("default", b);
    assert ["default", "via", via, "dev", dev] == ["default"] + b;
    GatewayPieces(via, dev);
  }

  lemma GatewayPieces(via: string, dev: string)
    ensures "default" + [' '] + ("via" + [' '] + (via + [' '] + ("dev" + [' '] + dev)))
            == "default via " + via + " dev " + dev
  {
    assert "default" + [' '] + "via" + [' '] == "default via ";
    assert [' '] + "dev" + [' '] == " dev ";
  }

  lemma GatewayRoute(via: string, dev: string)
    requires IsToken(via) && IsToken(dev) && via != "metric" && dev != "metric"
    ensures var r := Route(["default", "via", via, "dev", dev], 0, []);
            WellFormed(r) && Line(r) == "default via " + via + " dev " + dev
  {
    GatewayText(via, dev);
    assert IsToken("default") && IsToken("via") && IsToken("dev");
  }

  lemma GatewayIsForeign(via: string, dev: string, tun: string)
    requires dev != tun && via != "dev"
    ensures !Uses(Route(["default", "via", via, "dev", dev], 0, []), tun)
  {
    var ws := ["default", "via", via, "dev", dev];
    assert Words(Route(ws, 0, [])) == ws;
    forall i | 0 <= i < |ws| - 1 && ws[i] == "dev" ensures ws[i + 1] != tun {
      assert i == 3;
    }
  }

  /** With nothing kept but the hints, a restore sets the default route through that gateway
      and device. */
  lemma HintsRestore(s: State, tun: string)
    requires Sorted(s.table) && s.memory == s.saved == [] && IsToken(s.dev) && IsToken(s.via) && IsToken(tun)
    requires s.dev != tun && s.dev != "metric" && s.via != "metric" && s.via != "dev"
    ensures var r := Route(["default", "via", s.via, "dev", s.dev], 0, []);
            Cleared(s, tun).table == Without(Replace(s.table, r), tun) && r in Cleared(s, tun).table
  {
    var r := Route(["default", "via", s.via, "dev", s.dev], 0, []);
    GatewayRoute(s.via, s.dev);
    GatewayIsForeign(s.via, s.dev, tun);
    KeepsLineIff(r, tun);
    FallbackIs(s, tun, Line(r));
    OneLineRestored(s.table, r);
    ReplaceSorted(s.table, r);
    ReplaceIff(s.table, r);
    WithoutIff(Replace(s.table, r), tun);
  }

  lemma FallbackIs(s: State, tun: string, line: string)
    requires s.memory == s.saved == [] && IsToken(s.dev) && IsToken(s.via) && s.dev != tun
    requires line == "default via " + s.via + " dev " + s.dev && Keep(tun)(line) == Some(line)
    ensures Resolve(s, tun, s.memory) == [line]
  {
    TrimNothing(s.dev);
    TrimNothing(s.via);
    assert Fallback(s, tun) == [line];
    assert [line][..0] == [];
    assert Sanitized(Keep(tun), [line]) == [line];
  }

  lemma OneLineRestored(t: seq<Route>, r: Route)
    requires WellFormed(r)
    ensures Restored(t, [Line(r)]) == Replace(t, r)
  {
    assert Lines([r]) == [Line(r)] && [r][1..] == [];
    RestoredLines(t, [r]);
  }
}
