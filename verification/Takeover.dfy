/** Taking over the default route for the TUN device, and giving it back. */
module Takeover {
  import opened Options
  import opened Text
  import opened RouteText

  // ---- the kernel's default routes ---------------------------------------------------

  /** The default routes in the order they are shown: one per metric, ascending. */
  ghost predicate Sorted(t: seq<Route>) { forall i, j :: 0 <= i < j < |t| ==> t[i].metric < t[j].metric }

  ghost predicate IsTable(t: seq<Route>) { Sorted(t) && forall r :: r in t ==> WellFormed(r) }

  /** `ip route replace`: the route takes the place of the one with its metric. */
  function Replace(t: seq<Route>, r: Route): seq<Route> {
    if t == [] || r.metric < t[0].metric then [r] + t
    else if r.metric == t[0].metric then [r] + t[1..]
    else [t[0]] + Replace(t[1..], r)
  }

  function Dropped(drop: Route -> bool, t: seq<Route>): seq<Route> {
    if t == [] then [] else (if drop(t[0]) then [] else [t[0]]) + Dropped(drop, t[1..])
  }

  /** Every route that does not use the device: what is left when it is deleted. */
  function Without(t: seq<Route>, tun: string): seq<Route> { Dropped(r => Uses(r, tun), t) }

  function ReplaceAll(t: seq<Route>, rs: seq<Route>): seq<Route>
    decreases rs
  {
    if rs == [] then t else ReplaceAll(Replace(t, rs[0]), rs[1..])
  }

  function Lines(t: seq<Route>): seq<string> { seq(|t|, i requires 0 <= i < |t| => Line(t[i])) }

  lemma ConsIn(head: Route, tail: seq<Route>)
    ensures forall x :: x in [head] + tail <==> x == head || x in tail
  {
  }

  lemma {:induction false} ReplaceIff(t: seq<Route>, r: Route)
    requires Sorted(t)
    ensures forall x :: x in Replace(t, r) <==> x == r || (x in t && x.metric != r.metric)
  {
    if t != [] {
      assert t == [t[0]] + t[1..];
      ConsIn(t[0], t[1..]);
      if r.metric > t[0].metric {
        ReplaceIff(t[1..], r);
        ConsIn(t[0], Replace(t[1..], r));
      } else {
        ConsIn(r, t);
        ConsIn(r, t[1..]);
      }
    }
  }

  lemma SortedCons(head: Route, tail: seq<Route>)
    requires Sorted(tail) && forall x :: x in tail ==> x.metric > head.metric
    ensures Sorted([head] + tail)
  {
  }

  lemma {:induction false} ReplaceSorted(t: seq<Route>, r: Route)
    requires Sorted(t)
    ensures Sorted(Replace(t, r))
  {
    if t != [] {
      if r.metric > t[0].metric {
        ReplaceSorted(t[1..], r);
        ReplaceIff(t[1..], r);
        SortedCons(t[0], Replace(t[1..], r));
      } else {
        SortedCons(r, if r.metric < t[0].metric then t else t[1..]);
      }
    }
  }

  ghost predicate DistinctMetrics(rs: seq<Route>) { forall i, j :: 0 <= i < j < |rs| ==> rs[i].metric != rs[j].metric }

  lemma {:induction false} ReplaceAllIff(t: seq<Route>, rs: seq<Route>)
    requires Sorted(t) && DistinctMetrics(rs)
    ensures Sorted(ReplaceAll(t, rs))
    ensures forall x :: x in ReplaceAll(t, rs) <==> x in rs || (x in t && forall r :: r in rs ==> r.metric != x.metric)
    decreases rs
  {
    if rs != [] {
      ReplaceIff(t, rs[0]);
      ReplaceSorted(t, rs[0]);
      ReplaceAllIff(Replace(t, rs[0]), rs[1..]);
      assert rs == [rs[0]] + rs[1..];
    }
  }

  lemma {:induction false} DroppedIff(drop: Route -> bool, t: seq<Route>)
    requires Sorted(t)
    ensures Sorted(Dropped(drop, t))
    ensures forall x :: x in Dropped(drop, t) <==> x in t && !drop(x)
  {
    if t != [] {
      DroppedIff(drop, t[1..]);
      assert t == [t[0]] + t[1..];
      ConsIn(t[0], t[1..]);
      ConsIn(t[0], Dropped(drop, t[1..]));
      SortedCons(t[0], Dropped(drop, t[1..]));
    }
  }

  lemma WithoutIff(t: seq<Route>, tun: string)
    requires Sorted(t)
    ensures Sorted(Without(t, tun))
    ensures forall x :: x in Without(t, tun) <==> x in t && !Uses(x, tun)
  {
    DroppedIff(r => Uses(r, tun), t);
  }

  lemma HeadIn(t: seq<Route>)
    requires t != []
    ensures t[0] in t
  {
  }

  /** A table is determined by the routes in it. */
  lemma {:induction false} SameRoutesSameTable(a: seq<Route>, b: seq<Route>)
    requires Sorted(a) && Sorted(b) && forall x :: x in a <==> x in b
    ensures a == b
  {
    if a == [] {
      if b != [] { HeadIn(b); }
    } else {
      HeadIn(a);
      HeadIn(b);
      assert a[0] == b[0];
      assert a == [a[0]] + a[1..] && b == [b[0]] + b[1..];
      forall x ensures x in a[1..] <==> x in b[1..] {
        assert x in a[1..] <==> x in a && x != a[0];
        assert x in b[1..] <==> x in b && x != b[0];
      }
      SameRoutesSameTable(a[1..], b[1..]);
    }
  }

  // ---- what is kept for restoring -----------------------------------------------------------

  /** The routing state: the default routes, the restore routes in memory, and the
      restore routes, device hint and gateway hint in the configuration file. */
  datatype State = State(table: seq<Route>, memory: seq<string>, saved: seq<string>, dev: string, via: string)

  function TunRoute(tun: string): Route { Route(["default", "dev", tun], 0, []) }

  /** buildTunRestoreFallbackRoutes */
  function Fallback(s: State, tun: string): seq<string> {
    var (dev, via) := (TrimSpace(s.dev), TrimSpace(s.via));
    if dev == "" || dev == tun then []
    else if via != "" then ["default via " + via + " dev " + dev]
    else ["default dev " + dev]
  }

  /** resolveTunRestoreRoutes: the first of three sources that gives any route. */
  function Resolve(s: State, tun: string, current: seq<string>): seq<string> {
    var keep := Keep(tun);
    if Sanitized(keep, current) != [] then Sanitized(keep, current)
    else if Sanitized(keep, s.saved) != [] then Sanitized(keep, s.saved)
    else Sanitized(keep, Fallback(s, tun))
  }

  /** The word after the last occurrence of a key, or the empty string. */
  function WordAfter(ws: seq<string>, key: string): string {
    if |ws| < 2 then ""
    else if ws[|ws| - 2] == key then ws[|ws| - 1]
    else WordAfter(ws[..|ws| - 1], key)
  }

  /** parseDefaultRouteHint */
  function Hint(lines: seq<string>, tun: string): (string, string) {
    if lines == [] then ("", "")
    else
      var ws := Fields(TrimSpace(lines[0]));
      if ws == [] || ws[0] != "default" || WordAfter(ws, "dev") == "" || WordAfter(ws, "dev") == tun then
        Hint(lines[1..], tun)
      else (WordAfter(ws, "dev"), WordAfter(ws, "via"))
  }

  /** persistTunRestoreRoutes */
  function Persisted(s: State, lines: seq<string>, tun: string): State {
    var clean := Sanitized(Keep(tun), lines);
    if clean == [] then if lines == [] then s.(saved := [], dev := "", via := "") else s.(saved := [])
    else
      var (dev, via) := Hint(clean, tun);
      s.(saved := clean, dev := dev, via := via)
  }

  function RouteRead(): string -> Option<Route> { line => FromWords(Fields(line)) }

  /** The restore commands, one for each line; a line that is no default route leaves
      the default routes alone. */
  function RestoredBy(read: string -> Option<Route>, t: seq<Route>, lines: seq<string>): seq<Route>
    decreases lines
  {
    if lines == [] then t
    else
      var r := read(lines[0]);
      RestoredBy(read, if r.Some? then Replace(t, r.value) else t, lines[1..])
  }

  lemma RestoredStep(read: string -> Option<Route>, t: seq<Route>, lines: seq<string>, i: nat)
    requires i < |lines|
    ensures var r := read(lines[i]);
            RestoredBy(read, t, lines[i..])
            == RestoredBy(read, if r.Some? then Replace(t, r.value) else t, lines[i + 1..])
  {
    assert lines[i..][0] == lines[i] && lines[i..][1..] == lines[i + 1..];
  }

  function Restored(t: seq<Route>, lines: seq<string>): seq<Route> { RestoredBy(RouteRead(), t, lines) }

  /** setupTunRouting, with the interface in place and commands that succeed. */
  function SetUp(s: State, tun: string): (State, bool) {
    var restore := Resolve(s, tun, Lines(s.table));
    if s.table == [] || restore == [] then (s, false)
    else (Persisted(s.(table := Replace(s.table, TunRoute(tun)), memory := restore), restore, tun), true)
  }

  /** clearTunRouting */
  function Cleared(s: State, tun: string): State {
    var routes := Resolve(s, tun, s.memory);
    Persisted(s.(table := Without(Restored(s.table, routes), tun), memory := []), [], tun)
  }

  /** What may happen while the routes are taken over: nothing; a restart of the process,
      which forgets what is in memory; or one with which the device and its route go too. */
  datatype Between = Nothing | Restart | DeviceLost

  function After(between: Between, s: State, tun: string): State {
    match between
    case Nothing => s
    case Restart => s.(memory := [])
    case DeviceLost => s.(memory := [], table := Without(s.table, tun))
  }

  // ---- the operations ---------------------------------------------------------------------

  class Routing {
    const tun: string
    var table: seq<Route>
    var memory: seq<string>
    var saved: seq<string>
    var dev: string
    var via: string

    ghost function View(): State
      reads this
    {
      State(table, memory, saved, dev, via)
    }

    constructor (tun: string, table: seq<Route>, saved: seq<string>, dev: string, via: string)
      ensures View() == State(table, [], saved, dev, via) && this.tun == tun
    {
      this.tun, this.table, this.saved, this.dev, this.via := tun, table, saved, dev, via;
      memory := [];
    }

    method ResolveRestoreRoutes(current: seq<string>) returns (routes: seq<string>)
      ensures routes == Resolve(View(), tun, current)
    {
      routes := SanitizeWith(Keep(tun), current);
      if routes != [] { return; }
      routes := SanitizeWith(Keep(tun), saved);
      if routes != [] { return; }
      routes := SanitizeWith(Keep(tun), Fallback(State(table, memory, saved, dev, via), tun));
    }

    method Persist(lines: seq<string>)
      modifies this`saved, this`dev, this`via
      ensures View() == Persisted(old(View()), lines, tun)
    {
      var clean := SanitizeWith(Keep(tun), lines);
      saved := clean;
      if clean == [] {
        if lines == [] { dev, via := "", ""; }
      } else {
        var hint := Hint(clean, tun);
        dev, via := hint.0, hint.1;
      }
    }

    method SetupTunRouting() returns (ok: bool)
      modifies this
      ensures (View(), ok) == SetUp(old(View()), tun)
    {
      if table == [] { return false; }
      var restoreRoutes := ResolveRestoreRoutes(Lines(table));
      if restoreRoutes == [] { return false; }
      table := Replace(table, TunRoute(tun));
      memory := restoreRoutes;
      Persist(memory);
      ok := true;
    }

    method ClearTunRouting()
      modifies this
      ensures View() == Cleared(old(View()), tun)
    {
      var routes := ResolveRestoreRoutes(memory);
      ghost var restored := Restored(table, routes);
      memory := [];
      var i := 0;
      while i < |routes|
        invariant 0 <= i <= |routes| && Restored(table, routes[i..]) == restored
        invariant memory == [] && saved == old(saved) && dev == old(dev) && via == old(via)
      {
        RestoredStep(RouteRead(), table, routes, i);
        var r := RouteRead()(routes[i]);
        if r.Some? { table := Replace(table, r.value); }
        i := i + 1;
      }
      table := Without(table, tun);
      Persist([]);
    }
  }

  // ---- what was taken is given back ----------------------------------------------------------

  ghost predicate NoneUses(t: seq<Route>, tun: string) { forall r :: r in t ==> !Uses(r, tun) }

  /** A table of other devices' routes. A device cannot be called metric, since that word
      starts the metric of a route. */
  ghost predicate Foreign(t: seq<Route>, tun: string) {
    IsTable(t) && NoneUses(t, tun) && IsToken(tun) && tun != "metric"
  }

  lemma TunRouteUses(tun: string)
    requires IsToken(tun) && tun != "metric"
    ensures WellFormed(TunRoute(tun)) && Uses(TunRoute(tun), tun)
  {
    var ws := TunRoute(tun).before;
    assert IsToken("default") && IsToken("dev");
    assert Words(TunRoute(tun)) == ws && ws[1] == "dev" && ws[2] == tun;
  }

  lemma SanitizedSnoc(keep: string -> Option<string>, lines: seq<string>, line: string)
    ensures var before := Sanitized(keep, lines);
            Sanitized(keep, lines + [line])
            == if keep(line).None? || keep(line).value in before then before else before + [keep(line).value]
  {
    assert (lines + [line])[..|lines|] == lines;
  }

  lemma LinesSnoc(t: seq<Route>, r: Route)
    ensures Lines(t + [r]) == Lines(t) + [Line(r)]
  {
  }

  /** The lines of the routes that do not use the device are kept, in order. */
  lemma {:induction false} LinesAreKept(t: seq<Route>, tun: string)
    requires IsTable(t) && IsToken(tun)
    ensures Sanitized(Keep(tun), Lines(t)) == Lines(Without(t, tun))
  {
    if t != [] {
      var (init, last) := (t[..|t| - 1], t[|t| - 1]);
      assert t == init + [last] && last in t;
      LinesAreKept(init, tun);
      LinesSnoc(init, last);
      KeepsLineIff(last, tun);
      WithoutSnoc(init, last, tun);
      WithoutIff(init, tun);
      LastLine(Keep(tun), Lines(init), Without(init, tun), last, Uses(last, tun));
    }
  }

  lemma LastLine(keep: string -> Option<string>, lines: seq<string>, kept: seq<Route>, last: Route, uses: bool)
    requires Sanitized(keep, lines) == Lines(kept) && keep(Line(last)) == if uses then None else Some(Line(last))
    requires WellFormed(last) && forall x :: x in kept ==> WellFormed(x) && x != last
    ensures Sanitized(keep, lines + [Line(last)]) == Lines(kept + if uses then [] else [last])
  {
    SanitizedSnoc(keep, lines, Line(last));
    NotYetListed(kept, last);
    LinesSnoc(kept, last);
    assert kept + [] == kept;
  }

  lemma NotYetListed(t: seq<Route>, r: Route)
    requires WellFormed(r) && forall x :: x in t ==> WellFormed(x) && x != r
    ensures Line(r) !in Lines(t)
  {
    forall i | 0 <= i < |t|
      ensures Line(t[i]) != Line(r)
    {
      assert t[i] in t;
      if Line(t[i]) == Line(r) { LineIsInjective(t[i], r); }
    }
  }

  lemma {:induction false} DroppedSnoc(drop: Route -> bool, t: seq<Route>, r: Route)
    ensures Dropped(drop, t + [r]) == Dropped(drop, t) + (if drop(r) then [] else [r])
  {
    if t == [] {
      assert t + [r] == [r];
    } else {
      assert (t + [r])[0] == t[0] && (t + [r])[1..] == t[1..] + [r];
      assert Dropped(drop, t + [r]) == (if drop(t[0]) then [] else [t[0]]) + Dropped(drop, t[1..] + [r]);
      DroppedSnoc(drop, t[1..], r);
    }
  }

  lemma WithoutSnoc(t: seq<Route>, r: Route, tun: string)
    ensures Without(t + [r], tun) == Without(t, tun) + (if Uses(r, tun) then [] else [r])
  {
    DroppedSnoc(x => Uses(x, tun), t, r);
  }

  lemma {:induction false} DroppedNothing(drop: Route -> bool, t: seq<Route>)
    requires forall r :: r in t ==> !drop(r)
    ensures Dropped(drop, t) == t
  {
    if t != [] {
      assert t == [t[0]] + t[1..];
      DroppedNothing(drop, t[1..]);
    }
  }

  lemma WithoutNothing(t: seq<Route>, tun: string)
    requires NoneUses(t, tun)
    ensures Without(t, tun) == t
  {
    DroppedNothing(r => Uses(r, tun), t);
  }

  lemma {:induction false} RestoredTexts(read: string -> Option<Route>, t: seq<Route>, rs: seq<Route>,
                                         lines: seq<string>)
    requires |lines| == |rs| && forall i :: 0 <= i < |rs| ==> read(lines[i]) == Some(rs[i])
    ensures RestoredBy(read, t, lines) == ReplaceAll(t, rs)
    decreases rs
  {
    if rs != [] { RestoredTexts(read, Replace(t, rs[0]), rs[1..], lines[1..]); }
  }

  lemma RestoredLines(t: seq<Route>, rs: seq<Route>)
    requires forall r :: r in rs ==> WellFormed(r)
    ensures Restored(t, Lines(rs)) == ReplaceAll(t, rs)
  {
    forall i | 0 <= i < |rs| ensures RouteRead()(Lines(rs)[i]) == Some(rs[i]) { LineReadsBack(rs[i]); }
    RestoredTexts(RouteRead(), t, rs, Lines(rs));
  }

  /** The routes before the device was added, or once it is lost, but for the one that the
      takeover displaced. */
  ghost predicate TakenOver(t: seq<Route>, tun: string, table: seq<Route>) {
    table == Replace(t, TunRoute(tun)) || table == Above(t)
  }

  lemma TakenOverIff(t: seq<Route>, tun: string, table: seq<Route>)
    requires Foreign(t, tun) && TakenOver(t, tun, table)
    ensures Sorted(table)
    ensures forall x :: x in table && !Uses(x, tun) <==> x in t && x.metric > 0
  {
    ReplaceSorted(t, TunRoute(tun));
    ReplaceIff(t, TunRoute(tun));
    TunRouteUses(tun);
    AboveIff(t);
  }

  /** Restoring some of the routes over the taken-over table, and deleting the device,
      leaves those routes and the untouched ones: all but the one that the takeover
      displaced. */
  lemma GivenBack(t: seq<Route>, kept: seq<Route>, tun: string, table: seq<Route>)
    requires Foreign(t, tun) && TakenOver(t, tun, table) && Sorted(kept) && forall r :: r in kept ==> r in t
    requires forall r :: r in t && r.metric > 0 ==> r in kept
    ensures Without(ReplaceAll(table, kept), tun) == kept
  {
    TakenOverIff(t, tun, table);
    ReplaceAllIff(table, kept);
    WithoutIff(ReplaceAll(table, kept), tun);
    SameRoutesSameTable(Without(ReplaceAll(table, kept), tun), kept);
  }

  lemma LinesEmptyIff(t: seq<Route>)
    ensures Lines(t) == [] <==> t == []
  {
  }

  lemma SetUpIs(s: State, tun: string, restore: seq<string>)
    requires s.table != [] && restore != [] && restore == Sanitized(Keep(tun), restore)
    requires Resolve(s, tun, Lines(s.table)) == restore
    ensures var (s', ok) := SetUp(s, tun);
            ok && s'.table == Replace(s.table, TunRoute(tun)) && s'.memory == s'.saved == restore
  {
  }

  lemma LinesFixed(t: seq<Route>, tun: string)
    requires Foreign(t, tun)
    ensures Sanitized(Keep(tun), Lines(t)) == Lines(t) && (Lines(t) == [] <==> t == [])
  {
    LinesAreKept(t, tun);
    WithoutNothing(t, tun);
    LinesEmptyIff(t);
  }

  /** A takeover of routes that do not use the device keeps them all, in memory and in
      the file. */
  lemma SetUpKeepsAll(s: State, tun: string)
    requires Foreign(s.table, tun) && s.table != []
    ensures var (s', ok) := SetUp(s, tun);
            && ok && s'.table == Replace(s.table, TunRoute(tun))
            && s'.memory == s'.saved == Lines(s.table)
  {
    LinesFixed(s.table, tun);
    SetUpIs(s, tun, Lines(s.table));
  }

  lemma ClearGivesBack(t: seq<Route>, kept: seq<Route>, s: State, tun: string)
    requires Foreign(t, tun) && TakenOver(t, tun, s.table)
    requires Sorted(kept) && kept != [] && (forall r :: r in kept ==> r in t)
    requires forall r :: r in t && r.metric > 0 ==> r in kept
    requires s.memory == Lines(kept) || (s.memory == [] && s.saved == Lines(kept))
    ensures Cleared(s, tun).table == kept
  {
    LinesFixed(kept, tun);
    RestoredLines(s.table, kept);
    GivenBack(t, kept, tun, s.table);
  }

  /** What the takeover and what came after it leave. */
  lemma AfterTakeover(s: State, tun: string, between: Between)
    requires Foreign(s.table, tun) && s.table != []
    ensures var (taken, ok) := SetUp(s, tun);
            var then' := After(between, taken, tun);
            && ok && then'.saved == Lines(s.table)
               && then'.memory == (if between == Nothing then Lines(s.table) else [])
            && then'.table == if between == DeviceLost then Above(s.table) else Replace(s.table, TunRoute(tun))
  {
    SetUpKeepsAll(s, tun);
    TakenTable(s.table, tun);
    TakenWithoutDevice(s.table, tun);
  }

  /** Taking over and giving back restores exactly the default routes that were there,
      even if the process is restarted in between, and even if the device is lost. */
  lemma TakeoverUndone(s: State, tun: string, between: Between)
    requires Foreign(s.table, tun) && s.table != []
    ensures var (taken, ok) := SetUp(s, tun);
            ok && Cleared(After(between, taken, tun), tun).table == s.table
  {
    AfterTakeover(s, tun, between);
    ClearGivesBack(s.table, s.table, After(between, SetUp(s, tun).0, tun), tun);
  }

  function Above(t: seq<Route>): seq<Route> { if t != [] && t[0].metric == 0 then t[1..] else t }

  /** What a takeover stores that finds routes taken over already. */
  function Shown(t: seq<Route>): seq<Route> { if Above(t) == [] then t else Above(t) }

  /** A second takeover without giving back: the displaced route of metric 0 is no longer
      shown, so if any other route is, it is forgotten; and if no route at all is left,
      the takeover is refused. */
  lemma SecondTakeover(s: State, tun: string, between: Between)
    requires Foreign(s.table, tun) && s.table != []
    ensures var then' := After(between, SetUp(s, tun).0, tun);
            var (again, ok) := SetUp(then', tun);
            && (ok <==> between != DeviceLost || Above(s.table) != [])
            && TakenOver(s.table, tun, again.table)
            && again.saved == Lines(Shown(s.table)) && (again.memory == Lines(Shown(s.table)) || again.memory == [])
  {
    AfterTakeover(s, tun, between);
    var then' := After(between, SetUp(s, tun).0, tun);
    if between != DeviceLost {
      TakenAgain(s.table, then', tun);
    } else if Above(s.table) != [] {
      TakenFromAbove(s.table, then', tun);
    }
  }

  lemma TakenAgain(t: seq<Route>, s: State, tun: string)
    requires Foreign(t, tun) && t != [] && s.table == Replace(t, TunRoute(tun)) && s.saved == Lines(t)
    ensures var (again, ok) := SetUp(s, tun);
            ok && again.table == s.table && again.memory == again.saved == Lines(Shown(t))
  {
    TakenTable(t, tun);
    TakenIsTable(t, tun);
    TakenWithoutDevice(t, tun);
    AboveIsForeign(t, tun);
    LinesAreKept(s.table, tun);
    LinesFixed(t, tun);
    LinesFixed(Above(t), tun);
    SetUpIs(s, tun, Lines(Shown(t)));
  }

  /** Without the device, its route is added again before the untouched ones. */
  lemma TakenFromAbove(t: seq<Route>, s: State, tun: string)
    requires Foreign(t, tun) && s.table == Above(t) != []
    ensures var (again, ok) := SetUp(s, tun);
            ok && again.table == Replace(t, TunRoute(tun)) && again.memory == again.saved == Lines(Above(t))
  {
    AboveIsForeign(t, tun);
    AboveIff(t);
    HeadIn(Above(t));
    assert Above(Above(t)) == Above(t);
    TakenTable(t, tun);
    TakenTable(Above(t), tun);
    SetUpKeepsAll(s, tun);
  }

  /** The table after a takeover: the device's route in front of the untouched ones. */
  lemma TakenTable(t: seq<Route>, tun: string)
    requires Foreign(t, tun) && t != []
    ensures Replace(t, TunRoute(tun)) == [TunRoute(tun)] + Above(t)
  {
    assert t == [t[0]] + t[1..];
  }

  lemma AboveIff(t: seq<Route>)
    requires Sorted(t)
    ensures Sorted(Above(t)) && forall r :: r in Above(t) <==> r in t && r.metric > 0
  {
    if t != [] {
      assert t == [t[0]] + t[1..];
      ConsIn(t[0], t[1..]);
    }
  }

  lemma AboveIsForeign(t: seq<Route>, tun: string)
    requires Foreign(t, tun)
    ensures Foreign(Above(t), tun)
  {
    AboveIff(t);
  }

  lemma TakenIsTable(t: seq<Route>, tun: string)
    requires Foreign(t, tun) && t != []
    ensures IsTable([TunRoute(tun)] + Above(t))
    ensures Replace([TunRoute(tun)] + Above(t), TunRoute(tun)) == [TunRoute(tun)] + Above(t)
  {
    TunRouteUses(tun);
    AboveIff(t);
    SortedCons(TunRoute(tun), Above(t));
    ConsIn(TunRoute(tun), Above(t));
    assert ([TunRoute(tun)] + Above(t))[1..] == Above(t);
  }

  lemma TakenWithoutDevice(t: seq<Route>, tun: string)
    requires Foreign(t, tun)
    ensures Without([TunRoute(tun)] + Above(t), tun) == Above(t)
  {
    TunRouteUses(tun);
    AboveIsForeign(t, tun);
    WithoutHead(TunRoute(tun), Above(t), tun);
    WithoutNothing(Above(t), tun);
  }

  lemma WithoutHead(r: Route, t: seq<Route>, tun: string)
    requires Uses(r, tun)
    ensures Without([r] + t, tun) == Without(t, tun)
  {
    assert ([r] + t)[1..] == t;
  }

  /** Two takeovers and one giving back restore the routes exactly if there was no
      metric-0 default beside another default: without a restart in between, with one,
      and with one that loses the device. */
  lemma TwiceTakenIff(s: State, tun: string, between: Between)
    requires Foreign(s.table, tun) && s.table != []
    ensures var again := SetUp(After(between, SetUp(s, tun).0, tun), tun).0;
            Cleared(again, tun).table == s.table <==> (s.table[0].metric > 0 || |s.table| == 1)
  {
    SecondTakeover(s, tun, between);
    AboveIff(s.table);
    ClearGivesBack(s.table, Shown(s.table), SetUp(After(between, SetUp(s, tun).0, tun), tun).0, tun);
  }

  /** What is kept for restoring, in memory or in the file, never uses the device. */
  ghost predicate KeepsClear(s: State, tun: string) {
    forall l :: l in s.memory || l in s.saved ==> !UsesDevice(l, tun)
  }

  lemma RestoreRoutesAreClear(s: State, tun: string, lines: seq<string>)
    ensures forall l :: l in Resolve(s, tun, lines) ==> !UsesDevice(l, tun)
    ensures forall l :: l in Persisted(s, lines, tun).saved ==> !UsesDevice(l, tun)
  {
    SanitizedNeverUses(lines, tun);
    SanitizedNeverUses(s.saved, tun);
    SanitizedNeverUses(Fallback(s, tun), tun);
  }

  /** Every operation keeps that, from any table; a takeover establishes it, and giving
      back leaves no route through the device. */
  lemma NeverRestoresTheDevice(s: State, tun: string)
    requires Sorted(s.table)
    ensures SetUp(s, tun).1 || KeepsClear(s, tun) ==> KeepsClear(SetUp(s, tun).0, tun)
    ensures KeepsClear(Cleared(s, tun), tun) && NoneUses(Cleared(s, tun).table, tun)
  {
    var restore := Resolve(s, tun, Lines(s.table));
    RestoreRoutesAreClear(s, tun, Lines(s.table));
    RestoreRoutesAreClear(s, tun, restore);
    RestoredSorted(s.table, Resolve(s, tun, s.memory));
    WithoutIff(Restored(s.table, Resolve(s, tun, s.memory)), tun);
  }

  lemma RestoredSorted(t: seq<Route>, lines: seq<string>)
    requires Sorted(t)
    ensures Sorted(Restored(t, lines))
  {
    RestoredBySorted(RouteRead(), t, lines);
  }

  lemma {:induction false} RestoredBySorted(read: string -> Option<Route>, t: seq<Route>, lines: seq<string>)
    requires Sorted(t)
    ensures Sorted(RestoredBy(read, t, lines))
    decreases lines
  {
    if lines != [] {
      var r := read(lines[0]);
      if r.Some? { ReplaceSorted(t, r.value); }
      RestoredBySorted(read, if r.Some? then Replace(t, r.value) else t, lines[1..]);
    }
  }
}
