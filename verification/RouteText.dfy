/** Default routes as `ip route` prints and reads them, and the lists of route lines
    that are kept for restoring. */
module RouteText {
  import opened Options
  import opened Text

  /** A default route: the words before the metric, the metric, the words after it. The
      metric 0 is not printed. */
  datatype Route = Route(before: seq<string>, metric: nat, after: seq<string>)

  const MAX_METRIC: nat := 0xffff_ffff

  ghost predicate WellFormed(r: Route) {
    && r.before != [] && r.before[0] == "default" && "metric" !in r.before
    && (forall w :: w in r.before || w in r.after ==> IsToken(w))
    && r.metric <= MAX_METRIC && (r.metric == 0 ==> r.after == [])
  }

  function Words(r: Route): seq<string> {
    if r.metric == 0 then r.before else r.before + (["metric", Itoa(r.metric)] + r.after)
  }

  /** A route as one line of `ip route show default`. */
  function Line(r: Route): string { Join(Words(r), ' ') }

  /** The default route that `ip route replace` makes of its arguments; None for another
      destination or arguments that are refused. */
  function FromWords(ws: seq<string>): Option<Route> {
    if ws == [] || ws[0] != "default" then None
    else
      var n := IndexOf(ws, "metric");
      if n == |ws| then Some(Route(ws, 0, []))
      else if n + 1 == |ws| then None
      else
        var m := Atoi(ws[n + 1]);
        if m.None? || !(0 <= m.value <= MAX_METRIC) then None
        else if m.value == 0 then Some(Route(ws[..n] + ws[n + 2..], 0, []))
        else Some(Route(ws[..n], m.value, ws[n + 2..]))
  }

  lemma ItoaIsToken(n: nat)
    ensures IsToken(Itoa(n))
  {
    ItoaDigits(n);
  }

  lemma WordsAreTokens(r: Route)
    requires WellFormed(r)
    ensures Words(r) != [] && Words(r)[0] == "default" && forall w :: w in Words(r) ==> IsToken(w)
  {
    ItoaIsToken(r.metric);
    assert IsToken("metric");
  }

  lemma IndexOfAt(a: seq<string>, w: string, b: seq<string>)
    requires w !in a
    ensures IndexOf(a + [w] + b, w) == |a| && IndexOf(a, w) == |a|
  {
    var ws := a + [w] + b;
    assert ws[|a|] == w;
    assert forall i :: 0 <= i < |a| ==> ws[i] == a[i];
  }

  lemma FromWordsOf(r: Route)
    requires WellFormed(r)
    ensures FromWords(Words(r)) == Some(r)
  {
    var ws := Words(r);
    IndexOfAt(r.before, "metric", [Itoa(r.metric)] + r.after);
    if r.metric > 0 {
      MetricBetween(r.before, Itoa(r.metric), r.after, ws);
      AtoiItoa(r.metric);
    }
  }

  lemma MetricBetween(before: seq<string>, metric: string, after: seq<string>, ws: seq<string>)
    requires ws == before + ["metric"] + ([metric] + after)
    ensures var n := |before|; ws[n + 1] == metric && ws[..n] == before && ws[n + 2..] == after
  {
  }

  lemma {:induction false} JoinEnds(tokens: seq<string>)
    requires tokens != [] && forall t :: t in tokens ==> IsToken(t)
    ensures var s := Join(tokens, ' '); s != [] && !IsSpace(s[0]) && !IsSpace(s[|s| - 1])
  {
    assert tokens[0] in tokens;
    if |tokens| > 1 {
      JoinEnds(tokens[1..]);
      var (s, rest) := (Join(tokens, ' '), Join(tokens[1..], ' '));
      assert s[|s| - 1] == rest[|rest| - 1] && s[0] == tokens[0][0];
    }
  }

  /** A printed route reads back as itself. */
  lemma LineReadsBack(r: Route)
    requires WellFormed(r)
    ensures FromWords(Fields(Line(r))) == Some(r) && Fields(Line(r)) == Words(r)
    ensures TrimSpace(Line(r)) == Line(r) != ""
  {
    WordsAreTokens(r);
    FieldsJoin(Words(r));
    FromWordsOf(r);
    JoinEnds(Words(r));
  }

  lemma LineIsInjective(a: Route, b: Route)
    requires WellFormed(a) && WellFormed(b) && Line(a) == Line(b)
    ensures a == b
  {
    LineReadsBack(a);
    LineReadsBack(b);
  }

  // ---- lines that are kept --------------------------------------------------------------

  predicate DeviceIn(ws: seq<string>, device: string) {
    exists i :: 0 <= i < |ws| - 1 && ws[i] == "dev" && ws[i + 1] == device
  }

  /** routeUsesDevice */
  predicate UsesDevice(line: string, device: string) {
    var d := TrimSpace(device);
    var ws := Fields(TrimSpace(line));
    d != "" && ws != [] && ws[0] == "default" && DeviceIn(ws, d)
  }

  /** The line as kept, or None if it is dropped. */
  function KeepLine(line: string, tun: string): Option<string> {
    var text := TrimSpace(line);
    if text == "" || UsesDevice(text, tun) then None else Some(text)
  }

  function Keep(tun: string): string -> Option<string> { line => KeepLine(line, tun) }

  /** The kept lines, each once, in order of first appearance. */
  function Sanitized(keep: string -> Option<string>, lines: seq<string>): seq<string> {
    if lines == [] then []
    else
      var before := Sanitized(keep, lines[..|lines| - 1]);
      var kept := keep(lines[|lines| - 1]);
      if kept.None? || kept.value in before then before else before + [kept.value]
  }

  /** sanitizeTunRestoreRoutes */
  method Sanitize(lines: seq<string>, tun: string) returns (clean: seq<string>)
    ensures clean == Sanitized(Keep(tun), lines)
  {
    clean := SanitizeWith(Keep(tun), lines);
  }

  method SanitizeWith(keep: string -> Option<string>, lines: seq<string>) returns (clean: seq<string>)
    ensures clean == Sanitized(keep, lines)
  {
    clean := [];
    var seen: set<string> := {};
    for i := 0 to |lines|
      invariant clean == Sanitized(keep, lines[..i]) && seen == set t | t in clean
    {
      assert lines[..i + 1][..i] == lines[..i];
      var kept := keep(lines[i]);
      if kept.Some? && kept.value !in seen {
        seen := seen + {kept.value};
        clean := clean + [kept.value];
      }
    }
    assert lines[..|lines|] == lines;
  }

  /** The lines that a list gives are exactly those that some line is kept as. */
  lemma {:induction false} SanitizedIff(keep: string -> Option<string>, lines: seq<string>, text: string)
    ensures text in Sanitized(keep, lines) <==> exists i :: 0 <= i < |lines| && keep(lines[i]) == Some(text)
  {
    if lines != [] {
      var n := |lines| - 1;
      SanitizedIff(keep, lines[..n], text);
      if text in Sanitized(keep, lines[..n]) {
        var i :| 0 <= i < n && keep(lines[..n][i]) == Some(text);
        assert keep(lines[i]) == Some(text);
      }
      forall i | 0 <= i < n && keep(lines[i]) == Some(text)
        ensures text in Sanitized(keep, lines[..n])
      {
        assert keep(lines[..n][i]) == Some(text);
      }
    }
  }

  /** What is kept is kept as itself, so it never uses the device. */
  lemma KeptNeverUses(line: string, tun: string)
    ensures var k := Keep(tun)(line); k.Some? ==> !UsesDevice(k.value, tun) && k.value != ""
  {
  }

  lemma SanitizedNeverUses(lines: seq<string>, tun: string)
    ensures forall text :: text in Sanitized(Keep(tun), lines) ==> !UsesDevice(text, tun)
  {
    forall text | text in Sanitized(Keep(tun), lines)
      ensures !UsesDevice(text, tun)
    {
      SanitizedIff(Keep(tun), lines, text);
      var i :| 0 <= i < |lines| && Keep(tun)(lines[i]) == Some(text);
      KeptNeverUses(lines[i], tun);
    }
  }

  predicate Uses(r: Route, tun: string) { DeviceIn(Words(r), tun) }

  /** A printed route is dropped exactly if it uses the device. */
  lemma KeepsLineIff(r: Route, tun: string)
    requires WellFormed(r) && IsToken(tun)
    ensures Keep(tun)(Line(r)) == if Uses(r, tun) then None else Some(Line(r))
  {
    LineReadsBack(r);
    WordsAreTokens(r);
  }
}
