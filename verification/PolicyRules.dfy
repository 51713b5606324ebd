/** Policy rules: how the kernel keeps and prints them, and how the service reads the
    printed lines back, token by token. The service's own rules are recognised by this. */
module PolicyRules {
  import opened Options
  import opened Text
  import opened Address

  const PRIORITY_MIN: nat := 10000
  const PRIORITY_MAX: nat := 10999
  const BYPASS_MARK: nat := 0x2d11
  const TABLE_TEXT: string := "20230"

  /** One rule of one family. `extra` holds the printed selectors of rules that
      other tools install (iif, ipproto, ...); the service's own rules have none. */
  datatype Rule = Rule(priority: nat, src: Option<string>, dst: Option<Prefix>, mark: Option<nat>,
                       extra: seq<string>, table: string)

  ghost predicate WellFormed(f: AddrFormat, r: Rule) {
    && (r.src.Some? ==> IsToken(r.src.value))
    && (r.dst.Some? ==> ValidPrefix(f, r.dst.value) && r.dst.value.len > 0)
    && (forall t :: t in r.extra ==> IsToken(t))
    && IsToken(r.table)
    && r.priority <= MAX_INT64
  }

  // ---- printing -------------------------------------------------------------

  function HexDigit(n: nat): char
    requires n < 16
  {
    if n < 10 then DigitChar(n) else 'a' + (n - 10) as char
  }

  function Hex(n: nat): (s: string)
    ensures s != [] && forall i :: 0 <= i < |s| ==> !IsSpace(s[i])
  {
    if n < 16 then [HexDigit(n)] else Hex(n / 16) + [HexDigit(n % 16)]
  }

  /** What follows the priority on the line of a rule. */
  function Selectors(f: AddrFormat, r: Rule): seq<string> {
    ["from", if r.src.Some? then r.src.value else "all"]
    + (if r.dst.Some? then ["to", KernelPrefixText(f, r.dst.value)] else [])
    + (if r.mark.Some? then ["fwmark", "0x" + Hex(r.mark.value)] else [])
    + r.extra
    + ["lookup", r.table]
  }

  function Label(r: Rule): string { Itoa(r.priority) + ":" }

  /** One line of `ip rule show`. */
  function RuleLine(f: AddrFormat, r: Rule): string {
    Label(r) + ['\t'] + Join(Selectors(f, r), ' ')
  }

  function RuleFields(f: AddrFormat, r: Rule): seq<string> { [Label(r)] + Selectors(f, r) }

  /** The whole output of `ip rule show`. */
  function ShowText(f: AddrFormat, rules: seq<Rule>): string {
    if rules == [] then [] else RuleLine(f, rules[0]) + ['\n'] + ShowText(f, rules[1..])
  }

  // ---- reading --------------------------------------------------------------

  predicate HasPair(fields: seq<string>, key: string, value: string) {
    exists i :: 0 <= i < |fields| - 1 && fields[i] == key && fields[i + 1] == value
  }

  /** parseTunPolicyRulePriority */
  function RulePriority(line: string): Option<nat> {
    var fields := Fields(TrimSpace(line));
    if |fields| < 2 || !HasSuffix(fields[0], ":") then None
    else
      var n := Atoi(fields[0][..|fields[0]| - 1]);
      if n.None? || n.value < PRIORITY_MIN || n.value > PRIORITY_MAX then None else Some(n.value)
  }

  /** tunPolicyRuleIsFromAll */
  predicate IsFromAll(fields: seq<string>) { HasPair(fields, "from", "all") }

  /** tunPolicyRuleLooksUpTable */
  predicate LooksUp(fields: seq<string>, table: string) { HasPair(fields, "lookup", table) }

  /** tunPolicyRuleDestination: the field after the first "to". */
  function Destination(fields: seq<string>): Option<string> {
    if |fields| < 2 then None
    else if fields[0] == "to" then Some(fields[1])
    else Destination(fields[1..])
  }

  predicate IsBypassMark(value: string) {
    var (dec, hex) := (Itoa(BYPASS_MARK), "0x" + Hex(BYPASS_MARK));
    value == dec || value == hex || HasPrefix(value, dec + "/") || HasPrefix(value, hex + "/")
  }

  /** tunPolicyRuleHasBypassMark */
  predicate HasBypassMark(fields: seq<string>) {
    exists i :: 0 <= i < |fields| - 1 && fields[i] == "fwmark" && IsBypassMark(fields[i + 1])
  }

  predicate OwnedFields(fields: seq<string>) {
    && IsFromAll(fields)
    && (LooksUp(fields, TABLE_TEXT)
        || (LooksUp(fields, "main") && (HasBypassMark(fields) || Destination(fields).Some?)))
  }

  /** isManagedTunPolicyRuleLine */
  predicate IsManagedLine(line: string) {
    RulePriority(line).Some? && OwnedFields(Fields(line))
  }

  /** The bypass prefix that parseInstalledTunPolicyBypassTargets takes from a line. */
  function LineTarget(f: AddrFormat, line: string): Option<string> {
    var fields := Fields(line);
    if RulePriority(line).None? || !IsFromAll(fields) || !LooksUp(fields, "main") then None
    else
      var target := Destination(fields);
      if target.None? then None else CanonicalPrefix(f, target.value)
  }

  predicate Managed(f: AddrFormat, r: Rule) { IsManagedLine(RuleLine(f, r)) }

  predicate InWindow(r: Rule) { PRIORITY_MIN <= r.priority <= PRIORITY_MAX }

  // ---- a printed line reads back as its fields --------------------------------

  lemma HexToken(n: nat)
    ensures IsToken("0x" + Hex(n))
  {
  }

  lemma WordsAreTokens()
    ensures IsToken("from") && IsToken("all") && IsToken("to") && IsToken("fwmark") && IsToken("lookup")
  {
  }

  lemma DestinationIsToken(f: AddrFormat, r: Rule)
    requires Faithful(f) && WellFormed(f, r)
    ensures r.dst.Some? ==> IsToken(KernelPrefixText(f, r.dst.value))
  {
    if r.dst.Some? { KernelPrefixRoundTrip(f, r.dst.value); }
  }

  lemma SelectorsAreTokens(f: AddrFormat, r: Rule)
    requires Faithful(f) && WellFormed(f, r)
    ensures forall t :: t in Selectors(f, r) ==> IsToken(t)
  {
    WordsAreTokens();
    DestinationIsToken(f, r);
    if r.mark.Some? { HexToken(r.mark.value); }
  }

  lemma LabelToken(r: Rule)
    ensures IsToken(Label(r)) && Label(r)[|Label(r)| - 1] == ':' && Label(r)[..|Label(r)| - 1] == Itoa(r.priority)
  {
    ItoaDigits(r.priority);
  }

  lemma {:induction false} JoinLast(tokens: seq<string>)
    requires tokens != [] && forall t :: t in tokens ==> IsToken(t)
    ensures Join(tokens, ' ') != [] && !IsSpace(Join(tokens, ' ')[|Join(tokens, ' ')| - 1])
  {
    if |tokens| == 1 {
      assert tokens[0] in tokens;
    } else {
      JoinLast(tokens[1..]);
      assert Join(tokens, ' ') == tokens[0] + [' '] + Join(tokens[1..], ' ');
    }
  }

  /** The fields of a printed rule are exactly the tokens that were printed. */
  lemma LineFields(f: AddrFormat, r: Rule)
    requires Faithful(f) && WellFormed(f, r)
    ensures Fields(RuleLine(f, r)) == RuleFields(f, r)
    ensures TrimSpace(RuleLine(f, r)) == RuleLine(f, r) != []
  {
    SelectorsAreTokens(f, r);
    LabelToken(r);
    FieldsJoin(Selectors(f, r));
    JoinLast(Selectors(f, r));
    TabbedFields(Label(r), Join(Selectors(f, r), ' '));
  }

  /** A token, a tab, and a text that does not end in white space. */
  lemma TabbedFields(token: string, body: string)
    requires IsToken(token) && body != [] && !IsSpace(body[|body| - 1])
    ensures var line := token + ['\t'] + body;
            Fields(line) == [token] + Fields(body) && TrimSpace(line) == line != []
  {
    var (rest, line) := (['\t'] + body, token + ['\t'] + body);
    TabbedText(token, body, rest, line);
    FieldsToken(token, rest);
    FieldsSkip(rest);
    TrimNothing(line);
  }

  lemma TabbedText(token: string, body: string, rest: string, line: string)
    requires token != [] && body != [] && rest == ['\t'] + body && line == token + ['\t'] + body
    ensures rest[0] == '\t' && rest[1..] == body && token + rest == line
    ensures line != [] && line[0] == token[0] && line[|line| - 1] == body[|body| - 1]
  {
  }

  lemma LinePriority(f: AddrFormat, r: Rule)
    requires Faithful(f) && WellFormed(f, r)
    ensures RulePriority(RuleLine(f, r)) == if InWindow(r) then Some(r.priority) else None
  {
    LineFields(f, r);
    LabelToken(r);
    AtoiItoa(r.priority);
    var fields := RuleFields(f, r);
    assert fields[0] == Label(r) && |fields| >= 2;
    assert HasSuffix(fields[0], ":");
  }

  predicate NewlineFree(s: string) { '\n' !in s }

  lemma {:induction false} JoinNewlineFree(tokens: seq<string>)
    requires forall t :: t in tokens ==> IsToken(t)
    ensures NewlineFree(Join(tokens, ' '))
  {
    if |tokens| > 1 {
      JoinNewlineFree(tokens[1..]);
      TokenNewlineFree(tokens[0]);
    } else if |tokens| == 1 {
      TokenNewlineFree(tokens[0]);
    }
  }

  lemma TokenNewlineFree(t: string)
    requires IsToken(t)
    ensures NewlineFree(t)
  {
    assert IsSpace('\n');
  }

  /** The output splits into one line per rule and an empty last line. */
  lemma {:induction false} ShowLines(f: AddrFormat, rules: seq<Rule>)
    requires Faithful(f) && forall r :: r in rules ==> WellFormed(f, r)
    ensures Split(ShowText(f, rules), '\n') == Lines(f, rules) + [""]
  {
    if rules == [] {
      SplitNone("", '\n');
    } else {
      LineNewlineFree(f, rules[0]);
      ShowLines(f, rules[1..]);
      SplitLine(RuleLine(f, rules[0]), ShowText(f, rules[1..]), Lines(f, rules[1..]));
    }
  }

  lemma SplitLine(line: string, rest: string, lines: seq<string>)
    requires '\n' !in line && Split(rest, '\n') == lines + [""]
    ensures Split(line + ['\n'] + rest, '\n') == [line] + lines + [""]
  {
    SplitFirst(line, rest, '\n');
  }

  lemma LineNewlineFree(f: AddrFormat, r: Rule)
    requires Faithful(f) && WellFormed(f, r)
    ensures '\n' !in RuleLine(f, r)
  {
    SelectorsAreTokens(f, r);
    JoinNewlineFree(Selectors(f, r));
    LabelToken(r);
    TokenNewlineFree(Label(r));
  }

  function Lines(f: AddrFormat, rules: seq<Rule>): (lines: seq<string>)
    ensures |lines| == |rules|
    ensures forall i :: 0 <= i < |rules| ==> lines[i] == RuleLine(f, rules[i])
  {
    if rules == [] then [] else [RuleLine(f, rules[0])] + Lines(f, rules[1..])
  }

  // ---- the rules the service installs -----------------------------------------

  function MarkRule(priority: nat): Rule { Rule(priority, None, None, Some(BYPASS_MARK), [], "main") }

  /** The kernel keeps no destination for a prefix of length zero. */
  function BypassRule(priority: nat, p: Prefix): Rule {
    Rule(priority, None, if p.len == 0 then None else Some(p), None, [], "main")
  }

  function CatchAllRule(priority: nat): Rule { Rule(priority, None, None, None, [], TABLE_TEXT) }

  /** What is decided about the printed line is decided about its fields. */
  lemma LineIsItsFields(f: AddrFormat, r: Rule)
    requires Faithful(f) && WellFormed(f, r)
    ensures Managed(f, r) <==> InWindow(r) && OwnedFields(RuleFields(f, r))
    ensures LineTarget(f, RuleLine(f, r)) ==
            var fields := RuleFields(f, r);
            if InWindow(r) && IsFromAll(fields) && LooksUp(fields, "main") && Destination(fields).Some?
            then CanonicalPrefix(f, Destination(fields).value) else None
  {
    LineFields(f, r);
    LinePriority(f, r);
  }

  /** A rule that is recognised and names no destination is no bypass. */
  lemma ReadsAsNoBypass(f: AddrFormat, r: Rule, fields: seq<string>)
    requires Faithful(f) && WellFormed(f, r) && InWindow(r) && fields == RuleFields(f, r)
    requires OwnedFields(fields) && Destination(fields) == None
    ensures Managed(f, r) && LineTarget(f, RuleLine(f, r)) == None
  {
    LineIsItsFields(f, r);
  }

  lemma TagIsNotTo(tag: string)
    requires tag != [] && tag[|tag| - 1] == ':'
    ensures tag != "to"
  {
    assert "to"[1] != ':';
  }

  lemma HexIsNotTo(mark: string)
    requires mark != [] && mark[0] == '0'
    ensures mark != "to"
  {
    assert "to"[0] != '0';
  }

  lemma MarkFields(tag: string, mark: string, fields: seq<string>)
    requires tag != "to" && mark != "to" && IsBypassMark(mark)
    requires fields == [tag, "from", "all", "fwmark", mark, "lookup", "main"]
    ensures OwnedFields(fields) && Destination(fields) == None
  {
    assert fields[1] == "from" && fields[2] == "all";
    assert fields[3] == "fwmark" && IsBypassMark(fields[4]);
    assert fields[5] == "lookup" && fields[6] == "main";
    MarkHasNoDestination(tag, mark);
  }

  lemma MarkHasNoDestination(tag: string, mark: string)
    requires tag != "to" && mark != "to"
    ensures Destination([tag, "from", "all", "fwmark", mark, "lookup", "main"]) == None
  {
    ToFree([tag, "from", "all", "fwmark", mark, "lookup", "main"]);
  }

  lemma MarkTokenIsRecognised()
    ensures IsBypassMark("0x" + Hex(BYPASS_MARK))
  {
  }

  lemma MarkRuleFields(f: AddrFormat, r: Rule, mark: string)
    requires r.src.None? && r.dst.None? && r.extra == [] && r.mark.Some? && mark == "0x" + Hex(r.mark.value)
    ensures RuleFields(f, r) == [Label(r), "from", "all", "fwmark", mark, "lookup", r.table]
    ensures mark != "to" && Label(r) != "to"
  {
    HexIsNotTo(mark);
    LabelToken(r);
    TagIsNotTo(Label(r));
  }

  lemma CatchAllRuleFields(f: AddrFormat, r: Rule)
    requires r.src.None? && r.dst.None? && r.extra == [] && r.mark.None?
    ensures RuleFields(f, r) == [Label(r), "from", "all", "lookup", r.table] && Label(r) != "to"
  {
    LabelToken(r);
    TagIsNotTo(Label(r));
  }

  lemma PlainRuleIsWellFormed(f: AddrFormat, r: Rule)
    requires r.src.None? && r.dst.None? && r.extra == [] && r.table in ["main", TABLE_TEXT] && InWindow(r)
    ensures WellFormed(f, r)
  {
    assert IsToken("main") && IsToken(TABLE_TEXT);
  }

  lemma MarkRuleIsManaged(f: AddrFormat, r: Rule)
    requires Faithful(f) && InWindow(r) && r == MarkRule(r.priority)
    ensures Managed(f, r) && LineTarget(f, RuleLine(f, r)) == None
  {
    var mark := "0x" + Hex(BYPASS_MARK);
    MarkTokenIsRecognised();
    MarkRuleFields(f, r, mark);
    MarkFields(Label(r), mark, RuleFields(f, r));
    PlainRuleIsWellFormed(f, r);
    ReadsAsNoBypass(f, r, RuleFields(f, r));
  }

  lemma CatchAllRuleIsManaged(f: AddrFormat, r: Rule)
    requires Faithful(f) && InWindow(r) && r == CatchAllRule(r.priority)
    ensures Managed(f, r) && LineTarget(f, RuleLine(f, r)) == None
  {
    CatchAllRuleFields(f, r);
    CatchAllFields(Label(r), RuleFields(f, r));
    PlainRuleIsWellFormed(f, r);
    ReadsAsNoBypass(f, r, RuleFields(f, r));
  }

  lemma CatchAllFields(tag: string, fields: seq<string>)
    requires tag != "to" && fields == [tag, "from", "all", "lookup", TABLE_TEXT]
    ensures OwnedFields(fields) && Destination(fields) == None
  {
    assert fields[1] == "from" && fields[2] == "all";
    assert fields[3] == "lookup" && fields[4] == TABLE_TEXT;
    ToFree(fields);
  }

  lemma {:induction false} ToFree(fields: seq<string>)
    requires forall i :: 0 <= i < |fields| - 1 ==> fields[i] != "to"
    ensures Destination(fields) == None
  {
    if |fields| >= 2 { ToFree(fields[1..]); }
  }

  /** A bypass rule is recognised and gives back its prefix; with length zero it
      is neither recognised as ours nor read as a bypass. */
  lemma BypassRuleReadsBack(f: AddrFormat, r: Rule, p: Prefix)
    requires Faithful(f) && ValidPrefix(f, p) && InWindow(r) && r == BypassRule(r.priority, p)
    ensures Managed(f, r) <==> p.len > 0
    ensures LineTarget(f, RuleLine(f, r)) == if p.len > 0 then Some(PrefixText(f, p)) else None
  {
    if p.len > 0 {
      HostRuleReadsBack(f, r, p);
    } else {
      BareRuleReadsBack(f, r);
    }
  }

  lemma BareRuleReadsBack(f: AddrFormat, r: Rule)
    requires Faithful(f) && InWindow(r) && r.src.None? && r.dst.None? && r.mark.None? && r.extra == []
             && r.table == "main"
    ensures !Managed(f, r) && LineTarget(f, RuleLine(f, r)) == None
  {
    CatchAllRuleFields(f, r);
    PlainRuleIsWellFormed(f, r);
    LineIsItsFields(f, r);
    LabelToken(r);
    BareMainFields(Label(r), RuleFields(f, r));
  }

  lemma HostRuleFields(f: AddrFormat, r: Rule, p: Prefix)
    requires Faithful(f) && ValidPrefix(f, p) && p.len > 0 && r == BypassRule(r.priority, p)
    ensures var fields := RuleFields(f, r);
            OwnedFields(fields) && IsFromAll(fields) && LooksUp(fields, "main")
            && Destination(fields) == Some(KernelPrefixText(f, p))
  {
    LabelToken(r);
    ToRuleFields(f, r);
    BypassFields(Label(r), KernelPrefixText(f, p), RuleFields(f, r));
  }

  lemma ToRuleFields(f: AddrFormat, r: Rule)
    requires r.src.None? && r.dst.Some? && r.extra == [] && r.mark.None?
    ensures RuleFields(f, r) == [Label(r), "from", "all", "to", KernelPrefixText(f, r.dst.value), "lookup", r.table]
  {
  }

  lemma HostRuleReadsBack(f: AddrFormat, r: Rule, p: Prefix)
    requires Faithful(f) && ValidPrefix(f, p) && p.len > 0 && InWindow(r) && r == BypassRule(r.priority, p)
    ensures Managed(f, r) && LineTarget(f, RuleLine(f, r)) == Some(PrefixText(f, p))
  {
    BypassRuleIsWellFormed(f, r, p);
    HostRuleFields(f, r, p);
    KernelTextIsCanonical(f, p);
    ReadByFields(f, r, RuleFields(f, r), KernelPrefixText(f, p));
  }

  lemma BypassRuleIsWellFormed(f: AddrFormat, r: Rule, p: Prefix)
    requires Faithful(f) && ValidPrefix(f, p) && InWindow(r) && r == BypassRule(r.priority, p)
    ensures WellFormed(f, r)
  {
    assert IsToken("main");
  }

  lemma KernelTextIsCanonical(f: AddrFormat, p: Prefix)
    requires Faithful(f) && ValidPrefix(f, p)
    ensures CanonicalPrefix(f, KernelPrefixText(f, p)) == Some(PrefixText(f, p))
  {
    KernelPrefixRoundTrip(f, p);
  }

  lemma ReadByFields(f: AddrFormat, r: Rule, fields: seq<string>, target: string)
    requires Faithful(f) && WellFormed(f, r) && InWindow(r) && fields == RuleFields(f, r)
    requires OwnedFields(fields) && IsFromAll(fields) && LooksUp(fields, "main") && Destination(fields) == Some(target)
    ensures Managed(f, r) && LineTarget(f, RuleLine(f, r)) == CanonicalPrefix(f, target)
  {
    LineIsItsFields(f, r);
  }

  lemma SkipField(field: string, rest: seq<string>)
    requires field != "to"
    ensures Destination([field] + rest) == Destination(rest)
  {
    assert ([field] + rest)[1..] == rest;
  }

  lemma BypassFields(tag: string, target: string, fields: seq<string>)
    requires tag != [] && tag[|tag| - 1] == ':' && fields == [tag, "from", "all", "to", target, "lookup", "main"]
    ensures OwnedFields(fields) && IsFromAll(fields) && LooksUp(fields, "main") && Destination(fields) == Some(target)
  {
    assert fields[1] == "from" && fields[2] == "all";
    assert fields[5] == "lookup" && fields[6] == "main";
    BypassDestination(tag, target);
  }

  lemma BypassDestination(tag: string, target: string)
    requires tag != [] && tag[|tag| - 1] == ':'
    ensures Destination([tag, "from", "all", "to", target, "lookup", "main"]) == Some(target)
  {
    var rest := ["to", target, "lookup", "main"];
    TagIsNotTo(tag);
    SkipField("all", rest);
    SkipField("from", ["all"] + rest);
    SkipField(tag, ["from"] + (["all"] + rest));
    assert [tag] + (["from"] + (["all"] + rest)) == [tag, "from", "all", "to", target, "lookup", "main"];
  }

  lemma BareMainFields(tag: string, fields: seq<string>)
    requires tag != [] && tag[|tag| - 1] == ':' && fields == [tag, "from", "all", "lookup", "main"]
    ensures !OwnedFields(fields) && Destination(fields) == None
  {
    TagIsNotTo(tag);
    ToFree(fields);
    assert "fwmark"[5] != ':' && "lookup"[5] != ':';
    assert "main"[0] != TABLE_TEXT[0];
  }

  /** Only a line that counts as ours can be read as a bypass. */
  lemma TargetImpliesManaged(f: AddrFormat, r: Rule)
    ensures LineTarget(f, RuleLine(f, r)).Some? ==> Managed(f, r)
  {
  }
}
