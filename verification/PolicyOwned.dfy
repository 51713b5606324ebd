/** Which rules of the kernel the service takes for its own, and which for bypasses:
    exactly, for every rule. */
module PolicyOwned {
  import opened Options
  import opened Numbers
  import opened Text
  import opened Address
  import opened PolicyRules
  import opened PolicyRebuild

  // ---- words and pairs ------------------------------------------------------------------

  /** A word that announces nothing. */
  predicate PlainWord(w: string) { w != "from" && w != "to" && w != "fwmark" && w != "lookup" }

  /** A rule whose values and foreign selectors are not taken for announcing words. */
  predicate PlainRule(f: AddrFormat, r: Rule) {
    && (r.src.Some? ==> PlainWord(r.src.value)) && (r.dst.Some? ==> PlainWord(KernelPrefixText(f, r.dst.value)))
    && (forall w :: w in r.extra ==> PlainWord(w)) && PlainWord(r.table)
  }

  lemma TagIsPlain(tag: string)
    requires tag != [] && tag[|tag| - 1] == ':'
    ensures PlainWord(tag)
  {
  }

  lemma HexIsPlain(mark: string)
    requires mark != [] && mark[0] == '0'
    ensures PlainWord(mark)
  {
  }

  lemma NoPair(fields: seq<string>, key: string, value: string)
    requires key !in fields
    ensures !HasPair(fields, key, value)
  {
  }

  /** A key that occurs once announces the word behind it. */
  lemma OnePair(a: seq<string>, key: string, v: string, b: seq<string>, fields: seq<string>, value: string)
    requires fields == a + [key, v] + b && key !in a && key !in b && v != key
    ensures HasPair(fields, key, value) <==> v == value
  {
    assert fields[|a|] == key && fields[|a| + 1] == v;
    forall i | 0 <= i < |fields| - 1 && fields[i] == key ensures i == |a| {
      OnlyThere(a, key, v, b, fields, i);
    }
  }

  lemma OnlyThere(a: seq<string>, key: string, v: string, b: seq<string>, fields: seq<string>, i: nat)
    requires fields == a + [key, v] + b && key !in a && key !in b && v != key && i < |fields| && fields[i] == key
    ensures i == |a|
  {
    assert forall j :: 0 <= j < |a| ==> fields[j] == a[j];
    assert forall j :: |a| + 2 <= j < |fields| ==> fields[j] == b[j - |a| - 2];
  }

  // ---- marks ------------------------------------------------------------------------------

  lemma HexDigits(d: nat, e: nat)
    requires d < 16 && e < 16
    ensures HexDigit(d) == HexDigit(e) ==> d == e
    ensures HexDigit(d) != '/'
  {
  }

  lemma {:induction false} HexHasNoSlash(n: nat)
    ensures '/' !in Hex(n)
  {
    HexDigits(n % 16, 0);
    if n >= 16 { HexHasNoSlash(n / 16); }
  }

  lemma {:induction false} HexInjective(m: nat, n: nat)
    requires Hex(m) == Hex(n)
    ensures m == n
  {
    var (s, t) := (Hex(m), Hex(n));
    HexDigits(m % 16, n % 16);
    assert s[|s| - 1] == HexDigit(m % 16) && t[|t| - 1] == HexDigit(n % 16);
    if m >= 16 && n >= 16 {
      assert s[..|s| - 1] == Hex(m / 16) && t[..|t| - 1] == Hex(n / 16);
      HexInjective(m / 16, n / 16);
    } else if m < 16 && n >= 16 {
      HexLonger(n);
    } else if m >= 16 {
      HexLonger(m);
    }
  }

  lemma HexLonger(n: nat)
    requires n >= 16
    ensures |Hex(n)| >= 2
  {
  }

  /** The printed mark is the service's exactly if the mark is. */
  lemma MarkIff(m: nat)
    ensures IsBypassMark("0x" + Hex(m)) <==> m == 0x2d11
  {
    var value := "0x" + Hex(m);
    ItoaDigits(BYPASS_MARK);
    HexHasNoSlash(m);
    assert value[2..] == Hex(m) && ("0x" + Hex(BYPASS_MARK))[2..] == Hex(BYPASS_MARK);
    if value == "0x" + Hex(BYPASS_MARK) { HexInjective(m, BYPASS_MARK); }
    NoSlash(value, Itoa(BYPASS_MARK) + "/", Hex(m));
    NoSlash(value, "0x" + Hex(BYPASS_MARK) + "/", Hex(m));
  }

  lemma NoSlash(value: string, end: string, hex: string)
    requires value == "0x" + hex && '/' !in hex && end != [] && end[|end| - 1] == '/'
    ensures !HasPrefix(value, end)
  {
    assert '/' !in "0x";
    assert forall k :: 0 <= k < |value| ==> value[k] != '/';
  }

  // ---- the parts of a printed rule ----------------------------------------------------------

  function Source(r: Rule): string { if r.src.Some? then r.src.value else "all" }

  function ToPart(f: AddrFormat, r: Rule): seq<string> {
    if r.dst.Some? then ["to", KernelPrefixText(f, r.dst.value)] else []
  }

  function MarkPart(r: Rule): seq<string> { if r.mark.Some? then ["fwmark", "0x" + Hex(r.mark.value)] else [] }

  lemma FieldsAre(f: AddrFormat, r: Rule)
    ensures RuleFields(f, r)
            == [Label(r), "from", Source(r)] + ToPart(f, r) + MarkPart(r) + r.extra + ["lookup", r.table]
  {
  }

  lemma LabelIsPlain(r: Rule)
    ensures PlainWord(Label(r))
  {
    LabelToken(r);
    TagIsPlain(Label(r));
  }

  lemma MarkIsPlain(r: Rule)
    ensures forall w :: w in MarkPart(r) && w != "fwmark" ==> PlainWord(w)
  {
    if r.mark.Some? { HexIsPlain("0x" + Hex(r.mark.value)); }
  }

  lemma FromAllIff(f: AddrFormat, r: Rule)
    requires PlainRule(f, r)
    ensures IsFromAll(RuleFields(f, r)) <==> r.src == None || r.src == Some("all")
  {
    FieldsAre(f, r);
    LabelIsPlain(r);
    MarkIsPlain(r);
    OnePair([Label(r)], "from", Source(r), ToPart(f, r) + MarkPart(r) + r.extra + ["lookup", r.table], RuleFields(f, r),
            "all");
  }

  lemma LooksUpIff(f: AddrFormat, r: Rule, table: string)
    requires PlainRule(f, r)
    ensures LooksUp(RuleFields(f, r), table) <==> r.table == table
  {
    FieldsAre(f, r);
    LabelIsPlain(r);
    MarkIsPlain(r);
    OnePair([Label(r), "from", Source(r)] + ToPart(f, r) + MarkPart(r) + r.extra, "lookup", r.table, [],
            RuleFields(f, r), table);
  }

  /** The fields before the mark and behind it. */
  lemma MarkedIff(front: seq<string>, mark: string, back: seq<string>, fields: seq<string>)
    requires fields == front + ["fwmark", mark] + back && "fwmark" !in front && "fwmark" !in back && mark != "fwmark"
    ensures HasBypassMark(fields) <==> IsBypassMark(mark)
  {
    assert fields[|front|] == "fwmark" && fields[|front| + 1] == mark;
    forall i | 0 <= i < |fields| - 1 && fields[i] == "fwmark" ensures i == |front| {
      OnlyThere(front, "fwmark", mark, back, fields, i);
    }
  }

  lemma UnmarkedIff(front: seq<string>, back: seq<string>, fields: seq<string>)
    requires fields == front + back && "fwmark" !in front && "fwmark" !in back
    ensures !HasBypassMark(fields)
  {
    assert "fwmark" !in fields;
  }

  /** Nothing before the mark, or behind it, announces a mark. */
  lemma AroundMark(f: AddrFormat, r: Rule, front: seq<string>, back: seq<string>)
    requires PlainRule(f, r) && front == [Label(r), "from", Source(r)] + ToPart(f, r)
    requires back == r.extra + ["lookup", r.table]
    ensures "fwmark" !in front && "fwmark" !in back && RuleFields(f, r) == front + MarkPart(r) + back
  {
    LabelIsPlain(r);
    assert PlainWord(Source(r));
  }

  lemma BypassMarkIff(f: AddrFormat, r: Rule)
    requires PlainRule(f, r)
    ensures HasBypassMark(RuleFields(f, r)) <==> r.mark == Some(0x2d11)
  {
    var front := [Label(r), "from", Source(r)] + ToPart(f, r);
    var back := r.extra + ["lookup", r.table];
    AroundMark(f, r, front, back);
    if r.mark.Some? {
      MarkIff(r.mark.value);
      HexIsPlain("0x" + Hex(r.mark.value));
      MarkedIff(front, "0x" + Hex(r.mark.value), back, RuleFields(f, r));
    } else {
      UnmarkedIff(front, back, RuleFields(f, r));
    }
  }

  // ---- what is owned --------------------------------------------------------------------------

  /** A rule counts as the service's own exactly if it lies in the window, selects no
      source, and looks up table 20230, or the main table for the mark 0x2d11 or for some
      destination; what else it selects does not matter. */
  lemma ManagedIff(f: AddrFormat, r: Rule)
    requires Faithful(f) && WellFormed(f, r) && PlainRule(f, r)
    ensures Managed(f, r) <==>
              && 10000 <= r.priority <= 10999 && (r.src == None || r.src == Some("all"))
              && (r.table == "20230" || (r.table == "main" && (r.mark == Some(0x2d11) || r.dst.Some?)))
  {
    LineIsItsFields(f, r);
    FromAllIff(f, r);
    LooksUpIff(f, r, TABLE_TEXT);
    LooksUpIff(f, r, "main");
    BypassMarkIff(f, r);
    PlainDestination(f, r);
  }

  /** It reads as a bypass exactly if it leads into the main table for some destination,
      whatever its mark, and then as one for that destination. */
  lemma BypassIff(f: AddrFormat, r: Rule)
    requires Faithful(f) && WellFormed(f, r) && PlainRule(f, r)
    ensures LineTarget(f, RuleLine(f, r))
            == if 10000 <= r.priority <= 10999 && (r.src == None || r.src == Some("all"))
                  && r.table == "main" && r.dst.Some?
               then Some(PrefixText(f, r.dst.value)) else None
  {
    LineIsItsFields(f, r);
    FromAllIff(f, r);
    LooksUpIff(f, r, "main");
    PlainDestination(f, r);
    if r.dst.Some? { KernelTextIsCanonical(f, r.dst.value); }
  }
}
