/** Which texts are read as prefixes: exactly, for every text. */
module AddressTexts {
  import opened Options
  import opened Numbers
  import opened Text
  import opened Address

  // ---- white space and case ------------------------------------------------------------

  ghost predicate AllSpace(s: string) { forall i :: 0 <= i < |s| ==> IsSpace(s[i]) }

  /** What is left is the text between the white space at both ends. */
  lemma {:induction false} TrimAround(front: string, t: string, back: string)
    requires AllSpace(front) && AllSpace(back) && t != [] && !IsSpace(t[0]) && !IsSpace(t[|t| - 1])
    ensures TrimSpace(front + t + back) == t
    decreases |front| + |back|
  {
    var s := front + t + back;
    if front != [] {
      assert s[0] == front[0] && s[1..] == front[1..] + t + back;
      TrimAround(front[1..], t, back);
    } else if back != [] {
      assert s[0] == t[0] && s[|s| - 1] == back[|back| - 1];
      assert s[..|s| - 1] == front + t + back[..|back| - 1];
      TrimAround(front, t, back[..|back| - 1]);
    } else {
      assert s == t;
    }
  }

  /** Lower case: ASCII capitals move by 32, everything else stays. */
  lemma LowerAt(s: string, i: nat)
    requires i < |s|
    ensures ToLower(s)[i] as int
            == if 65 <= s[i] as int <= 90 then s[i] as int + 32 else s[i] as int
  {
  }

  // ---- decimal numbers -------------------------------------------------------------------

  lemma DigitIs(c: char)
    requires IsDigit(c)
    ensures DigitChar((c - '0') as nat) == c && (c - '0') as nat < 10
  {
  }

  lemma ValueOfLast(s: string)
    requires s != [] && AllDigits(s)
    ensures DigitsValue(s) / 10 == DigitsValue(s[..|s| - 1]) && DigitsValue(s) % 10 == (s[|s| - 1] - '0') as nat
  {
    DigitIs(s[|s| - 1]);
  }

  lemma {:induction false} PositiveValue(s: string)
    requires s != [] && AllDigits(s) && s[0] != '0'
    ensures DigitsValue(s) > 0
  {
    ValueOfLast(s);
    if |s| > 1 {
      PositiveValue(s[..|s| - 1]);
    } else {
      assert s[..0] == [];
    }
  }

  /** Digits without a leading zero are the text of their value. */
  lemma {:induction false} DigitsAreItoa(s: string)
    requires s != [] && AllDigits(s) && (|s| > 1 ==> s[0] != '0')
    ensures s == Itoa(DigitsValue(s))
  {
    ValueOfLast(s);
    DigitIs(s[|s| - 1]);
    var front := s[..|s| - 1];
    if |s| == 1 {
      assert front == [];
    } else {
      PositiveValue(front);
      DigitsAreItoa(front);
      assert s == front + [s[|s| - 1]];
    }
  }

  // ---- prefixes with a length --------------------------------------------------------------

  lemma {:induction false} LastSlash(a: string, b: string)
    requires '/' !in b
    ensures LastIndexOf(a + "/" + b, '/') == |a|
    ensures (a + "/" + b)[..|a|] == a && (a + "/" + b)[|a| + 1..] == b
  {
    var s := a + "/" + b;
    assert s[|a|] == '/';
    assert forall i :: |a| < i < |s| ==> s[i] == b[i - |a| - 1];
  }

  /** An address and a length in decimal, without a leading zero and within the family. */
  ghost predicate IsPrefixText(f: AddrFormat, s: string, p: Prefix) {
    exists a :: s == a + "/" + Itoa(p.len) && f.parse(a) == Some(p.addr) && p.len <= f.bits
  }

  lemma ParsedHasText(f: AddrFormat, s: string, p: Prefix)
    requires ParsePrefix(f, s) == Some(p)
    ensures IsPrefixText(f, s, p)
  {
    var slash := LastIndexOf(s, '/');
    var (a, bits) := (s[..slash], s[slash + 1..]);
    PartsHaveText(f, a, bits, p);
    assert s == a + "/" + bits;
  }

  lemma PartsHaveText(f: AddrFormat, a: string, bits: string, p: Prefix)
    requires Atoi(bits) == Some(p.len) && (|bits| > 1 ==> '1' <= bits[0] <= '9')
    requires f.parse(a) == Some(p.addr) && p.len <= f.bits
    ensures IsPrefixText(f, a + "/" + bits, p)
  {
    LengthIsDecimal(bits, p.len);
  }

  lemma LengthIsDecimal(bits: string, n: nat)
    requires Atoi(bits) == Some(n) && (|bits| > 1 ==> '1' <= bits[0] <= '9')
    ensures bits == Itoa(n)
  {
    DigitsAreItoa(bits);
  }

  lemma TextIsParsed(f: AddrFormat, s: string, a: string, p: Prefix)
    requires 0 < f.bits <= 128 && s == a + "/" + Itoa(p.len) && f.parse(a) == Some(p.addr) && p.len <= f.bits
    ensures ParsePrefix(f, s) == Some(p)
  {
    ItoaDigits(p.len);
    LastSlash(a, Itoa(p.len));
    LengthText(p.len);
  }

  /** netip.ParsePrefix accepts exactly the texts of that form. */
  lemma PrefixParsesIff(f: AddrFormat, s: string, p: Prefix)
    requires 0 < f.bits <= 128
    ensures ParsePrefix(f, s) == Some(p) <==> IsPrefixText(f, s, p)
  {
    if ParsePrefix(f, s) == Some(p) { ParsedHasText(f, s, p); }
    if a :| s == a + "/" + Itoa(p.len) && f.parse(a) == Some(p.addr) && p.len <= f.bits { TextIsParsed(f, s, a, p); }
  }

  /** A candidate stands for a prefix exactly if, without the white space around it and not
      being a URL, it is a prefix with its length or an address, which stands for its
      full-length prefix. */
  lemma CandidateIff(f: AddrFormat, raw: string, p: Prefix)
    requires 0 < f.bits <= 128
    ensures ParseBypassPrefix(f, raw) == Some(p) <==>
              var s := TrimSpace(raw);
              && s != "" && !Contains(s, "://")
              && (if '/' in s then IsPrefixText(f, s, p) else f.parse(s) == Some(p.addr) && p.len == f.bits)
  {
    PrefixParsesIff(f, TrimSpace(raw), p);
  }

  // ---- dotted decimal ------------------------------------------------------------------------

  lemma {:induction false} SplitJoins(s: string, sep: char)
    ensures Join(Split(s, sep), sep) == s
    decreases |s|
  {
    var n := IndexOf(s, sep);
    if n < |s| {
      SplitJoins(s[n + 1..], sep);
      var rest := Split(s[n + 1..], sep);
      assert ([s[..n]] + rest)[1..] == rest;
      assert s == s[..n] + [sep] + s[n + 1..];
    }
  }

  lemma JoinFour(a: string, b: string, c: string, d: string, sep: char)
    ensures Join([a, b, c, d], sep) == a + [sep] + (b + [sep] + (c + [sep] + d))
  {
    var (x, y, z) := ([b, c, d], [c, d], [d]);
    assert [a, b, c, d][1..] == x && x[1..] == y && y[1..] == z;
    assert Join(z, sep) == d;
    assert Join(y, sep) == c + [sep] + d;
    assert Join(x, sep) == b + [sep] + (c + [sep] + d);
  }

  lemma OctetIs(s: string)
    requires ParseOctet(s).Some?
    ensures s == Itoa(ParseOctet(s).value) && ParseOctet(s).value < 256
  {
    DigitsAreItoa(s);
  }

  lemma OctetsOf(p: nat, q: nat, r: nat, s: nat)
    requires p < 256 && q < 256 && r < 256 && s < 256
    ensures var a := ((p * 256 + q) * 256 + r) * 256 + s;
            && a < 0x1_0000_0000 && a / 0x100_0000 % 256 == p && a / 0x1_0000 % 256 == q
            && a / 256 % 256 == r && a % 256 == s
  {
    var a := ((p * 256 + q) * 256 + r) * 256 + s;
    assert a / 256 == (p * 256 + q) * 256 + r;
    assert a / 0x1_0000 == a / 256 / 256 == p * 256 + q;
    assert a / 0x100_0000 == a / 0x1_0000 / 256 == p;
  }

  /** The only text that reads as an IPv4 address is the one that it prints as. */
  lemma V4ParsesIff(s: string, a: nat)
    ensures ParseV4(s) == Some(a) <==> a < 0x1_0000_0000 && s == PrintV4(a)
  {
    if ParseV4(s) == Some(a) {
      var parts := Split(s, '.');
      OctetIs(parts[0]);
      OctetIs(parts[1]);
      OctetIs(parts[2]);
      OctetIs(parts[3]);
      OctetsOf(ParseOctet(parts[0]).value, ParseOctet(parts[1]).value, ParseOctet(parts[2]).value,
               ParseOctet(parts[3]).value);
      SplitJoins(s, '.');
      assert parts == [parts[0], parts[1], parts[2], parts[3]];
      JoinFour(parts[0], parts[1], parts[2], parts[3], '.');
    }
    if a < 0x1_0000_0000 && s == PrintV4(a) { V4PrintParse(a); }
  }
}
