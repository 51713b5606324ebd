/** IP prefixes and their text. Addresses are numbers; the text of an address is
    a codec, because the two families write it differently. */
module Address {
  import opened Options
  import opened Numbers
  import opened Text

  /** The text of one address family: `parse` is what netip.ParseAddr accepts of
      that family, `show` its canonical String. */
  datatype AddrFormat = AddrFormat(bits: nat, show: nat -> string, parse: string -> Option<nat>)

  /** What the service relies on: canonical text is one field without a slash,
      starts and ends as such, and parses back to the same address. */
  ghost predicate Faithful(f: AddrFormat) {
    && 0 < f.bits <= 128
    && (forall s: string :: f.parse(s).Some? ==> f.parse(s).value < Pow2(f.bits))
    && (forall a: nat :: a < Pow2(f.bits) ==>
                           && IsToken(f.show(a))
                           && '/' !in f.show(a)
                           && f.parse(f.show(a)) == Some(a))
  }

  datatype Prefix = Prefix(addr: nat, len: nat)

  predicate ValidPrefix(f: AddrFormat, p: Prefix) { p.addr < Pow2(f.bits) && p.len <= f.bits }

  /** netip.Prefix.String: the address is not masked. */
  function PrefixText(f: AddrFormat, p: Prefix): string {
    f.show(p.addr) + "/" + Itoa(p.len)
  }

  function LastIndexOf(s: string, c: char): (n: int)
    ensures -1 <= n < |s|
    ensures n >= 0 ==> s[n] == c
    ensures forall i :: n < i < |s| ==> s[i] != c
  {
    if s == [] then -1
    else if s[|s| - 1] == c then |s| - 1
    else LastIndexOf(s[..|s| - 1], c)
  }

  /** netip.ParsePrefix. */
  function ParsePrefix(f: AddrFormat, s: string): Option<Prefix> {
    var slash := LastIndexOf(s, '/');
    if slash < 0 then None
    else
      var addr := f.parse(s[..slash]);
      var bits := s[slash + 1..];
      if addr.None? then None
      else if |bits| > 1 && !('1' <= bits[0] <= '9') then None
      else
        var len := Atoi(bits);
        if len.None? || len.value < 0 || len.value > f.bits then None
        else Some(Prefix(addr.value, len.value))
  }

  /** parseIPPrefixForFamily, before the result is printed again. */
  function ParseBypassPrefix(f: AddrFormat, raw: string): Option<Prefix> {
    var s := TrimSpace(raw);
    if s == [] || Contains(s, "://") then None
    else if '/' in s then ParsePrefix(f, s)
    else
      var addr := f.parse(s);
      if addr.None? then None else Some(Prefix(addr.value, f.bits))
  }

  /** parseIPPrefixForFamily: the canonical text of a prefix or host address. */
  function CanonicalPrefix(f: AddrFormat, raw: string): Option<string> {
    var p := ParseBypassPrefix(f, raw);
    if p.None? then None else Some(PrefixText(f, p.value))
  }

  lemma ParsedPrefixIsValid(f: AddrFormat, raw: string)
    requires Faithful(f) && ParseBypassPrefix(f, raw).Some?
    ensures ValidPrefix(f, ParseBypassPrefix(f, raw).value)
  {
  }

  /** A token, a slash and a number: where the last slash is, and that "://" does not occur. */
  lemma SlashedText(a: string, b: string, s: string)
    requires s == a + "/" + b && '/' !in a && '/' !in b
    ensures LastIndexOf(s, '/') == |a| && s[..|a|] == a && s[|a| + 1..] == b && '/' in s
    ensures forall i :: 0 <= i < |s| - 1 ==> s[i] != '/' || s[i + 1] != '/'
  {
    assert s[|a|] == '/';
    assert forall i :: 0 <= i < |a| ==> s[i] == a[i];
    assert forall i :: |a| < i < |s| ==> s[i] == b[i - |a| - 1];
  }

  lemma NoScheme(s: string)
    requires forall i :: 0 <= i < |s| - 1 ==> s[i] != '/' || s[i + 1] != '/'
    ensures !Contains(s, "://")
  {
    forall i | 0 <= i <= |s| - 3
      ensures !HasPrefix(s[i..], "://")
    {
      assert s[i..][1] == s[i + 1] && s[i..][2] == s[i + 2];
      assert "://"[1] == '/' && "://"[2] == '/';
    }
  }

  lemma PrefixTextShape(f: AddrFormat, p: Prefix)
    requires Faithful(f) && ValidPrefix(f, p)
    ensures IsToken(PrefixText(f, p)) && '/' in PrefixText(f, p)
    ensures LastIndexOf(PrefixText(f, p), '/') == |f.show(p.addr)|
    ensures !Contains(PrefixText(f, p), "://")
  {
    ItoaDigits(p.len);
    SlashedText(f.show(p.addr), Itoa(p.len), PrefixText(f, p));
    NoScheme(PrefixText(f, p));
  }

  lemma LengthText(n: nat)
    requires n <= 128
    ensures Atoi(Itoa(n)) == Some(n)
    ensures |Itoa(n)| > 1 ==> '1' <= Itoa(n)[0] <= '9'
  {
    AtoiItoa(n);
    ItoaDigits(n);
  }

  lemma ParsePrefixText(f: AddrFormat, p: Prefix)
    requires Faithful(f) && ValidPrefix(f, p)
    ensures ParsePrefix(f, PrefixText(f, p)) == Some(p)
  {
    ItoaDigits(p.len);
    SlashedText(f.show(p.addr), Itoa(p.len), PrefixText(f, p));
    LengthText(p.len);
  }

  /** The canonical text of a prefix parses back to it. */
  lemma PrefixRoundTrip(f: AddrFormat, p: Prefix)
    requires Faithful(f) && ValidPrefix(f, p)
    ensures ParseBypassPrefix(f, PrefixText(f, p)) == Some(p)
    ensures CanonicalPrefix(f, PrefixText(f, p)) == Some(PrefixText(f, p))
  {
    PrefixTextShape(f, p);
    ParsePrefixText(f, p);
    TrimNothing(PrefixText(f, p));
  }

  /** Two prefixes with the same canonical text are the same prefix. */
  lemma PrefixTextInjective(f: AddrFormat, p: Prefix, q: Prefix)
    requires Faithful(f) && ValidPrefix(f, p) && ValidPrefix(f, q)
    requires PrefixText(f, p) == PrefixText(f, q)
    ensures p == q
  {
    PrefixRoundTrip(f, p);
    PrefixRoundTrip(f, q);
  }

  // ---- what the kernel prints -----------------------------------------------

  /** The destination of a rule as `ip rule show` writes it: a host prefix loses
      its length. */
  function KernelPrefixText(f: AddrFormat, p: Prefix): string {
    if p.len == f.bits then f.show(p.addr) else PrefixText(f, p)
  }

  /** A host's text without a length is read as a full-length prefix. */
  lemma HostTextParses(f: AddrFormat, a: nat)
    requires Faithful(f) && a < Pow2(f.bits)
    ensures ParseBypassPrefix(f, f.show(a)) == Some(Prefix(a, f.bits))
  {
    TrimNothing(f.show(a));
    NoScheme(f.show(a));
  }

  /** The service reads back the prefix that the kernel printed. */
  lemma KernelPrefixRoundTrip(f: AddrFormat, p: Prefix)
    requires Faithful(f) && ValidPrefix(f, p)
    ensures IsToken(KernelPrefixText(f, p))
    ensures ParseBypassPrefix(f, KernelPrefixText(f, p)) == Some(p)
  {
    if p.len == f.bits {
      HostTextParses(f, p.addr);
    } else {
      PrefixTextShape(f, p);
      PrefixRoundTrip(f, p);
    }
  }

  // ---- IPv4 dotted-decimal text ---------------------------------------------

  function PrintV4(a: nat): string {
    DottedText(a / 0x100_0000 % 256, a / 0x1_0000 % 256, a / 256 % 256, a % 256)
  }

  function DottedText(a: nat, b: nat, c: nat, d: nat): string {
    Itoa(a) + ['.'] + (Itoa(b) + ['.'] + (Itoa(c) + ['.'] + Itoa(d)))
  }

  /** One field of a dotted-decimal address: no leading zero, at most 255. */
  function ParseOctet(s: string): Option<nat> {
    if s == [] || !AllDigits(s) || (|s| > 1 && s[0] == '0') || DigitsValue(s) > 255 then None
    else Some(DigitsValue(s))
  }

  function ParseV4(s: string): Option<nat> {
    var parts := Split(s, '.');
    if |parts| != 4 then None
    else
      var (a, b, c, d) := (ParseOctet(parts[0]), ParseOctet(parts[1]), ParseOctet(parts[2]), ParseOctet(parts[3]));
      if a.None? || b.None? || c.None? || d.None? then None
      else Some(((a.value * 256 + b.value) * 256 + c.value) * 256 + d.value)
  }

  const V4: AddrFormat := AddrFormat(32, PrintV4, ParseV4)

  lemma OctetRoundTrip(n: nat)
    requires n < 256
    ensures IsOctet(Itoa(n), n)
  {
    ItoaDigits(n);
    assert |Itoa(n)| > 1 ==> n > 0;
  }

  lemma DottedPair(c: string, d: string)
    requires '.' !in c && '.' !in d
    ensures Split(c + ['.'] + d, '.') == [c, d]
  {
    SplitFirst(c, d, '.');
    SplitNone(d, '.');
  }

  lemma DottedParts(a: string, b: string, rest: string, c: string, d: string)
    requires '.' !in a && '.' !in b && Split(rest, '.') == [c, d]
    ensures Split(a + ['.'] + (b + ['.'] + rest), '.') == [a, b, c, d]
  {
    var tail := b + ['.'] + rest;
    assert Split(tail, '.') == [b, c, d] by { SplitFirst(b, rest, '.'); }
    SplitFirst(a, tail, '.');
  }

  /** One field of a line, without a slash. */
  predicate IsPlain(s: string) { IsToken(s) && '/' !in s }

  lemma DottedPlain(a: string, rest: string)
    requires IsPlain(a) && IsPlain(rest)
    ensures IsPlain(a + ['.'] + rest)
  {
  }

  lemma DottedSplit(a: string, b: string, c: string, d: string)
    requires '.' !in a && '.' !in b && '.' !in c && '.' !in d
    ensures Split(a + ['.'] + (b + ['.'] + (c + ['.'] + d)), '.') == [a, b, c, d]
  {
    DottedPair(c, d);
    DottedParts(a, b, c + ['.'] + d, c, d);
  }

  /** A text that stands for an address and is one field without a slash. */
  predicate IsV4Text(text: string, a: nat) { IsPlain(text) && ParseV4(text) == Some(a) }

  /** An octet and its text. */
  predicate IsOctet(s: string, n: nat) { IsPlain(s) && '.' !in s && ParseOctet(s) == Some(n) }

  lemma DottedRoundTrip(a: string, b: string, c: string, d: string, p: nat, q: nat, r: nat, s: nat)
    requires IsOctet(a, p) && IsOctet(b, q) && IsOctet(c, r) && IsOctet(d, s)
    ensures IsV4Text(a + ['.'] + (b + ['.'] + (c + ['.'] + d)), ((p * 256 + q) * 256 + r) * 256 + s)
  {
    DottedSplit(a, b, c, d);
    DottedPlain(c, d);
    DottedPlain(b, c + ['.'] + d);
    DottedPlain(a, b + ['.'] + (c + ['.'] + d));
  }

  lemma V4Value(a: nat)
    requires a < 0x1_0000_0000
    ensures (((a / 0x100_0000 % 256) * 256 + a / 0x1_0000 % 256) * 256 + a / 256 % 256) * 256 + a % 256 == a
  {
    assert a / 0x1_0000 == a / 256 / 256;
    assert a / 0x100_0000 == a / 0x1_0000 / 256;
  }

  lemma V4Octets(a: nat) returns (p: nat, q: nat, r: nat, s: nat)
    requires a < 0x1_0000_0000
    ensures p < 256 && q < 256 && r < 256 && s < 256
    ensures PrintV4(a) == DottedText(p, q, r, s) && ((p * 256 + q) * 256 + r) * 256 + s == a
  {
    p, q, r, s := a / 0x100_0000 % 256, a / 0x1_0000 % 256, a / 256 % 256, a % 256;
    V4Value(a);
  }

  lemma FromOctets(text: string, p: nat, q: nat, r: nat, s: nat, a: nat)
    requires p < 256 && q < 256 && r < 256 && s < 256
    requires text == DottedText(p, q, r, s) && ((p * 256 + q) * 256 + r) * 256 + s == a
    ensures IsV4Text(text, a)
  {
    OctetRoundTrip(p);
    OctetRoundTrip(q);
    OctetRoundTrip(r);
    OctetRoundTrip(s);
    DottedRoundTrip(Itoa(p), Itoa(q), Itoa(r), Itoa(s), p, q, r, s);
  }

  lemma V4PrintParse(a: nat)
    requires a < 0x1_0000_0000
    ensures IsV4Text(PrintV4(a), a)
  {
    var p, q, r, s := V4Octets(a);
    FromOctets(PrintV4(a), p, q, r, s, a);
  }

  lemma Pow2Values()
    ensures Pow2(32) == 0x1_0000_0000
  {
    assert Pow2(8) == 256;
    assert Pow2(16) == 0x1_0000;
    assert Pow2(24) == 0x100_0000;
  }

  /** Dotted-decimal text meets what the service relies on. */
  lemma V4IsFaithful()
    ensures Faithful(V4)
  {
    Pow2Values();
    forall a: nat | a < Pow2(32)
      ensures IsV4Text(PrintV4(a), a)
    {
      V4PrintParse(a);
    }
  }
}
