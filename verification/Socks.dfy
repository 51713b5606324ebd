/** Socket addresses on the wire, in the format of section 5 of RFC 1928. */
module Socks {
  import opened Streams

  const TYPE_IPV4: byte := 0x01
  const TYPE_DOMAIN: byte := 0x03
  const TYPE_IPV6: byte := 0x04

  type Address4 = a: Bytes | |a| == 4 witness [0, 0, 0, 0]
  type Address6 = a: Bytes | |a| == 16 witness seq(16, _ => 0)

  /** What a host text stands for. */
  datatype Host = IPv4(a4: Address4) | IPv6(a6: Address6) | Domain(name: Bytes)

  const OPEN: byte := 0x5b
  const CLOSE: byte := 0x5d

  /** strings.Trim(host, "[]") */
  function Unbracketed(name: Bytes): (r: Bytes)
    ensures |r| <= |name|
  {
    if name != [] && (name[0] == OPEN || name[0] == CLOSE) then Unbracketed(name[1..])
    else if name != [] && (name[|name| - 1] == OPEN || name[|name| - 1] == CLOSE) then Unbracketed(name[..|name| - 1])
    else name
  }

  /** The domain as it is sent: without brackets, and cut at 255 bytes. */
  function SentDomain(name: Bytes): (r: Bytes)
    ensures |r| <= 255
  {
    var n := Unbracketed(name);
    if |n| > 255 then n[..255] else n
  }

  /** Ports out of range become 80. */
  function SentPort(port: int): (r: nat)
    ensures r < 0x1_0000
  {
    if 0 <= port <= 0xffff then port else 80
  }

  function PortBytes(port: nat): Bytes
    requires port < 0x1_0000
  {
    [port / 256, port % 256]
  }

  /** An address on the wire. */
  function Encoded(host: Host, port: int): Bytes {
    match host
    case IPv4(a) => [TYPE_IPV4] + a + PortBytes(SentPort(port))
    case IPv6(a) => [TYPE_IPV6] + a + PortBytes(SentPort(port))
    case Domain(name) => [TYPE_DOMAIN, |SentDomain(name)|] + SentDomain(name) + PortBytes(SentPort(port))
  }

  /** serializeSocksAddr, from the split host and port on. */
  method SerializeSocksAddr(host: Host, port: int) returns (r: Bytes)
    ensures r == Encoded(host, port)
  {
    var p: int := port;
    if p < 0 || p > 65535 { p := 80; }
    var content: Bytes;
    match host {
      case IPv4(a) => content := [TYPE_IPV4] + a;
      case IPv6(a) => content := [TYPE_IPV6] + a;
      case Domain(name) =>
        var trimmed := Unbracketed(name);
        if |trimmed| > 255 { trimmed := trimmed[..255]; }
        content := [TYPE_DOMAIN, |trimmed|] + trimmed;
    }
    var buf := new byte[|content| + 2](i requires 0 <= i < |content| + 2 => if i < |content| then content[i] else 0);
    buf[|content|] := p / 256;
    buf[|content| + 1] := p % 256;
    assert buf[..] == content + [p / 256, p % 256];
    r := buf[..];
  }

  /** A host and port read, and the rest of the stream. */
  datatype Read = Failed(rest: Bytes) | Read(host: Host, port: nat, rest: Bytes)

  function PortOf(b: Bytes): nat
    requires |b| >= 2
  {
    var hi: int := b[|b| - 2];
    hi * 256 + b[|b| - 1]
  }

  /** What an address of the given type, whose type byte has been read, reads as. */
  function Decoded(atyp: byte, wire: Bytes): Read {
    if atyp == TYPE_IPV4 then
      var (buf, rest) := Taken(wire, 6);
      if buf.None? then Failed(rest) else Read(IPv4(buf.value[..4]), PortOf(buf.value), rest)
    else if atyp == TYPE_DOMAIN then
      var (len, w1) := Taken(wire, 1);
      if len.None? then Failed(w1)
      else
        var n: int := len.value[0];
        var (buf, rest) := Taken(w1, n + 2);
        if buf.None? then Failed(rest) else Read(Domain(buf.value[..n]), PortOf(buf.value), rest)
    else if atyp == TYPE_IPV6 then
      var (buf, rest) := Taken(wire, 18);
      if buf.None? then Failed(rest) else Read(IPv6(buf.value[..16]), PortOf(buf.value), rest)
    else Failed(wire)
  }

  /** readSOCKSAddr */
  method ReadSocksAddr(r: Wire, atyp: byte) returns (got: Read)
    modifies r
    ensures got == Decoded(atyp, old(r.data)) && r.data == got.rest
  {
    if atyp == TYPE_IPV4 {
      var buf := r.ReadFull(6);
      if buf.None? { return Failed(r.data); }
      got := Read(IPv4(buf.value[..4]), PortOf(buf.value), r.data);
    } else if atyp == TYPE_DOMAIN {
      var lenBuf := r.ReadFull(1);
      if lenBuf.None? { return Failed(r.data); }
      var n: int := lenBuf.value[0];
      var hostBuf := r.ReadFull(n + 2);
      if hostBuf.None? { return Failed(r.data); }
      got := Read(Domain(hostBuf.value[..|hostBuf.value| - 2]), PortOf(hostBuf.value), r.data);
    } else if atyp == TYPE_IPV6 {
      var buf := r.ReadFull(18);
      if buf.None? { return Failed(r.data); }
      got := Read(IPv6(buf.value[..16]), PortOf(buf.value), r.data);
    } else {
      got := Failed(r.data);
    }
  }

  lemma TakenBack(a: Bytes, port: nat, after: Bytes)
    requires port < 0x1_0000
    ensures var wire := a + PortBytes(port) + after;
            var (buf, rest) := Taken(wire, |a| + 2);
            buf.Some? && rest == after && buf.value[..|a|] == a && PortOf(buf.value) == port
  {
    var wire := a + PortBytes(port) + after;
    assert wire[..|a| + 2] == a + PortBytes(port);
    assert wire[|a| + 2..] == after;
  }

  lemma BehindType(atyp: byte, a: Bytes, port: Bytes, after: Bytes)
    ensures var wire := [atyp] + a + port + after; wire[0] == atyp && wire[1..] == a + port + after
  {
  }

  lemma AddressReadsBack(host: Host, port: nat, after: Bytes)
    requires !host.Domain? && port < 0x1_0000
    ensures var wire := Encoded(host, port) + after; Decoded(wire[0], wire[1..]) == Read(host, port, after)
  {
    match host
    case IPv4(a) =>
      BehindType(TYPE_IPV4, a, PortBytes(port), after);
      TakenBack(a, port, after);
    case IPv6(a) =>
      BehindType(TYPE_IPV6, a, PortBytes(port), after);
      TakenBack(a, port, after);
  }

  lemma DomainReadsBack(name: Bytes, port: nat, after: Bytes)
    requires port < 0x1_0000
    ensures var wire := Encoded(Domain(name), port) + after;
            Decoded(wire[0], wire[1..]) == Read(Domain(SentDomain(name)), port, after)
  {
    var (wire, d, p) := (Encoded(Domain(name), port) + after, SentDomain(name), PortBytes(port));
    assert wire[1..] == [|d|] + (d + p + after);
    assert wire[1..][1..] == d + p + after;
    TakenBack(d, port, after);
  }

  /** What was sent reads back, whatever follows it, and what follows is left unread. */
  lemma SentReadsBack(host: Host, port: int, after: Bytes)
    ensures var wire := Encoded(host, port) + after;
            Decoded(wire[0], wire[1..])
            == Read(if host.Domain? then Domain(SentDomain(host.name)) else host, SentPort(port), after)
  {
    assert Encoded(host, port) == Encoded(host, SentPort(port));
    if host.Domain? {
      DomainReadsBack(host.name, SentPort(port), after);
    } else {
      AddressReadsBack(host, SentPort(port), after);
    }
  }

  /** Reading inverts sending for every address and every 16-bit port; for a domain
      exactly if it has at most 255 bytes and no brackets at its ends. */
  lemma AddressRoundTripIff(host: Host, port: int, after: Bytes)
    ensures var wire := Encoded(host, port) + after;
            Decoded(wire[0], wire[1..]) == Read(host, if port >= 0 then port else 0, after) <==>
              && 0 <= port <= 0xffff
              && (host.Domain? ==> |host.name| <= 255 && Unbracketed(host.name) == host.name)
  {
    SentReadsBack(host, port, after);
  }

  // ---- the layout of section 5 of RFC 1928 --------------------------------------------

  /** The address type is 1 for IPv4, 3 for a domain name, which follows its length in one
      byte, and 4 for IPv6; the port is the last two bytes, most significant first. */
  lemma Layout(host: Host, port: nat)
    requires port <= 0xffff
    ensures host.IPv4? ==> Encoded(host, port) == [0x01] + host.a4 + [port / 256, port % 256]
    ensures host.IPv6? ==> Encoded(host, port) == [0x04] + host.a6 + [port / 256, port % 256]
    ensures host.Domain? && |host.name| <= 255 && 0x5b !in host.name && 0x5d !in host.name ==>
              Encoded(host, port) == [0x03, |host.name|] + host.name + [port / 256, port % 256]
  {
    if host.Domain? && 0x5b !in host.name && 0x5d !in host.name { NoBrackets(host.name); }
  }

  lemma NoBrackets(name: Bytes)
    requires 0x5b !in name && 0x5d !in name
    ensures Unbracketed(name) == name
  {
    if name != [] { assert name[0] in name && name[|name| - 1] in name; }
  }

  /** Brackets at the ends are not sent, and a name that is too long is cut. */
  lemma SentName(name: Bytes)
    requires 0x5b !in name && 0x5d !in name
    ensures SentDomain([0x5b] + name + [0x5d]) == if |name| <= 255 then name else name[..255]
  {
    var s := [0x5b] + name + [0x5d];
    NoBrackets(name);
    assert s[1..] == name + [0x5d];
    if name != [] {
      assert (name + [0x5d])[0] == name[0] && name[0] in name;
    }
    assert (name + [0x5d])[..|name|] == name;
    assert Unbracketed(name + [0x5d]) == name by {
      if name == [] {
        assert (name + [0x5d])[1..] == [];
      } else {
        assert Unbracketed(name + [0x5d]) == Unbracketed((name + [0x5d])[..|name|]);
      }
    }
  }

  /** A port that has no 16 bits is sent as 80. */
  lemma OddPort(host: Host, port: int)
    requires port < 0 || port > 65535
    ensures Encoded(host, port) == Encoded(host, 80)
  {
  }
}
