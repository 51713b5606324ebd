/** The client's WebSocket frames: sections 5.2 to 5.5 of RFC 6455. */
module WebSocket {
  import opened Numbers
  import opened Options
  import opened Streams
  import opened Nonce

  const MAX_FRAME_PAYLOAD: nat := 16 * 1024

  const CONTINUATION: byte := 0x0
  const BINARY: byte := 0x2
  const CLOSE: byte := 0x8
  const PING: byte := 0x9
  const PONG: byte := 0xA

  // ---- 64-bit lengths ------------------------------------------------------------

  /** Shifting the extended length in, byte by byte: eight bits to the left with
      wrap-around, then the byte into the free low bits. */
  function ShiftIn(len: int, ext: Bytes): int
    decreases |ext|
  {
    if ext == [] then len else ShiftIn(Wrap(len * 256) + ext[0], ext[1..])
  }

  lemma DigitFits(b: byte, p: nat, low: nat)
    requires low < p
    ensures 0 <= (b as int) * p + low < 256 * p
  {
    MulMono(p, (b as int) + 1, 256);
  }

  function BigEndian(s: Bytes): (v: nat)
    ensures v < Pow256(|s|)
  {
    if s == [] then 0
    else
      DigitFits(s[0], Pow256(|s| - 1), BigEndian(s[1..]));
      (s[0] as int) * Pow256(|s| - 1) + BigEndian(s[1..])
  }

  /** The low n bytes of a number, most significant first. */
  function BigEndianBytes(v: nat, n: nat): (s: Bytes)
    ensures |s| == n
  {
    seq(n, i requires 0 <= i < n => (v / Pow256(n - 1 - i)) % 256)
  }

  lemma Regrouped(p: nat, q: nat, d: nat, r: nat)
    ensures p * (256 * q + d) + r == (256 * p) * q + (d * p + r)
  {
  }

  lemma Divides(v: nat, p: nat)
    requires p > 0
    ensures v == p * (v / p) + v % p && v % p < p
  {
  }

  lemma ModSplit(v: nat, p: nat)
    requires p > 0
    ensures v % (256 * p) == ((v / p) % 256) * p + v % p
  {
    var (q, r) := (v / p, v % p);
    var (q2, d) := (q / 256, q % 256);
    Divides(v, p);
    Regrouped(p, q2, d, r);
    DigitFits(d, p, r);
    ModUnique(v, 256 * p, q2, d * p + r);
  }

  lemma BigEndianTail(v: nat, n: nat)
    requires n > 0
    ensures BigEndianBytes(v, n) == [(v / Pow256(n - 1)) % 256] + BigEndianBytes(v, n - 1)
  {
    forall i | 1 <= i < n
      ensures BigEndianBytes(v, n)[i] == BigEndianBytes(v, n - 1)[i - 1]
    {
      assert n - 1 - i == (n - 1) - 1 - (i - 1);
    }
  }

  lemma {:induction false} BigEndianRoundTrip(v: nat, n: nat)
    ensures BigEndian(BigEndianBytes(v, n)) == v % Pow256(n)
  {
    if n > 0 {
      ModSplit(v, Pow256(n - 1));
      BigEndianRoundTrip(v, n - 1);
      BigEndianTail(v, n);
    }
  }

  lemma WrapShift(x: int, k: int)
    ensures Wrap(x + k * TWO_64) == Wrap(x)
  {
  }

  lemma ShiftOne(len: int, b: byte, p: nat, rest: nat)
    ensures Wrap((Wrap(len * 256) + b) * p + rest) == Wrap(len * (256 * p) + (b * p + rest))
  {
    var k := (Wrap(len * 256) - len * 256) / TWO_64;
    assert Wrap(len * 256) == len * 256 + k * TWO_64;
    calc {
      (Wrap(len * 256) + b) * p + rest;
      (len * 256 + k * TWO_64 + b) * p + rest;
      len * (256 * p) + (b * p + rest) + (k * p) * TWO_64;
    }
    WrapShift(len * (256 * p) + (b * p + rest), k * p);
  }

  /** Shifting leaves the low eight bits free. */
  lemma RoomForByte(len: int, b: byte)
    ensures -TWO_63 <= Wrap(len * 256) + b < TWO_63
  {
    var k := (Wrap(len * 256) - len * 256) / TWO_64;
    assert Wrap(len * 256) == 256 * (len + k * (TWO_64 / 256));
  }

  lemma TopByte(ext: Bytes)
    requires ext != []
    ensures Pow256(|ext|) == 256 * Pow256(|ext[1..]|)
    ensures BigEndian(ext) == (ext[0] as int) * Pow256(|ext[1..]|) + BigEndian(ext[1..])
  {
  }

  lemma {:induction false} ShiftInValue(len: int, ext: Bytes)
    requires -TWO_63 <= len < TWO_63
    ensures ShiftIn(len, ext) == Wrap(len * Pow256(|ext|) + BigEndian(ext))
    decreases |ext|
  {
    if ext != [] {
      RoomForByte(len, ext[0]);
      ShiftInValue(Wrap(len * 256) + ext[0], ext[1..]);
      TopByte(ext);
      ShiftOne(len, ext[0], Pow256(|ext[1..]|), BigEndian(ext[1..]));
    }
  }

  /** The eight length bytes are shifted into a variable that starts at 127, which
      the shifting pushes out: the length is the big-endian value, read as a signed
      64-bit number. It is negative exactly from 2^63 on. */
  lemma ExtendedLength(ext: Bytes)
    requires |ext| == 8
    ensures ShiftIn(127, ext) == if BigEndian(ext) < TWO_63 then BigEndian(ext) else BigEndian(ext) - TWO_64
  {
    ShiftInValue(127, ext);
    Pow256Of8();
    WrapShift(BigEndian(ext), 127);
    if BigEndian(ext) >= TWO_63 {
      WrapShift(BigEndian(ext) - TWO_64, 1);
    }
  }

  lemma Pow256Of8()
    ensures Pow256(8) == TWO_64
  {
    assert Pow256(4) == 0x1_0000_0000;
    assert Pow256(8) == 256 * (256 * (256 * (256 * Pow256(4))));
  }

  // ---- masking ---------------------------------------------------------------------

  type Mask = m: Bytes | |m| == 4 witness [0, 0, 0, 0]

  /** Exclusive or of the low n bits. */
  function XorBits(a: nat, b: nat, n: nat): (x: nat)
    decreases n
  {
    if n == 0 then 0 else (a % 2 + b % 2) % 2 + 2 * XorBits(a / 2, b / 2, n - 1)
  }

  lemma BitTwice(a: nat, b: nat)
    ensures ((a % 2 + b % 2) % 2 + b % 2) % 2 == a % 2 && a == a % 2 + 2 * (a / 2)
  {
  }

  lemma BitAndRest(bit: nat, rest: nat)
    requires bit < 2
    ensures (bit + 2 * rest) % 2 == bit && (bit + 2 * rest) / 2 == rest
  {
  }

  lemma XorOf(bit: nat, rest: nat, b: nat, n: nat, back: nat)
    requires n > 0 && bit < 2 && XorBits(rest, b / 2, n - 1) == back
    ensures XorBits(bit + 2 * rest, b, n) == (bit + b % 2) % 2 + 2 * back
  {
    BitAndRest(bit, rest);
  }

  lemma {:induction false} XorTwice(a: nat, b: nat, n: nat)
    requires a < Pow2(n)
    ensures XorBits(a, b, n) < Pow2(n) && XorBits(XorBits(a, b, n), b, n) == a
    decreases n
  {
    if n > 0 {
      XorTwice(a / 2, b / 2, n - 1);
      BitTwice(a, b);
      XorOf((a % 2 + b % 2) % 2, XorBits(a / 2, b / 2, n - 1), b, n, a / 2);
    }
  }

  function Xor(a: byte, b: byte): (x: byte) {
    assert Pow2(8) == 256 by { assert Pow2(4) == 16; }
    XorTwice(a, b, 8);
    XorBits(a, b, 8)
  }

  /** The payload combined with the mask, repeated. */
  function Masked(payload: Bytes, mask: Mask): (r: Bytes)
    ensures |r| == |payload|
  {
    seq(|payload|, i requires 0 <= i < |payload| => Xor(payload[i], mask[i % 4]))
  }

  lemma MaskedTwice(payload: Bytes, mask: Mask)
    ensures Masked(Masked(payload, mask), mask) == payload
  {
    assert Pow2(8) == 256 by { assert Pow2(4) == 16; }
    forall i | 0 <= i < |payload|
      ensures Masked(Masked(payload, mask), mask)[i] == payload[i]
    {
      XorTwice(payload[i], mask[i % 4], 8);
    }
  }

  lemma MaskedAt(was: Bytes, now: Bytes, mask: Mask)
    requires |now| == |was| && forall k :: 0 <= k < |was| ==> now[k] == Xor(was[k], mask[k % 4])
    ensures now == Masked(was, mask)
  {
  }

  /** The unmasking loop of readFrame. */
  method Unmask(payload: array<byte>, mask: Mask)
    modifies payload
    ensures payload[..] == Masked(old(payload[..]), mask)
  {
    ghost var was := payload[..];
    var i := 0;
    while i < payload.Length
      invariant 0 <= i <= payload.Length
      invariant forall k :: 0 <= k < i ==> payload[k] == Xor(was[k], mask[k % 4])
      invariant forall k :: i <= k < payload.Length ==> payload[k] == was[k]
    {
      payload[i] := Xor(payload[i], mask[i % 4]);
      i := i + 1;
    }
    MaskedAt(was, payload[..], mask);
  }

  // ---- the frame format --------------------------------------------------------------

  /** A frame of any endpoint: clients mask, servers do not. */
  datatype Message = Message(fin: bool, opcode: byte, mask: Option<Mask>, payload: Bytes)

  ghost predicate IsMessage(m: Message) { m.opcode < 16 && |m.payload| < TWO_63 }

  function LengthField(n: nat): Bytes {
    if n < 126 then [] else if n <= 65535 then BigEndianBytes(n, 2) else BigEndianBytes(n, 8)
  }

  function LengthCode(n: nat): (c: byte)
    ensures c < 128
  {
    if n < 126 then n else if n <= 65535 then 126 else 127
  }

  function Head(m: Message): (h: Bytes)
    ensures |h| == 2
  {
    [(if m.fin then 128 else 0) + m.opcode % 16, (if m.mask.Some? then 128 else 0) + LengthCode(|m.payload|)]
  }

  function Key(m: Message): Bytes { if m.mask.Some? then m.mask.value else [] }

  function Body(m: Message): (b: Bytes)
    ensures |b| == |m.payload|
  {
    if m.mask.Some? then Masked(m.payload, m.mask.value) else m.payload
  }

  /** The frame format of section 5.2 of RFC 6455. */
  function Encode(m: Message): Bytes {
    Head(m) + (LengthField(|m.payload|) + (Key(m) + Body(m)))
  }

  datatype Parsed =
    | Short
    | BadLength(after: Bytes)
    | Parsed(opcode: byte, payload: Bytes, after: Bytes)

  /** The payload length of readFrame, negative on 64-bit overflow. */
  function ReadLength(code: byte, wire: Bytes): (Option<int>, Bytes) {
    if code == 126 then
      var (ext, after) := Taken(wire, 2);
      (if ext.None? then None else Some((ext.value[0] as int) * 256 + ext.value[1]), after)
    else if code == 127 then
      var (ext, after) := Taken(wire, 8);
      (if ext.None? then None else Some(ShiftIn(127, ext.value)), after)
    else
      (Some(code as int), wire)
  }

  function ReadMask(masked: bool, wire: Bytes): (Option<Bytes>, Bytes) {
    if masked then Taken(wire, 4) else (Some([]), wire)
  }

  function ParsePayload(opcode: byte, key: Bytes, len: int, wire: Bytes): Parsed
    requires |key| == 0 || |key| == 4
  {
    if len < 0 then BadLength(wire)
    else
      var (raw, after) := Taken(wire, len);
      if raw.None? then Short
      else Parsed(opcode, if key == [] then raw.value else Masked(raw.value, key), after)
  }

  function ParseMasked(opcode: byte, masked: bool, len: int, wire: Bytes): Parsed {
    var (key, after) := ReadMask(masked, wire);
    if key.None? then Short else ParsePayload(opcode, key.value, len, after)
  }

  function ParseBody(opcode: byte, masked: bool, code: byte, wire: Bytes): Parsed {
    var (len, after) := ReadLength(code, wire);
    if len.None? then Short else ParseMasked(opcode, masked, len.value, after)
  }

  /** One frame off the front of the wire. */
  function ParseFrame(wire: Bytes): Parsed {
    var (head, after) := Taken(wire, 2);
    if head.None? then Short
    else ParseBody(head.value[0] % 16, head.value[1] >= 128, head.value[1] % 128, after)
  }

  /** What parsing gives on a wire that starts with the bytes `full` of a message,
      or with a part of them. */
  ghost predicate Inverts(p: Parsed, m: Message, wire: Bytes, full: Bytes, after: Bytes) {
    if |wire| < |full| then p == Short
    else p == Parsed(m.opcode, m.payload, wire[|full|..]) && wire[|full|..] <= after
  }

  lemma PayloadRoundTrip(m: Message, wire: Bytes, after: Bytes)
    requires wire <= Body(m) + after
    ensures Inverts(ParsePayload(m.opcode, Key(m), |m.payload|, wire), m, wire, Body(m), after)
  {
    TakePrefix(wire, Body(m), after, |m.payload|);
    if m.mask.Some? { MaskedTwice(m.payload, m.mask.value); }
  }

  /** What inverts the rest inverts the whole, once the front is taken. */
  lemma Behind(p: Parsed, m: Message, wire: Bytes, front: Bytes, rest: Bytes, after: Bytes)
    requires |front| <= |wire| && Inverts(p, m, wire[|front|..], rest, after)
    ensures Inverts(p, m, wire, front + rest, after)
  {
    if |wire| >= |front + rest| { DropTwice(wire, |front|, |rest|); }
  }

  lemma DropTwice(wire: Bytes, a: nat, b: nat)
    requires a + b <= |wire|
    ensures wire[a..][b..] == wire[a + b..]
  {
  }

  lemma MaskRoundTrip(m: Message, wire: Bytes, after: Bytes)
    requires wire <= Key(m) + Body(m) + after
    ensures Inverts(ParseMasked(m.opcode, m.mask.Some?, |m.payload|, wire), m, wire, Key(m) + Body(m), after)
  {
    Reassociate(Key(m), Body(m), after);
    TakePrefix(wire, Key(m), Body(m) + after, |Key(m)|);
    if |Key(m)| <= |wire| {
      PayloadRoundTrip(m, wire[|Key(m)|..], after);
      Behind(ParsePayload(m.opcode, Key(m), |m.payload|, wire[|Key(m)|..]), m, wire, Key(m), Body(m), after);
    }
  }

  lemma TwoLengthBytes(n: nat)
    requires n <= 65535
    ensures BigEndianBytes(n, 2) == [(n / 256) % 256, n % 256] && (n / 256) % 256 * 256 + n % 256 == n
  {
    assert Pow256(1) == 256 && Pow256(0) == 1;
  }

  lemma EightLengthBytes(n: nat, k: nat)
    requires n < TWO_63 && k == 8
    ensures ShiftIn(127, BigEndianBytes(n, k)) == n
  {
    ExtendedLength(BigEndianBytes(n, k));
    BigEndianRoundTrip(n, k);
    Pow256Of8();
    ModUnique(n, TWO_64, 0, n);
  }

  /** The extended length is read back, in each of its three forms. */
  lemma LengthRoundTrip(n: nat)
    requires n < TWO_63
    ensures n < 126 ==> LengthField(n) == [] && LengthCode(n) == n
    ensures 126 <= n <= 65535 ==> LengthCode(n) == 126 && (LengthField(n)[0] as int) * 256 + LengthField(n)[1] == n
    ensures n > 65535 ==> LengthCode(n) == 127 && ShiftIn(127, LengthField(n)) == n
  {
    if 126 <= n <= 65535 {
      TwoLengthBytes(n);
    } else if n > 65535 {
      EightLengthBytes(n, 8);
    }
  }

  lemma LengthReads(n: nat, wire: Bytes, after: Bytes)
    requires n < TWO_63 && wire <= LengthField(n) + after
    ensures ReadLength(LengthCode(n), wire)
            == if |wire| < |LengthField(n)| then (None, []) else (Some(n), wire[|LengthField(n)|..])
    ensures |wire| >= |LengthField(n)| ==> wire[|LengthField(n)|..] <= after
  {
    LengthRoundTrip(n);
    TakePrefix(wire, LengthField(n), after, |LengthField(n)|);
  }

  lemma BodyRoundTrip(m: Message, wire: Bytes, after: Bytes)
    requires IsMessage(m) && wire <= LengthField(|m.payload|) + (Key(m) + Body(m)) + after
    ensures Inverts(ParseBody(m.opcode, m.mask.Some?, LengthCode(|m.payload|), wire), m, wire,
                    LengthField(|m.payload|) + (Key(m) + Body(m)), after)
  {
    var (field, rest) := (LengthField(|m.payload|), Key(m) + Body(m));
    Reassociate(field, rest, after);
    LengthReads(|m.payload|, wire, rest + after);
    if |field| <= |wire| {
      MaskRoundTrip(m, wire[|field|..], after);
      Behind(ParseMasked(m.opcode, m.mask.Some?, |m.payload|, wire[|field|..]), m, wire, field, rest, after);
    }
  }

  lemma HeadReads(m: Message)
    requires m.opcode < 16
    ensures Head(m)[0] % 16 == m.opcode && Head(m)[1] % 128 == LengthCode(|m.payload|)
    ensures Head(m)[1] >= 128 <==> m.mask.Some?
  {
  }

  /** A frame opens with its two head bytes. */
  lemma ParseHead(m: Message, wire: Bytes)
    requires IsMessage(m) && 2 <= |wire| && wire[..2] == Head(m)
    ensures ParseFrame(wire) == ParseBody(m.opcode, m.mask.Some?, LengthCode(|m.payload|), wire[2..])
  {
    HeadReads(m);
  }

  /** readFrame's parse inverts every endpoint's frames, in all three length forms,
      masked or not, and leaves what follows; a frame cut short is seen to be short. */
  lemma FrameRoundTrip(m: Message, wire: Bytes, after: Bytes)
    requires IsMessage(m) && wire <= Encode(m) + after
    ensures Inverts(ParseFrame(wire), m, wire, Encode(m), after)
  {
    var rest := LengthField(|m.payload|) + (Key(m) + Body(m));
    Reassociate(Head(m), rest, after);
    TakePrefix(wire, Head(m), rest + after, 2);
    if 2 <= |wire| {
      ParseHead(m, wire);
      BodyRoundTrip(m, wire[2..], after);
      Behind(ParseFrame(wire), m, wire, Head(m), rest, after);
    }
  }

  // ---- the connection -----------------------------------------------------------------

  /** What readFrame and buildClientFrame work on: the bytes buffered, the wire, what
      has been sent, and how many masks have been drawn. */
  datatype State = State(buf: Bytes, wire: Bytes, sent: Bytes, drawn: nat)

  /** Ended stands for every error, end of file included. */
  datatype Outcome = Fine | Ended | Crashed

  predicate IsControl(opcode: byte) { opcode == CLOSE || opcode == PING || opcode == PONG }

  /** A frame of ours, with the next mask. */
  function Ours(opcode: byte, mask: Mask, payload: Bytes): Message {
    Message(true, opcode % 16, Some(mask), payload)
  }

  /** The answer to a ping; too large a ping gets none. */
  function Answer(masks: nat -> Mask, s: State, payload: Bytes): State {
    if |payload| > 125 then s
    else s.(sent := s.sent + Encode(Ours(PONG, masks(s.drawn), payload)), drawn := s.drawn + 1)
  }

  /** readFrame: frames are taken until data arrives. */
  function ReadFrame(masks: nat -> Mask, s: State): (State, Outcome)
    decreases |s.wire|, 0
  {
    match ParseFrame(s.wire)
    case Short => (s.(wire := []), Ended)
    case BadLength(after) => (s.(wire := after), Crashed)
    case Parsed(opcode, payload, after) =>
      ParseConsumes(s.wire);
      AfterFrame(masks, s.(wire := after), opcode, payload)
  }

  /** What readFrame does with a frame. */
  function AfterFrame(masks: nat -> Mask, s: State, opcode: byte, payload: Bytes): (State, Outcome)
    decreases |s.wire|, 1
  {
    if opcode == CONTINUATION || opcode == BINARY then (s.(buf := s.buf + payload), Fine)
    else if opcode == PING then ReadFrame(masks, Answer(masks, s, payload))
    else if opcode == PONG then ReadFrame(masks, s)
    else (s, Ended)
  }

  lemma ParseConsumes(wire: Bytes)
    ensures ParseFrame(wire).Parsed? ==> |ParseFrame(wire).after| < |wire|
  {
    var (head, after) := Taken(wire, 2);
    if head.Some? {
      BodyConsumes(head.value[0] % 16, head.value[1] >= 128, head.value[1] % 128, after);
    }
  }

  lemma BodyConsumes(opcode: byte, masked: bool, code: byte, wire: Bytes)
    ensures var p := ParseBody(opcode, masked, code, wire); p.Parsed? ==> |p.after| <= |wire|
  {
    var (len, w2) := ReadLength(code, wire);
    assert |w2| <= |wire|;
    if len.Some? {
      var (key, w3) := ReadMask(masked, w2);
      assert |w3| <= |w2|;
    }
  }

  /** bytes.Buffer.Read: an empty buffer is the end of the file, unless nothing is
      asked for. */
  function FromBuffer(s: State, size: nat): (State, Option<Bytes>) {
    if s.buf == [] && size > 0 then (s, None)
    else (s.(buf := s.buf[Min(size, |s.buf|)..]), Some(s.buf[..Min(size, |s.buf|)]))
  }

  /** Read with a buffer of the given size: the bytes delivered, or an error. */
  function ReadSome(masks: nat -> Mask, s: State, size: nat): (State, Option<Bytes>) {
    var (s1, o) := if s.buf == [] then ReadFrame(masks, s) else (s, Fine);
    if o != Fine then (s1, None) else FromBuffer(s1, size)
  }

  /** webSocketStreamConn. The masks are the random bytes, in the order drawn. */
  class Conn {
    const masks: nat -> Mask
    const outbound: Wire
    const inbound: Wire
    var drawn: nat
    var readBuf: Bytes

    ghost predicate Valid() { outbound != inbound }

    ghost function View(): State
      reads this, outbound, inbound
    {
      State(readBuf, inbound.data, outbound.data, drawn)
    }

    /** The upgraded connection; what the HTTP reader had already buffered goes
        straight into the read buffer. */
    constructor (masks: nat -> Mask, outbound: Wire, inbound: Wire, buffered: Bytes)
      requires outbound != inbound
      ensures Valid() && View() == State(buffered, inbound.data, outbound.data, 0)
      ensures this.masks == masks && this.outbound == outbound && this.inbound == inbound
    {
      this.masks, this.outbound, this.inbound := masks, outbound, inbound;
      drawn, readBuf := 0, buffered;
    }

    /** buildClientFrame; None is the error for a large control frame. */
    method BuildClientFrame(opcode: byte, payload: Bytes) returns (r: Option<Bytes>)
      modifies this`drawn
      ensures r.None? <==> opcode in {0x8, 0x9, 0xA} && |payload| > 125
      ensures drawn == old(drawn) + (if r.Some? then 1 else 0)
      ensures r.Some? ==> r.value == Encode(Ours(opcode, masks(old(drawn)), payload))
    {
      if |payload| > 125 && IsControl(opcode) { return None; }
      var maskKey: Mask := masks(drawn);
      drawn := drawn + 1;
      var frame := FrameHead(opcode, |payload|);
      assert frame == Head(Ours(opcode, maskKey, payload)) + LengthField(|payload|);
      frame := frame + maskKey;
      frame := AppendMasked(frame, payload, maskKey);
      Assembled(Ours(opcode, maskKey, payload));
      r := Some(frame);
    }

    /** The first two bytes of a masked frame, and its length. */
    method FrameHead(opcode: byte, n: nat) returns (frame: Bytes)
      ensures frame == [128 + opcode % 16, 128 + LengthCode(n)] + LengthField(n)
    {
      frame := [128 + opcode % 16];
      if n < 126 {
        frame := frame + [128 + n];
      } else if n <= 65535 {
        frame := frame + [128 + 126];
        frame := frame + [(n / 256) % 256, n % 256];
        TwoLengthBytes(n);
      } else {
        frame := frame + [128 + 127];
        frame := AppendLength(frame, n);
      }
    }

    /** The first half of readFrame: one frame, unmasked. */
    method TakeFrame() returns (p: Parsed)
      modifies inbound
      ensures p == ParseFrame(old(inbound.data))
      ensures inbound.data == if p.Short? then [] else p.after
    {
      var head := inbound.ReadFull(2);
      if head.None? { return Short; }
      p := TakeBody(head.value[0] % 16, head.value[1] >= 128, head.value[1] % 128);
    }

    method TakeBody(opcode: byte, masked: bool, code: byte) returns (p: Parsed)
      modifies inbound
      ensures p == ParseBody(opcode, masked, code, old(inbound.data))
      ensures inbound.data == if p.Short? then [] else p.after
    {
      var payloadLen := ReadPayloadLength(code);
      if payloadLen.None? { return Short; }
      var maskKey: Option<Bytes> := Some([]);
      if masked { maskKey := inbound.ReadFull(4); }
      if maskKey.None? { return Short; }
      if payloadLen.value < 0 { return BadLength(inbound.data); }
      var raw := inbound.ReadFull(payloadLen.value);
      if raw.None? { return Short; }
      var payload := new byte[|raw.value|](i requires 0 <= i < |raw.value| => raw.value[i]);
      assert payload[..] == raw.value;
      if masked { Unmask(payload, maskKey.value); }
      p := Parsed(opcode, payload[..], inbound.data);
    }

    /** readFrame */
    method ReadNext() returns (o: Outcome)
      requires Valid()
      modifies this`readBuf, this`drawn, inbound, outbound
      ensures (View(), o) == ReadFrame(masks, old(View()))
      decreases |inbound.data|, 0
    {
      ParseConsumes(inbound.data);
      var frame := TakeFrame();
      match frame
      case Short => o := Ended;
      case BadLength(after) => o := Crashed;
      case Parsed(opcode, payload, after) => o := Dispatch(opcode, payload);
    }

    /** The second half of readFrame. */
    method Dispatch(opcode: byte, payload: Bytes) returns (o: Outcome)
      requires Valid()
      modifies this`readBuf, this`drawn, inbound, outbound
      ensures (View(), o) == AfterFrame(masks, old(View()), opcode, payload)
      decreases |inbound.data|, 1
    {
      if opcode == CONTINUATION || opcode == BINARY {
        readBuf := readBuf + payload;
        o := Fine;
      } else if opcode == PING {
        AnswerPing(payload);
        o := ReadNext();
      } else if opcode == PONG {
        o := ReadNext();
      } else {
        o := Ended;
      }
    }

    method AnswerPing(payload: Bytes)
      requires Valid()
      modifies this`drawn, outbound
      ensures View() == Answer(masks, old(View()), payload)
    {
      var pong := BuildClientFrame(PONG, payload);
      if pong.Some? { outbound.Write(pong.value); }
    }

    method ReadPayloadLength(code: byte) returns (len: Option<int>)
      modifies inbound
      ensures (len, inbound.data) == ReadLength(code, old(inbound.data))
    {
      if code == 126 {
        var ext := inbound.ReadFull(2);
        if ext.None? { return None; }
        return Some((ext.value[0] as int) * 256 + ext.value[1]);
      }
      if code == 127 {
        var ext := inbound.ReadFull(8);
        if ext.None? { return None; }
        var n: int := 127;
        var i := 0;
        while i < 8
          invariant 0 <= i <= 8 && ShiftIn(n, ext.value[i..]) == ShiftIn(127, ext.value)
        {
          n := Wrap(n * 256) + ext.value[i];
          i := i + 1;
        }
        return Some(n);
      }
      return Some(code as int);
    }

    method Read(size: nat) returns (got: Option<Bytes>)
      requires Valid()
      modifies this`readBuf, this`drawn, inbound, outbound
      ensures (View(), got) == ReadSome(masks, old(View()), size)
    {
      if readBuf == [] {
        var o := ReadNext();
        if o != Fine { return None; }
      }
      if readBuf == [] && size > 0 { return None; }
      var n := Min(size, |readBuf|);
      got, readBuf := Some(readBuf[..n]), readBuf[n..];
    }

    method Write(p: Bytes) returns (written: nat)
      requires Valid()
      modifies this`drawn, outbound
      ensures written == |p|
      ensures outbound.data == old(outbound.data) + EncodeAll(ClientFrames(masks, old(drawn), p))
      ensures drawn == old(drawn) + |ClientFrames(masks, old(drawn), p)|
    {
      written := WriteFrames(Encoder(), DataFrame(masks), p);
    }

    /** The loop of Write. */
    method WriteFrames(ghost enc: Message -> Bytes, ghost make: (nat, Bytes) -> Message, p: Bytes)
      returns (written: nat)
      requires Valid() && Encodes(enc, make, masks)
      modifies this`drawn, outbound
      ensures written == |p| && (outbound.data, drawn) == Finish(enc, make, old(outbound.data), old(drawn), p)
    {
      ghost var whole := Finish(enc, make, outbound.data, drawn, p);
      written := 0;
      var rest := p;
      while rest != []
        invariant written + |rest| == |p|
        invariant Finish(enc, make, outbound.data, drawn, rest) == whole
        decreases |rest|
      {
        var n := |rest|;
        if n > MAX_FRAME_PAYLOAD { n := MAX_FRAME_PAYLOAD; }
        FinishStep(enc, make, outbound.data, drawn, rest);
        var chunk := rest[..n];
        rest := rest[n..];
        WriteFrame(enc, make, chunk);
        written := written + n;
      }
      assert outbound.data + [] == outbound.data;
    }

    method WriteFrame(ghost enc: Message -> Bytes, ghost make: (nat, Bytes) -> Message, chunk: Bytes)
      requires Encodes(enc, make, masks)
      modifies this`drawn, outbound
      ensures outbound.data == old(outbound.data) + enc(make(old(drawn), chunk)) && drawn == old(drawn) + 1
    {
      var frame := BuildClientFrame(BINARY, chunk);
      outbound.Write(frame.value);
    }
  }

  ghost predicate Encodes(enc: Message -> Bytes, make: (nat, Bytes) -> Message, masks: nat -> Mask) {
    forall d, chunk {:trigger Ours(BINARY, masks(d), chunk)} ::
      enc(make(d, chunk)) == Encode(Ours(BINARY, masks(d), chunk))
  }

  lemma Assembled(m: Message)
    ensures Head(m) + LengthField(|m.payload|) + Key(m) + Body(m) == Encode(m)
  {
    var (h, l, k, b) := (Head(m), LengthField(|m.payload|), Key(m), Body(m));
    Reassociate(h + l, k, b);
    Reassociate(h, l, k + b);
  }

  /** The eight length bytes, from the top. */
  method AppendLength(frame: Bytes, n: nat) returns (r: Bytes)
    ensures r == frame + BigEndianBytes(n, 8)
  {
    r := frame;
    var i := 8;
    while i > 0
      invariant 0 <= i <= 8 && r + BigEndianBytes(n, i) == frame + BigEndianBytes(n, 8)
    {
      BigEndianTail(n, i);
      i := i - 1;
      ghost var before := r;
      r := r + [(n / Pow256(i)) % 256];
      Reassociate(before, [(n / Pow256(i)) % 256], BigEndianBytes(n, i));
    }
    assert r + [] == r;
  }

  method AppendMasked(frame: Bytes, payload: Bytes, mask: Mask) returns (r: Bytes)
    ensures r == frame + Masked(payload, mask)
  {
    r := frame;
    var i := 0;
    while i < |payload|
      invariant 0 <= i <= |payload| && r == frame + Masked(payload, mask)[..i]
    {
      r := r + [Xor(payload[i], mask[i % 4])];
      i := i + 1;
    }
  }

  // ---- streams of frames --------------------------------------------------------------

  function Encoder(): Message -> Bytes { m => Encode(m) }

  function Joined(enc: Message -> Bytes, ms: seq<Message>): Bytes {
    if ms == [] then [] else enc(ms[0]) + Joined(enc, ms[1..])
  }

  function EncodeAll(ms: seq<Message>): Bytes { Joined(Encoder(), ms) }

  /** A payload cut into frames, which are made from the masks in turn. */
  function Cut(make: (nat, Bytes) -> Message, drawn: nat, p: Bytes): seq<Message>
    decreases |p|
  {
    if p == [] then []
    else
      var n := Min(|p|, MAX_FRAME_PAYLOAD);
      [make(drawn, p[..n])] + Cut(make, drawn + 1, p[n..])
  }

  function DataFrame(masks: nat -> Mask): (nat, Bytes) -> Message {
    (drawn: nat, chunk: Bytes) => Ours(BINARY, masks(drawn), chunk)
  }

  /** The frames of one Write. */
  function ClientFrames(masks: nat -> Mask, drawn: nat, p: Bytes): seq<Message> { Cut(DataFrame(masks), drawn, p) }

  /** The wire and the masks drawn once the rest of a write is out. */
  ghost function Finish(enc: Message -> Bytes, make: (nat, Bytes) -> Message, data: Bytes, drawn: nat,
                        rest: Bytes): (Bytes, nat) {
    (data + Joined(enc, Cut(make, drawn, rest)), drawn + |Cut(make, drawn, rest)|)
  }

  lemma FinishStep(enc: Message -> Bytes, make: (nat, Bytes) -> Message, data: Bytes, drawn: nat, rest: Bytes)
    requires rest != []
    ensures var n := Min(|rest|, MAX_FRAME_PAYLOAD);
            Finish(enc, make, data, drawn, rest)
              == Finish(enc, make, data + enc(make(drawn, rest[..n])), drawn + 1, rest[n..])
  {
    var n := Min(|rest|, MAX_FRAME_PAYLOAD);
    var (frame, tail) := (make(drawn, rest[..n]), Cut(make, drawn + 1, rest[n..]));
    JoinedCons(enc, frame, tail);
    Reassociate(data, enc(frame), Joined(enc, tail));
  }

  lemma JoinedCons(enc: Message -> Bytes, m: Message, ms: seq<Message>)
    ensures Joined(enc, [m] + ms) == enc(m) + Joined(enc, ms)
  {
    assert ([m] + ms)[0] == m && ([m] + ms)[1..] == ms;
  }

  // ---- the stream arrives as it was sent --------------------------------------------

  /** Frames that carry the stream on: data that is not empty, and pings and pongs
      anywhere between. */
  ghost predicate Carries(m: Message) {
    IsMessage(m) && (IsData(m) ==> m.payload != []) && (IsData(m) || m.opcode == 0x9 || m.opcode == 0xA)
  }

  predicate IsData(m: Message) { m.opcode == 0x0 || m.opcode == 0x2 }

  ghost predicate AllCarry(ms: seq<Message>) { forall m :: m in ms ==> Carries(m) }

  /** The data of a stream of frames. */
  function Data(ms: seq<Message>): Bytes {
    if ms == [] then [] else (if IsData(ms[0]) then ms[0].payload else []) + Data(ms[1..])
  }

  /** What has been sent, and the masks drawn, once every ping is answered: one pong
      per ping of at most 125 bytes, with its payload, in order. */
  function Answered(masks: nat -> Mask, sent: Bytes, drawn: nat, ms: seq<Message>): (Bytes, nat)
    decreases ms
  {
    if ms == [] then (sent, drawn)
    else if ms[0].opcode == 0x9 && |ms[0].payload| <= 125 then
      Answered(masks, sent + Encode(Message(true, 0xA, Some(masks(drawn)), ms[0].payload)), drawn + 1, ms[1..])
    else Answered(masks, sent, drawn, ms[1..])
  }

  /** The wire holds the given frames; or, after a cut, a part of them. */
  ghost predicate Holds(wire: Bytes, rest: seq<Message>, whole: bool) {
    AllCarry(rest) && (if whole then wire == EncodeAll(rest) else wire <= EncodeAll(rest))
  }

  /** The first frame of the wire, or the end of a cut wire. */
  lemma FirstFrame(wire: Bytes, rest: seq<Message>, whole: bool)
    requires Holds(wire, rest, whole) && rest != []
    ensures ParseFrame(wire) == Short
            || (ParseFrame(wire).Parsed? && ParseFrame(wire).opcode == rest[0].opcode
                && ParseFrame(wire).payload == rest[0].payload && Holds(ParseFrame(wire).after, rest[1..], whole))
    ensures whole ==> ParseFrame(wire) != Short
  {
    var (m, tail) := (rest[0], rest[1..]);
    assert m in rest && AllCarry(tail);
    JoinedCons(Encoder(), m, tail);
    assert rest == [m] + tail;
    FrameRoundTrip(m, wire, EncodeAll(tail));
    if whole { TakePrefix(wire, Encode(m), EncodeAll(tail), |Encode(m)|); }
  }

  /** What a readFrame does to a stream: it gives up the pings and pongs up to the
      next data frame, answers the pings, and buffers the data; or the wire is used
      up. */
  ghost predicate Followed(masks: nat -> Mask, s: State, rest: seq<Message>, whole: bool, s': State, o: Outcome,
                           rest': seq<Message>) {
    if o == Fine then
      && |s'.buf| > |s.buf| && Holds(s'.wire, rest', whole)
      && s'.buf + Data(rest') == s.buf + Data(rest)
      && Answered(masks, s'.sent, s'.drawn, rest') == Answered(masks, s.sent, s.drawn, rest)
    else
      && o == Ended && s'.buf == s.buf && s'.wire == []
      && (whole ==> Data(rest) == [] && (s'.sent, s'.drawn) == Answered(masks, s.sent, s.drawn, rest))
  }

  lemma EmptyWireReadsNothing(masks: nat -> Mask, s: State)
    requires s.wire == []
    ensures ReadFrame(masks, s) == (s, Ended)
  {
  }

  lemma ReadsOne(masks: nat -> Mask, s: State)
    requires ParseFrame(s.wire).Parsed?
    ensures var p := ParseFrame(s.wire);
            ReadFrame(masks, s) == AfterFrame(masks, s.(wire := p.after), p.opcode, p.payload)
  {
  }

  lemma DataStep(masks: nat -> Mask, s: State, m: Message, rest: seq<Message>, whole: bool)
    requires IsData(m) && Carries(m) && Holds(s.wire, rest, whole)
    ensures var (s', o) := AfterFrame(masks, s, m.opcode, m.payload); Followed(masks, s, [m] + rest, whole, s', o, rest)
  {
    assert ([m] + rest)[1..] == rest;
    Reassociate(s.buf, m.payload, Data(rest));
  }

  lemma DataBehind(m: Message, rest: seq<Message>)
    ensures Data([m] + rest) == (if IsData(m) then m.payload else []) + Data(rest)
  {
    assert ([m] + rest)[1..] == rest;
  }

  lemma AnsweredBehind(masks: nat -> Mask, s: State, m: Message, rest: seq<Message>)
    ensures var s' := if m.opcode == PING then Answer(masks, s, m.payload) else s;
            Answered(masks, s'.sent, s'.drawn, rest) == Answered(masks, s.sent, s.drawn, [m] + rest)
  {
    AnsweredFirst(masks, s, m, rest, [m] + rest);
  }

  lemma AnsweredFirst(masks: nat -> Mask, s: State, m: Message, rest: seq<Message>, all: seq<Message>)
    requires all == [m] + rest
    ensures var s' := if m.opcode == PING then Answer(masks, s, m.payload) else s;
            Answered(masks, s'.sent, s'.drawn, rest) == Answered(masks, s.sent, s.drawn, all)
  {
    assert all[0] == m && all[1..] == rest;
  }

  lemma ControlStep(masks: nat -> Mask, s: State, m: Message, rest: seq<Message>)
    requires Carries(m) && !IsData(m)
    ensures Data([m] + rest) == Data(rest)
    ensures var s' := if m.opcode == PING then Answer(masks, s, m.payload) else s;
            && AfterFrame(masks, s, m.opcode, m.payload) == ReadFrame(masks, s')
            && s'.buf == s.buf && s'.wire == s.wire
            && Answered(masks, s'.sent, s'.drawn, rest) == Answered(masks, s.sent, s.drawn, [m] + rest)
  {
    DataBehind(m, rest);
    AnsweredBehind(masks, s, m, rest);
  }

  /** One step of readFrame: the wire is used up, or the first frame is taken. */
  lemma NextStep(masks: nat -> Mask, s: State, rest: seq<Message>, whole: bool) returns (after: State)
    requires Holds(s.wire, rest, whole) && rest != []
    ensures (!whole && ReadFrame(masks, s) == (s.(wire := []), Ended))
            || (after == s.(wire := after.wire) && Holds(after.wire, rest[1..], whole)
                && ReadFrame(masks, s) == AfterFrame(masks, after, rest[0].opcode, rest[0].payload))
  {
    FirstFrame(s.wire, rest, whole);
    var p := ParseFrame(s.wire);
    if p == Short {
      after := s;
      assert ReadFrame(masks, s) == (s.(wire := []), Ended);
    } else {
      after := s.(wire := p.after);
      ReadsOne(masks, s);
    }
  }

  lemma {:induction false} ReadFrameFollows(masks: nat -> Mask, s: State, rest: seq<Message>, whole: bool)
    returns (rest': seq<Message>)
    requires Holds(s.wire, rest, whole)
    ensures var (s', o) := ReadFrame(masks, s); Followed(masks, s, rest, whole, s', o, rest')
    decreases rest
  {
    rest' := rest;
    if rest == [] {
      EmptyWireReadsNothing(masks, s);
      return;
    }
    var after := NextStep(masks, s, rest, whole);
    if !whole && ReadFrame(masks, s) == (s.(wire := []), Ended) { return; }
    var m := rest[0];
    assert m in rest && rest == [m] + rest[1..];
    if IsData(m) {
      rest' := rest[1..];
      DataStep(masks, after, m, rest', whole);
    } else {
      ControlStep(masks, after, m, rest[1..]);
      var next := if m.opcode == PING then Answer(masks, after, m.payload) else after;
      rest' := ReadFrameFollows(masks, next, rest[1..], whole);
    }
  }

  lemma FromBufferSplits(s: State, size: nat)
    ensures var (s', got) := FromBuffer(s, size);
            && (got == None <==> s.buf == [] && size > 0) && s' == s.(buf := s'.buf)
            && (got.Some? ==> got.value + s'.buf == s.buf && (s.buf != [] && size > 0 ==> |got.value| > 0))
  {
  }

  /** What a read has done to a stream: it delivered the front of what is buffered or
      framed, or the wire is used up. */
  ghost predicate Got(masks: nat -> Mask, s: State, rest: seq<Message>, whole: bool, size: nat, s': State,
                      got: Option<Bytes>, rest': seq<Message>) {
    && (got.Some? ==> Holds(s'.wire, rest', whole)
                      && got.value + (s'.buf + Data(rest')) == s.buf + Data(rest)
                      && (size > 0 ==> |got.value| > 0)
                      && Answered(masks, s'.sent, s'.drawn, rest') == Answered(masks, s.sent, s.drawn, rest))
    && (got.None? ==> s.buf == [] && s'.buf == [] && s'.wire == []
                      && (whole ==> Data(rest) == [] && (s'.sent, s'.drawn) == Answered(masks, s.sent, s.drawn, rest)))
  }

  lemma GotFromBuffer(masks: nat -> Mask, s: State, rest: seq<Message>, whole: bool, size: nat)
    requires s.buf != [] && Holds(s.wire, rest, whole)
    ensures var (s', got) := FromBuffer(s, size); Got(masks, s, rest, whole, size, s', got, rest)
  {
    var (s', got) := FromBuffer(s, size);
    FromBufferSplits(s, size);
    Reassociate(got.value, s'.buf, Data(rest));
  }

  lemma GotAfterFrame(masks: nat -> Mask, s: State, rest: seq<Message>, whole: bool, size: nat, s1: State,
                      rest': seq<Message>)
    requires s.buf == [] && Followed(masks, s, rest, whole, s1, Fine, rest')
    ensures var (s', got) := FromBuffer(s1, size); Got(masks, s, rest, whole, size, s', got, rest')
  {
    GotFromBuffer(masks, s1, rest', whole, size);
  }

  /** One read: what it delivers comes off the front of what is buffered or framed. */
  lemma ReadSomeFollows(masks: nat -> Mask, s: State, rest: seq<Message>, whole: bool, size: nat)
    returns (rest': seq<Message>)
    requires Holds(s.wire, rest, whole)
    ensures var (s', got) := ReadSome(masks, s, size); Got(masks, s, rest, whole, size, s', got, rest')
  {
    rest' := rest;
    if s.buf != [] {
      GotFromBuffer(masks, s, rest, whole, size);
    } else {
      var (s1, o) := ReadFrame(masks, s);
      rest' := ReadFrameFollows(masks, s, rest, whole);
      if o == Fine { GotAfterFrame(masks, s, rest, whole, size, s1, rest'); }
    }
  }

  /** Any number of reads with any buffer sizes: what they deliver, in order. */
  function Delivered(masks: nat -> Mask, s: State, sizes: seq<nat>): (State, Bytes)
    decreases sizes
  {
    if sizes == [] then (s, [])
    else
      var (s1, got) := ReadSome(masks, s, sizes[0]);
      var (s2, more) := Delivered(masks, s1, sizes[1..]);
      (s2, (if got.Some? then got.value else []) + more)
  }

  lemma {:induction false} SilentAfterTheEnd(masks: nat -> Mask, s: State, sizes: seq<nat>)
    requires s.wire == [] && s.buf == []
    ensures Delivered(masks, s, sizes) == (s, [])
    decreases sizes
  {
    if sizes != [] {
      EmptyWireReadsNothing(masks, s);
      SilentAfterTheEnd(masks, s, sizes[1..]);
      assert ReadSome(masks, s, sizes[0]) == (s, None);
      var more: Bytes := Delivered(masks, s, sizes[1..]).1;
      assert more == [] && [] + more == [];
    }
  }

  /** For any frames that carry data with pings and pongs in between, any cut of the
      wire and any reads: the bytes read are a prefix of the data in order. On the
      uncut wire, enough non-empty reads give all of it, and once a read finds the
      wire used up every ping has had its pong. */
  lemma {:induction false} InterleavedRoundTrip(masks: nat -> Mask, s: State, ms: seq<Message>, whole: bool,
                                                sizes: seq<nat>)
    requires Holds(s.wire, ms, whole)
    ensures var (s', got) := Delivered(masks, s, sizes);
            && got <= s.buf + Data(ms)
            && (whole && AllPositive(sizes) ==>
                  && (|sizes| >= |s.buf + Data(ms)| ==> got == s.buf + Data(ms))
                  && (|sizes| > |s.buf + Data(ms)|
                     ==> s'.wire == [] && (s'.sent, s'.drawn) == Answered(masks, s.sent, s.drawn, ms)))
    decreases sizes
  {
    if sizes == [] { return; }
    var rest := ReadSomeFollows(masks, s, ms, whole, sizes[0]);
    var (s1, got) := ReadSome(masks, s, sizes[0]);
    if got.None? {
      SilentAfterTheEnd(masks, s1, sizes[1..]);
      return;
    }
    InterleavedRoundTrip(masks, s1, rest, whole, sizes[1..]);
    PrefixAppend(got.value, Delivered(masks, s1, sizes[1..]).1, s1.buf + Data(rest));
    assert |s.buf + Data(ms)| == |got.value| + |s1.buf + Data(rest)|;
  }

  /** The frames of a write carry exactly its bytes. */
  lemma {:induction false} ClientFramesCarry(masks: nat -> Mask, drawn: nat, p: Bytes)
    ensures AllCarry(ClientFrames(masks, drawn, p)) && Data(ClientFrames(masks, drawn, p)) == p
    decreases |p|
  {
    if p != [] {
      var n := Min(|p|, MAX_FRAME_PAYLOAD);
      var (frame, tail) := (Ours(BINARY, masks(drawn), p[..n]), ClientFrames(masks, drawn + 1, p[n..]));
      ClientFramesCarry(masks, drawn + 1, p[n..]);
      assert ClientFrames(masks, drawn, p) == [frame] + tail;
      assert Carries(frame) && frame.payload == p[..n];
      assert ([frame] + tail)[1..] == tail && p == p[..n] + p[n..];
    }
  }

  /** A write read back through a peer with any masks of its own: its bytes, in order,
      whatever the sizes of the reads. */
  lemma WriteReadsBack(masks: nat -> Mask, drawn: nat, p: Bytes, peerMasks: nat -> Mask, peer: State, sizes: seq<nat>)
    requires peer.buf == [] && peer.wire == EncodeAll(ClientFrames(masks, drawn, p))
    ensures Delivered(peerMasks, peer, sizes).1 <= p
    ensures AllPositive(sizes) && |sizes| >= |p| ==> Delivered(peerMasks, peer, sizes).1 == p
  {
    ClientFramesCarry(masks, drawn, p);
    assert [] + p == p;
    InterleavedRoundTrip(peerMasks, peer, ClientFrames(masks, drawn, p), true, sizes);
  }

  lemma DataFrameTaken(masks: nat -> Mask, s: State, m: Message, after: Bytes)
    requires IsMessage(m) && IsData(m) && s.wire == Encode(m) + after
    ensures ReadFrame(masks, s) == (s.(buf := s.buf + m.payload, wire := after), Fine)
  {
    FrameRoundTrip(m, s.wire, after);
    TakePrefix(s.wire, Encode(m), after, |Encode(m)|);
    ReadsOne(masks, s);
  }

  /** A non-empty read that meets a data frame reports the end of the file exactly if
      the frame is empty, though the stream goes on behind it; otherwise it delivers
      the front of the frame. */
  lemma EmptyFrameReadsAsEndIff(masks: nat -> Mask, s: State, m: Message, after: Bytes, size: nat)
    requires s.buf == [] && IsMessage(m) && IsData(m) && s.wire == Encode(m) + after && size > 0
    ensures var (s', got) := ReadSome(masks, s, size);
            && (got == None <==> m.payload == [])
            && s'.wire == after && (got.Some? ==> got.value + s'.buf == m.payload)
  {
    DataFrameTaken(masks, s, m, after);
    assert [] + m.payload == m.payload;
    ReadAfter(masks, s, s.(buf := m.payload, wire := after), size);
    FromBufferSplits(s.(buf := m.payload, wire := after), size);
  }

  lemma ReadAfter(masks: nat -> Mask, s: State, s1: State, size: nat)
    requires s.buf == [] && ReadFrame(masks, s) == (s1, Fine)
    ensures ReadSome(masks, s, size) == FromBuffer(s1, size)
  {
  }

  // ---- frames that come with the upgrade response ---------------------------------------

  lemma {:induction false} DataSplit(a: seq<Message>, b: seq<Message>)
    ensures Data(a + b) == Data(a) + Data(b)
  {
    if a == [] {
      assert a + b == b;
    } else {
      DataSplit(a[1..], b);
      assert a == [a[0]] + a[1..] && a + b == [a[0]] + (a[1..] + b);
      DataBehind(a[0], a[1..]);
      DataBehind(a[0], a[1..] + b);
      Reassociate(if IsData(a[0]) then a[0].payload else [], Data(a[1..]), Data(b));
    }
  }

  lemma {:induction false} FramesAreLonger(ms: seq<Message>)
    ensures |EncodeAll(ms)| >= |Data(ms)| + 2 * |ms|
  {
    if ms != [] {
      FramesAreLonger(ms[1..]);
      JoinedCons(Encoder(), ms[0], ms[1..]);
      assert ms == [ms[0]] + ms[1..];
      assert |Encode(ms[0])| >= 2 + |ms[0].payload|;
    }
  }

  /** Frames that the HTTP reader had already buffered are put into the read buffer as
      they are: reads deliver the data of the whole stream exactly if no frame came
      with the upgrade response. */
  lemma BufferedFramesReadRawIff(masks: nat -> Mask, s: State, early: seq<Message>, late: seq<Message>, sizes: seq<nat>)
    requires s.buf == EncodeAll(early) && Holds(s.wire, late, true)
    requires AllPositive(sizes) && |sizes| >= |s.buf + Data(late)|
    ensures Delivered(masks, s, sizes).1 == Data(early + late) <==> early == []
  {
    InterleavedRoundTrip(masks, s, late, true, sizes);
    DataSplit(early, late);
    FramesAreLonger(early);
  }

  predicate AllPositive(sizes: seq<nat>) { forall i :: 0 <= i < |sizes| ==> sizes[i] > 0 }

  /** What is buffered is delivered first, as it is, without touching the wire; then come
      the bytes that the wire gives to the remaining reads. */
  lemma {:induction false} BufferedComesFirst(masks: nat -> Mask, s: State, sizes: seq<nat>) returns (j: nat)
    requires AllPositive(sizes) && |sizes| >= |s.buf|
    ensures j <= |sizes|
    ensures var (r, more) := Delivered(masks, s.(buf := []), sizes[j..]);
            Delivered(masks, s, sizes) == (r, s.buf + more)
    decreases sizes
  {
    if s.buf == [] {
      j := 0;
      var more: Bytes := Delivered(masks, s, sizes).1;
      assert s.(buf := []) == s && sizes[0..] == sizes && [] + more == more;
    } else {
      var n := Min(sizes[0], |s.buf|);
      var s1 := s.(buf := s.buf[n..]);
      var i := BufferedComesFirst(masks, s1, sizes[1..]);
      j := i + 1;
      assert sizes[1..][i..] == sizes[j..] && s1.(buf := []) == s.(buf := []);
      DeliveredStep(masks, s, sizes, s1, s.buf[..n]);
      SplitBuffer(s.buf, n, Delivered(masks, s.(buf := []), sizes[j..]).1);
    }
  }

  lemma DeliveredStep(masks: nat -> Mask, s: State, sizes: seq<nat>, s1: State, got: Bytes)
    requires sizes != [] && ReadSome(masks, s, sizes[0]) == (s1, Some(got))
    ensures var (r, more) := Delivered(masks, s1, sizes[1..]); Delivered(masks, s, sizes) == (r, got + more)
  {
  }

  lemma SplitBuffer(buf: Bytes, n: nat, more: Bytes)
    requires n <= |buf|
    ensures buf[..n] + (buf[n..] + more) == buf + more
  {
    assert buf == buf[..n] + buf[n..];
  }

  lemma NothingBuffered(masks: nat -> Mask, s: State, ms: seq<Message>, sizes: seq<nat>)
    requires AllCarry(ms) && s.buf == [] && s.wire == EncodeAll(ms)
    requires AllPositive(sizes) && |sizes| >= |EncodeAll(ms)|
    ensures Delivered(masks, s, sizes).1 == Data(ms)
  {
    FramesAreLonger(ms);
    InterleavedRoundTrip(masks, s, ms, true, sizes);
    assert [] + Data(ms) == Data(ms);
  }

  lemma FirstRawByte(ms: seq<Message>, k: nat, more: Bytes)
    requires ms != [] && 0 < k <= |EncodeAll(ms)| && EncodeAll(ms)[..k] + more == Data(ms)
    ensures Data(ms) != [] && Data(ms)[0] == Head(ms[0])[0]
  {
    JoinedCons(Encoder(), ms[0], ms[1..]);
    assert ms == [ms[0]] + ms[1..];
    assert (EncodeAll(ms)[..k] + more)[0] == EncodeAll(ms)[0] == Encode(ms[0])[0] == Head(ms[0])[0];
  }

  /** The HTTP reader may have buffered any front of the stream, cut inside a frame. Reads
      deliver that front raw, then whatever the rest of the wire parses to from where it
      was cut. So with anything buffered at all, the data is right only where its first
      byte happens to be the head byte of the first frame. */
  lemma BufferedPrefixReadsRaw(masks: nat -> Mask, s: State, ms: seq<Message>, k: nat, sizes: seq<nat>) returns (j: nat)
    requires AllCarry(ms) && ms != [] && k <= |EncodeAll(ms)|
    requires s.buf == EncodeAll(ms)[..k] && s.wire == EncodeAll(ms)[k..]
    requires AllPositive(sizes) && |sizes| >= |EncodeAll(ms)|
    ensures j <= |sizes|
    ensures Delivered(masks, s, sizes).1
            == EncodeAll(ms)[..k] + Delivered(masks, State([], EncodeAll(ms)[k..], s.sent, s.drawn), sizes[j..]).1
    ensures k == 0 ==> Delivered(masks, s, sizes).1 == Data(ms)
    ensures k > 0 && Delivered(masks, s, sizes).1 == Data(ms) ==> Data(ms) != [] && Data(ms)[0] == Head(ms[0])[0]
  {
    j := BufferedComesFirst(masks, s, sizes);
    assert s.(buf := []) == State([], EncodeAll(ms)[k..], s.sent, s.drawn);
    var more: Bytes := Delivered(masks, s.(buf := []), sizes[j..]).1;
    if k == 0 {
      NothingBuffered(masks, s, ms, sizes);
    } else if Delivered(masks, s, sizes).1 == Data(ms) {
      FirstRawByte(ms, k, more);
    }
  }

  /** Where it does, even a stream cut inside a frame can come out right. */
  lemma RawBytesMayCoincide(masks: nat -> Mask)
    ensures var m := Message(true, BINARY, None, [0x82, 0x02]);
            && AllCarry([m]) && EncodeAll([m]) == [0x82, 0x02] + [0x82, 0x02]
            && Delivered(masks, State([0x82, 0x02], [0x82, 0x02], [], 0), [2, 2]).1 == Data([m])
  {
    var m := Message(true, BINARY, None, [0x82, 0x02]);
    var raw: Bytes := [0x82, 0x02];
    var sizes: seq<nat> := [2, 2];
    var (s, s1) := (State(raw, raw, [], 0), State([], raw, [], 0));
    JoinedCons(Encoder(), m, []);
    assert [m] + [] == [m] && Encode(m) == raw + raw;
    assert raw[2..] == [] && raw[..2] == raw;
    assert ReadSome(masks, s, 2) == (s1, Some(raw));
    CutFrame(masks, s1);
    assert sizes[1..] == [2] && sizes[1..][1..] == [];
    DeliveredStep(masks, s, sizes, s1, raw);
    assert Data([m]) == raw + Data([m][1..]) && [m][1..] == [];
  }

  lemma CutFrame(masks: nat -> Mask, s: State)
    requires s.buf == [] && s.wire == [0x82, 0x02]
    ensures Delivered(masks, s, [2]) == (s.(wire := []), [])
  {
    assert Taken(s.wire, 2).1 == [];
    assert ParseFrame(s.wire) == Short;
    assert ReadSome(masks, s, 2) == (s.(wire := []), None);
    var more: Bytes := Delivered(masks, s.(wire := []), [2][1..]).1;
    assert more == [] && [] + more == [];
  }
}
