/** How a stream of WebSocket frames ends: at a close frame or at one that readFrame does
    not know; and what the frames of a write and a pong look like, byte by byte. */
module WebSocketEnd {
  import opened Numbers
  import opened Options
  import opened Streams
  import opened Nonce
  import opened WebSocket

  // ---- a frame that ends the stream ---------------------------------------------------

  /** Not data, not a ping, not a pong: a close frame, a text frame, a reserved opcode. */
  ghost predicate EndsStream(m: Message) { IsMessage(m) && m.opcode !in {0x0, 0x2, 0x9, 0xA} }

  /** readFrame stops at such a frame: its payload is not delivered, nothing is sent, and
      what follows stays on the wire. */
  lemma EndingFrameTaken(masks: nat -> Mask, s: State, m: Message, after: Bytes)
    requires IsMessage(m) && m.opcode !in {0x0, 0x2, 0x9, 0xA} && s.wire == Encode(m) + after
    ensures ReadFrame(masks, s) == (State(s.buf, after, s.sent, s.drawn), Ended)
  {
    FrameRoundTrip(m, s.wire, after);
    TakePrefix(s.wire, Encode(m), after, |Encode(m)|);
    ReadsOne(masks, s);
  }

  /** So a read with nothing buffered reports the end there, whatever its size. */
  lemma EndingFrameReadsAsEnd(masks: nat -> Mask, s: State, m: Message, after: Bytes, size: nat)
    requires IsMessage(m) && m.opcode !in {0x0, 0x2, 0x9, 0xA} && s.wire == Encode(m) + after && s.buf == []
    ensures ReadSome(masks, s, size) == (State([], after, s.sent, s.drawn), None)
  {
    EndingFrameTaken(masks, s, m, after);
    EndsRead(masks, s, State([], after, s.sent, s.drawn), size);
  }

  lemma EndsRead(masks: nat -> Mask, s: State, s1: State, size: nat)
    requires s.buf == [] && ReadFrame(masks, s) == (s1, Ended)
    ensures ReadSome(masks, s, size) == (s1, None)
  {
  }

  // ---- a stream up to its end -----------------------------------------------------------

  /** The wire holds the frames, the one that ends the stream, and whatever follows. */
  ghost predicate HoldsUntil(wire: Bytes, rest: seq<Message>, m: Message, after: Bytes) {
    AllCarry(rest) && EndsStream(m) && wire == EncodeAll(rest) + (Encode(m) + after)
  }

  /** What a readFrame does to such a stream: it buffers the next data and answers the pings
      before it; or it has come to the end, with every ping answered. */
  ghost predicate FollowedUntil(masks: nat -> Mask, s: State, rest: seq<Message>, m: Message, after: Bytes,
                                s': State, o: Outcome, rest': seq<Message>) {
    if o == Fine then
      && |s'.buf| > |s.buf| && HoldsUntil(s'.wire, rest', m, after)
      && s'.buf + Data(rest') == s.buf + Data(rest)
      && Answered(masks, s'.sent, s'.drawn, rest') == Answered(masks, s.sent, s.drawn, rest)
    else
      && o == Ended && s'.buf == s.buf && s'.wire == after && Data(rest) == []
      && (s'.sent, s'.drawn) == Answered(masks, s.sent, s.drawn, rest)
  }

  lemma WireUntil(wire: Bytes, first: Message, tail: Bytes)
    requires IsMessage(first) && wire == Encode(first) + tail
    ensures ParseFrame(wire) == Parsed(first.opcode, first.payload, tail)
  {
    FrameRoundTrip(first, wire, tail);
    TakePrefix(wire, Encode(first), tail, |Encode(first)|);
  }

  lemma FirstUntil(rest: seq<Message>, m: Message, after: Bytes)
    requires rest != [] && AllCarry(rest) && EndsStream(m)
    ensures EncodeAll(rest) + (Encode(m) + after) == Encode(rest[0]) + (EncodeAll(rest[1..]) + (Encode(m) + after))
    ensures IsMessage(rest[0]) && HoldsUntil(EncodeAll(rest[1..]) + (Encode(m) + after), rest[1..], m, after)
  {
    assert rest[0] in rest && rest == [rest[0]] + rest[1..];
    JoinedCons(Encoder(), rest[0], rest[1..]);
    Reassociate(Encode(rest[0]), EncodeAll(rest[1..]), Encode(m) + after);
  }

  lemma FirstFrameUntil(masks: nat -> Mask, s: State, rest: seq<Message>, m: Message, after: Bytes) returns (s1: State)
    requires HoldsUntil(s.wire, rest, m, after) && rest != []
    ensures s1 == s.(wire := s1.wire) && HoldsUntil(s1.wire, rest[1..], m, after)
    ensures ReadFrame(masks, s) == AfterFrame(masks, s1, rest[0].opcode, rest[0].payload)
  {
    var tail := EncodeAll(rest[1..]) + (Encode(m) + after);
    FirstUntil(rest, m, after);
    WireUntil(s.wire, rest[0], tail);
    s1 := s.(wire := tail);
    ReadsOne(masks, s);
  }

  lemma DataUntil(masks: nat -> Mask, s: State, first: Message, rest: seq<Message>, m: Message, after: Bytes)
    requires IsData(first) && Carries(first) && HoldsUntil(s.wire, rest, m, after)
    ensures var (s', o) := AfterFrame(masks, s, first.opcode, first.payload);
            FollowedUntil(masks, s, [first] + rest, m, after, s', o, rest)
  {
    DataBehind(first, rest);
    AnsweredBehind(masks, s, first, rest);
    Reassociate(s.buf, first.payload, Data(rest));
  }

  lemma {:induction false} ReadFrameUntil(masks: nat -> Mask, s: State, rest: seq<Message>, m: Message, after: Bytes)
    returns (rest': seq<Message>)
    requires HoldsUntil(s.wire, rest, m, after)
    ensures var (s', o) := ReadFrame(masks, s); FollowedUntil(masks, s, rest, m, after, s', o, rest')
    decreases rest
  {
    rest' := rest;
    if rest == [] {
      assert EncodeAll(rest) + (Encode(m) + after) == Encode(m) + after;
      EndingFrameTaken(masks, s, m, after);
      return;
    }
    var s1 := FirstFrameUntil(masks, s, rest, m, after);
    var first := rest[0];
    assert first in rest && rest == [first] + rest[1..];
    if IsData(first) {
      rest' := rest[1..];
      DataUntil(masks, s1, first, rest', m, after);
    } else {
      ControlStep(masks, s1, first, rest[1..]);
      var next := if first.opcode == PING then Answer(masks, s1, first.payload) else s1;
      rest' := ReadFrameUntil(masks, next, rest[1..], m, after);
    }
  }

  /** What a read does to such a stream. */
  ghost predicate GotUntil(masks: nat -> Mask, s: State, rest: seq<Message>, m: Message, after: Bytes, size: nat,
                           s': State, got: Option<Bytes>, rest': seq<Message>) {
    && (got.Some? ==> HoldsUntil(s'.wire, rest', m, after)
                      && got.value + (s'.buf + Data(rest')) == s.buf + Data(rest) && (size > 0 ==> |got.value| > 0)
                      && Answered(masks, s'.sent, s'.drawn, rest') == Answered(masks, s.sent, s.drawn, rest))
    && (got.None? ==> s.buf == [] && s'.buf == [] && s'.wire == after && Data(rest) == []
                      && (s'.sent, s'.drawn) == Answered(masks, s.sent, s.drawn, rest))
  }

  lemma BufferUntil(masks: nat -> Mask, s: State, rest: seq<Message>, m: Message, after: Bytes, size: nat)
    requires s.buf != [] && HoldsUntil(s.wire, rest, m, after)
    ensures var (s', got) := FromBuffer(s, size); GotUntil(masks, s, rest, m, after, size, s', got, rest)
  {
    var (s', got) := FromBuffer(s, size);
    FromBufferSplits(s, size);
    Reassociate(got.value, s'.buf, Data(rest));
  }

  lemma ReadUntil(masks: nat -> Mask, s: State, rest: seq<Message>, m: Message, after: Bytes, size: nat)
    returns (rest': seq<Message>)
    requires HoldsUntil(s.wire, rest, m, after)
    ensures var (s', got) := ReadSome(masks, s, size); GotUntil(masks, s, rest, m, after, size, s', got, rest')
  {
    rest' := rest;
    if s.buf != [] {
      BufferUntil(masks, s, rest, m, after, size);
    } else {
      var (s1, o) := ReadFrame(masks, s);
      rest' := ReadFrameUntil(masks, s, rest, m, after);
      if o == Fine { AfterFrameUntil(masks, s, rest, m, after, size, s1, rest'); }
    }
  }

  lemma AfterFrameUntil(masks: nat -> Mask, s: State, rest: seq<Message>, m: Message, after: Bytes, size: nat,
                        s1: State, rest': seq<Message>)
    requires s.buf == [] && FollowedUntil(masks, s, rest, m, after, s1, Fine, rest')
    ensures var (s', got) := FromBuffer(s1, size); GotUntil(masks, s, rest, m, after, size, s', got, rest')
  {
    BufferUntil(masks, s1, rest', m, after, size);
  }

  /** Reads, one after another, up to the first that reports the end: what they deliver,
      and whether one did. */
  function UntilEnd(masks: nat -> Mask, s: State, sizes: seq<nat>): (State, Bytes, bool)
    decreases sizes
  {
    if sizes == [] then (s, [], false)
    else
      var (s1, got) := ReadSome(masks, s, sizes[0]);
      if got.None? then (s1, [], true)
      else
        var (s2, more, ended) := UntilEnd(masks, s1, sizes[1..]);
        (s2, got.value + more, ended)
  }

  /** For any frames that carry data with pings and pongs in between, then a frame that ends
      the stream, then anything at all: non-empty reads deliver the data in order and no
      more, enough of them come to the end, and there every ping has had its pong and what
      follows the ending frame is still on the wire. */
  lemma {:induction false} StreamEndsAtEndingFrame(masks: nat -> Mask, s: State, ms: seq<Message>, m: Message,
                                                   after: Bytes, sizes: seq<nat>)
    requires AllCarry(ms) && IsMessage(m) && m.opcode !in {0x0, 0x2, 0x9, 0xA} && AllPositive(sizes)
    requires s.wire == EncodeAll(ms) + (Encode(m) + after)
    ensures var (s', got, ended) := UntilEnd(masks, s, sizes);
            && got <= s.buf + Data(ms)
            && (|sizes| > |s.buf + Data(ms)| ==> ended)
            && (ended ==> got == s.buf + Data(ms) && s'.buf == [] && s'.wire == after
                          && (s'.sent, s'.drawn) == Answered(masks, s.sent, s.drawn, ms))
    decreases sizes
  {
    if sizes == [] { return; }
    var rest := ReadUntil(masks, s, ms, m, after, sizes[0]);
    var (s1, got) := ReadSome(masks, s, sizes[0]);
    if got.None? {
      assert [] + Data(ms) == [];
      return;
    }
    StreamEndsAtEndingFrame(masks, s1, rest, m, after, sizes[1..]);
    PrefixAppend(got.value, UntilEnd(masks, s1, sizes[1..]).1, s1.buf + Data(rest));
    assert |s.buf + Data(ms)| == |got.value| + |s1.buf + Data(rest)|;
  }

  // ---- the bytes of our frames ------------------------------------------------------------

  lemma SliceBehind(p: Bytes, n: nat, a: nat, b: nat)
    requires a <= b && n + b <= |p|
    ensures p[n..][a..b] == p[n + a..n + b]
  {
  }

  /** A write of p is cut into frames of 16384 bytes, the last one shorter: each final,
      binary, and masked with the next mask. */
  lemma {:induction false} FramesOfWrite(masks: nat -> Mask, drawn: nat, p: Bytes, k: nat)
    requires k < |ClientFrames(masks, drawn, p)|
    ensures 16384 * k < |p|
    ensures ClientFrames(masks, drawn, p)[k]
            == Message(true, 0x2, Some(masks(drawn + k)), p[16384 * k..Min(|p|, 16384 * (k + 1))])
    decreases k
  {
    var n := Min(|p|, 16384);
    var rest := ClientFrames(masks, drawn + 1, p[n..]);
    assert ClientFrames(masks, drawn, p) == [Ours(0x2, masks(drawn), p[..n])] + rest;
    if k > 0 {
      FramesOfWrite(masks, drawn + 1, p[n..], k - 1);
      var (from, to) := (16384 * (k - 1), Min(|p| - n, 16384 * k));
      assert n == 16384;
      SliceBehind(p, n, from, to);
    }
  }

  /** There are as many as are needed. */
  lemma {:induction false} FrameCount(masks: nat -> Mask, drawn: nat, p: Bytes)
    ensures |ClientFrames(masks, drawn, p)| == (|p| + 16383) / 16384
    decreases |p|
  {
    if p != [] {
      var n := Min(|p|, 16384);
      FrameCount(masks, drawn + 1, p[n..]);
    }
  }

  /** Bit k of a number. */
  function Bit(n: nat, k: nat): nat { if k == 0 then n % 2 else Bit(n / 2, k - 1) }

  lemma {:induction false} XorAt(a: nat, b: nat, n: nat, k: nat)
    requires k < n
    ensures Bit(XorBits(a, b, n), k) == (Bit(a, k) + Bit(b, k)) % 2
    decreases n
  {
    BitAndRest((a % 2 + b % 2) % 2, XorBits(a / 2, b / 2, n - 1));
    if k > 0 { XorAt(a / 2, b / 2, n - 1, k - 1); }
  }

  /** A masked byte is, bit for bit, the exclusive or of payload and key. */
  lemma MaskedBits(payload: Bytes, mask: Mask, i: nat, k: nat)
    requires i < |payload| && k < 8
    ensures Bit(Masked(payload, mask)[i], k) == (if Bit(payload[i], k) == Bit(mask[i % 4], k) then 0 else 1)
  {
    XorAt(payload[i], mask[i % 4], 8, k);
    BitIsBit(payload[i], k);
    BitIsBit(mask[i % 4], k);
  }

  lemma {:induction false} BitIsBit(n: nat, k: nat)
    ensures Bit(n, k) < 2
    decreases k
  {
    if k > 0 { BitIsBit(n / 2, k - 1); }
  }

  // ---- the examples of section 5.7 of RFC 6455 ---------------------------------------------

  lemma Powers()
    ensures Pow256(0) == 1 && Pow256(1) == 0x100 && Pow256(2) == 0x1_0000 && Pow256(3) == 0x100_0000
    ensures Pow256(4) == 0x1_0000_0000 && Pow256(5) == 0x100_0000_0000 && Pow256(6) == 0x1_0000_0000_0000
    ensures Pow256(7) == 0x100_0000_0000_0000
  {
  }

  /** An unmasked ping with the body "Hello"; and what a masked pong of five bytes is: the
      head, the key, the masked body. */
  lemma HelloExample(m: Message)
    requires m.fin && m.payload == [0x48, 0x65, 0x6c, 0x6c, 0x6f]
    ensures m.opcode == 0x9 && m.mask == None ==> Encode(m) == [0x89, 0x05, 0x48, 0x65, 0x6c, 0x6c, 0x6f]
    ensures m.opcode == 0xA && m.mask.Some? ==>
              Encode(m) == [0x8a, 0x85] + (m.mask.value + Masked(m.payload, m.mask.value))
  {
    assert |m.payload| == 5;
  }

  /** The heads of unmasked binary messages of 256 bytes and of 64 KiB. */
  lemma LengthExamples(m: Message)
    requires m.fin && m.opcode == 0x2 && m.mask == None
    ensures |m.payload| == 256 ==> Head(m) + LengthField(|m.payload|) == [0x82, 0x7E, 0x01, 0x00]
    ensures |m.payload| == 65536 ==>
              Head(m) + LengthField(|m.payload|) == [0x82, 0x7F, 0x00, 0x00, 0x00, 0x00, 0x00, 0x01, 0x00, 0x00]
  {
    Powers();
  }

  // ---- lengths that do not fit ---------------------------------------------------------

  /** A 64-bit length of 2^63 or more becomes negative, and the reader crashes where it
      makes the buffer: nothing is buffered or sent, and the payload is left. */
  lemma HugeLengthCrashes(masks: nat -> Mask, s: State, head: byte, ext: Bytes, after: Bytes)
    requires |ext| == 8 && BigEndian(ext) >= 0x8000_0000_0000_0000 && s.wire == [head, 127] + (ext + after)
    ensures ReadFrame(masks, s) == (State(s.buf, after, s.sent, s.drawn), Crashed)
  {
    ExtendedLength(ext);
    assert s.wire[..2] == [head, 127] && s.wire[2..] == ext + after;
    assert (ext + after)[..8] == ext && (ext + after)[8..] == after;
    assert ParseFrame(s.wire) == BadLength(after);
  }
}
