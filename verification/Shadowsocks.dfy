/** The Shadowsocks AEAD stream, written in chunks and read back. */
module Shadowsocks {
  import opened Numbers
  import opened Options
  import opened Nonce
  import opened Streams

  /** The cipher of a method: key derivation, sealing and opening (without
      associated data). Its internals are arbitrary. */
  datatype Suite = Suite(
    saltLen: nat,
    nonceLen: nat,
    overhead: nat,
    derive: (Bytes, Bytes) -> Bytes,
    seal: (Bytes, Bytes, Bytes) -> Bytes,
    open: (Bytes, Bytes, Bytes) -> Option<Bytes>)

  ghost predicate Sound(x: Suite) {
    && x.saltLen > 0 && x.overhead > 0
    && (forall k, n, p :: |x.seal(k, n, p)| == |p| + x.overhead && x.open(k, n, x.seal(k, n, p)) == Some(p))
    && (forall k, n, c :: x.open(k, n, c).Some? ==> |x.open(k, n, c).value| + x.overhead == |c|)
  }

  const TAG: nat := 16

  /** A suite without secrecy, of the lengths of aes-128-gcm: sealing appends a tag of
      zeros, opening checks it. */
  function PlainSuite(): Suite {
    Suite(16, 12, TAG, (master, salt) => master, (key, nonce, p) => p + Zeros(TAG),
          (key, nonce, c) => if |c| >= TAG && c[|c| - TAG..] == Zeros(TAG) then Some(c[..|c| - TAG]) else None)
  }

  /** So the laws that the round trip asks of a suite can be met. */
  lemma PlainSuiteIsSound()
    ensures Sound(PlainSuite())
  {
    forall k: Bytes, n: Bytes, p: Bytes
      ensures PlainSuite().open(k, n, PlainSuite().seal(k, n, p)) == Some(p)
    {
      TagComesOff(p, Zeros(TAG));
    }
  }

  lemma TagComesOff(p: Bytes, tag: Bytes)
    ensures var c := p + tag; |c| >= |tag| && c[|c| - |tag|..] == tag && c[..|c| - |tag|] == p
  {
  }

  const MAX_CHUNK: nat := 0x3fff

  // ---- what is written ----------------------------------------------------------

  /** The chunks of one Write. */
  function Chunks(p: Bytes): (cs: seq<Bytes>) {
    if p == [] then []
    else if |p| <= MAX_CHUNK then [p]
    else [p[..MAX_CHUNK]] + Chunks(p[MAX_CHUNK..])
  }

  function LengthBytes(n: nat): Bytes
    requires n <= MAX_CHUNK
  {
    [n / 256, n % 256]
  }

  function BigEndian16(b: Bytes): (n: nat)
    requires |b| == 2
  {
    var hi: int := b[0];
    hi * 256 + b[1]
  }

  ghost predicate IsChunk(c: Bytes) { 0 < |c| <= MAX_CHUNK }

  ghost predicate AreChunks(cs: seq<Bytes>) { forall c :: c in cs ==> IsChunk(c) }

  /** One chunk on the wire: the sealed length, then the sealed payload, each with
      its own nonce. */
  function SealChunk(x: Suite, key: Bytes, nonce: Bytes, chunk: Bytes): Bytes
    requires |chunk| <= MAX_CHUNK
  {
    x.seal(key, nonce, LengthBytes(|chunk|)) + x.seal(key, Inc(nonce), chunk)
  }

  ghost function SealAll(x: Suite, key: Bytes, nonce: Bytes, cs: seq<Bytes>): Bytes
    requires AreChunks(cs)
    decreases cs
  {
    if cs == [] then []
    else
      assert cs[0] in cs;
      SealChunk(x, key, nonce, cs[0]) + SealAll(x, key, Inc(Inc(nonce)), cs[1..])
  }

  function Concat(cs: seq<Bytes>): Bytes {
    if cs == [] then [] else cs[0] + Concat(cs[1..])
  }

  lemma {:induction false} ChunksOf(p: Bytes)
    ensures AreChunks(Chunks(p)) && Concat(Chunks(p)) == p
    decreases |p|
  {
    if p == [] {
    } else if |p| <= MAX_CHUNK {
      assert Concat([p]) == p + Concat([p][1..]) == p;
    } else {
      ChunksOf(p[MAX_CHUNK..]);
      assert p == p[..MAX_CHUNK] + p[MAX_CHUNK..];
    }
  }

  lemma {:induction false} ConcatSplit(a: seq<Bytes>, b: seq<Bytes>)
    ensures Concat(a + b) == Concat(a) + Concat(b)
  {
    if a == [] {
      assert a + b == b && [] + Concat(b) == Concat(b);
    } else {
      ConcatSplit(a[1..], b);
      assert (a + b)[0] == a[0] && (a + b)[1..] == a[1..] + b;
      assert Concat(a + b) == a[0] + Concat(a[1..] + b);
      Reassociate(a[0], Concat(a[1..]), Concat(b));
    }
  }

  lemma TwoUses(nonce: Bytes, k: nat)
    ensures Advance(Inc(Inc(nonce)), k) == Advance(nonce, k + 2)
  {
    assert Advance(nonce, 2) == Inc(Advance(nonce, 1)) == Inc(Inc(nonce));
    AdvanceSum(nonce, 2, k);
  }

  lemma ChunkAhead(c: Bytes, cs: seq<Bytes>)
    requires AreChunks(cs) && IsChunk(c)
    ensures AreChunks([c] + cs) && ([c] + cs)[0] == c && ([c] + cs)[1..] == cs
  {
  }

  lemma SealAllFirst(x: Suite, key: Bytes, nonce: Bytes, c: Bytes, cs: seq<Bytes>)
    requires AreChunks(cs) && IsChunk(c)
    ensures AreChunks([c] + cs)
    ensures SealAll(x, key, nonce, [c] + cs) == SealChunk(x, key, nonce, c) + SealAll(x, key, Inc(Inc(nonce)), cs)
  {
    ChunkAhead(c, cs);
  }

  lemma ChunksApart(cs: seq<Bytes>)
    requires AreChunks(cs) && cs != []
    ensures IsChunk(cs[0]) && AreChunks(cs[1..]) && cs == [cs[0]] + cs[1..]
  {
  }

  lemma ChunksTogether(a: seq<Bytes>, b: seq<Bytes>)
    requires AreChunks(a) && AreChunks(b)
    ensures AreChunks(a + b)
  {
  }

  lemma {:induction false} SealAllSplit(x: Suite, key: Bytes, nonce: Bytes, a: seq<Bytes>, b: seq<Bytes>)
    requires AreChunks(a) && AreChunks(b)
    ensures AreChunks(a + b)
    ensures SealAll(x, key, nonce, a + b) == SealAll(x, key, nonce, a) + SealAll(x, key, Advance(nonce, 2 * |a|), b)
    decreases a
  {
    if a == [] {
      assert a + b == b;
    } else {
      var (c, rest) := (a[0], a[1..]);
      ChunksApart(a);
      ChunksTogether(rest, b);
      assert a + b == [c] + (rest + b);
      SealAllSplit(x, key, Inc(Inc(nonce)), rest, b);
      SealAllFirst(x, key, nonce, c, rest);
      SealAllFirst(x, key, nonce, c, rest + b);
      TwoUses(nonce, 2 * |rest|);
      Reassociate(SealChunk(x, key, nonce, c), SealAll(x, key, Inc(Inc(nonce)), rest),
                  SealAll(x, key, Advance(nonce, 2 * |a|), b));
    }
  }

  // ---- the connection -------------------------------------------------------------

  /** The receiving half of a connection. */
  datatype Receiver = Receiver(key: Option<Bytes>, nonce: Bytes, buf: Bytes, wire: Bytes)

  /** initDecoderIfNeeded */
  function InitDecoder(x: Suite, master: Bytes, r: Receiver): (Receiver, bool) {
    if r.key.Some? then (r, true)
    else
      var (salt, rest) := Taken(r.wire, x.saltLen);
      if salt.None? then (r.(wire := rest), false)
      else (r.(key := Some(x.derive(master, salt.value)), nonce := Zeros(x.nonceLen), wire := rest), true)
  }

  /** Reads one sealed piece and advances the nonce if it opens. */
  function OpenPiece(x: Suite, r: Receiver, n: nat): (Receiver, Option<Bytes>)
    requires r.key.Some?
  {
    var (sealed, rest) := Taken(r.wire, n + x.overhead);
    if sealed.None? then (r.(wire := rest), None)
    else
      var plain := x.open(r.key.value, r.nonce, sealed.value);
      if plain.None? then (r.(wire := rest), None)
      else (r.(wire := rest, nonce := Inc(r.nonce)), plain)
  }

  /** The sealed length and payload of readChunk. */
  function ReadSealed(x: Suite, r: Receiver): (Receiver, bool)
    requires r.key.Some?
  {
    var (r1, len) := OpenPiece(x, r, 2);
    if len.None? || |len.value| != 2 then (r1, false)
    else
      var n := BigEndian16(len.value);
      if n == 0 then (r1, false)
      else
        var (r2, payload) := OpenPiece(x, r1, n);
        if payload.None? then (r2, false) else (r2.(buf := r2.buf + payload.value), true)
  }

  /** readChunk; false stands for any error, end of file included. */
  function ReadChunk(x: Suite, master: Bytes, r: Receiver): (Receiver, bool) {
    var (r0, ready) := InitDecoder(x, master, r);
    if !ready then (r0, false) else ReadSealed(x, r0)
  }

  /** Read with a buffer of the given size: the bytes delivered, or an error. */
  function ReadSome(x: Suite, master: Bytes, r: Receiver, size: nat): (Receiver, Option<Bytes>) {
    var (r1, ok) := if r.buf == [] then ReadChunk(x, master, r) else (r, true);
    if !ok then (r1, None) else (r1.(buf := r1.buf[Min(size, |r1.buf|)..]), Some(r1.buf[..Min(size, |r1.buf|)]))
  }

  /** shadowsocksConn: both directions of one end. */
  class Conn {
    const suite: Suite
    const master: Bytes
    const outbound: Wire
    const inbound: Wire
    const sendSalt: Bytes
    const sendKey: Bytes
    const sendNonce: array<byte>
    var sentSalt: bool
    var recvKey: Option<Bytes>
    var recvNonce: array<byte>
    var readBuf: Bytes

    ghost predicate Valid()
      reads this
    {
      && Sound(suite)
      && outbound != inbound && sendNonce != recvNonce
      && sendNonce.Length == recvNonce.Length == suite.nonceLen
      && sendKey == suite.derive(master, sendSalt) && |sendSalt| == suite.saltLen
    }

    /** What this end has received and buffered, and what is still on its wire. */
    ghost function Receiving(): Receiver
      reads this, recvNonce, inbound
    {
      Receiver(recvKey, recvNonce[..], readBuf, inbound.data)
    }

    constructor (suite: Suite, master: Bytes, salt: Bytes, outbound: Wire, inbound: Wire)
      requires Sound(suite) && |salt| == suite.saltLen && outbound != inbound
      ensures Valid() && !sentSalt && sendNonce[..] == Zeros(suite.nonceLen)
      ensures Receiving() == Receiver(None, Zeros(suite.nonceLen), [], inbound.data)
      ensures this.suite == suite && this.master == master && this.sendSalt == salt
      ensures this.outbound == outbound && this.inbound == inbound
      ensures fresh(sendNonce) && fresh(recvNonce)
    {
      this.suite, this.master, this.outbound, this.inbound := suite, master, outbound, inbound;
      sendSalt, sendKey := salt, suite.derive(master, salt);
      var zeros := Zeros(suite.nonceLen);
      sendNonce := new byte[suite.nonceLen](i requires 0 <= i < suite.nonceLen => 0);
      recvNonce := new byte[suite.nonceLen](i requires 0 <= i < suite.nonceLen => 0);
      sentSalt, recvKey, readBuf := false, None, [];
      new;
      assert sendNonce[..] == zeros && recvNonce[..] == zeros;
    }

    method WriteChunk(chunk: Bytes)
      requires Valid() && IsChunk(chunk)
      modifies sendNonce, outbound
      ensures Valid()
      ensures outbound.data == old(outbound.data) + SealChunk(suite, sendKey, old(sendNonce[..]), chunk)
      ensures sendNonce[..] == Inc(Inc(old(sendNonce[..])))
    {
      var n := |chunk|;
      var encLen := suite.seal(sendKey, sendNonce[..], [n / 256, n % 256]);
      IncNonce(sendNonce);
      var encPayload := suite.seal(sendKey, sendNonce[..], chunk);
      IncNonce(sendNonce);
      outbound.Write(encLen);
      outbound.Write(encPayload);
    }

    method Write(p: Bytes) returns (written: nat)
      requires Valid()
      modifies this`sentSalt, sendNonce, outbound
      ensures Valid() && sentSalt && written == |p|
      ensures AreChunks(Chunks(p))
      ensures outbound.data == old(outbound.data) + (if old(sentSalt) then [] else sendSalt)
                               + SealAll(suite, sendKey, old(sendNonce[..]), Chunks(p))
      ensures sendNonce[..] == Advance(old(sendNonce[..]), 2 * |Chunks(p)|)
    {
      ChunksOf(p);
      if !sentSalt {
        outbound.Write(sendSalt);
        sentSalt := true;
      }
      written := WriteChunks(p);
    }

    /** The loop of Write. */
    method WriteChunks(p: Bytes) returns (written: nat)
      requires Valid()
      modifies sendNonce, outbound
      ensures Valid() && written == |p|
      ensures (outbound.data, sendNonce[..]) == Finish(suite, sendKey, old(outbound.data), old(sendNonce[..]), p)
    {
      ghost var whole := Finish(suite, sendKey, outbound.data, sendNonce[..], p);
      written := 0;
      var rest := p;
      while rest != []
        invariant Valid() && written + |rest| == |p|
        invariant Finish(suite, sendKey, outbound.data, sendNonce[..], rest) == whole
        decreases |rest|
      {
        FinishStep(suite, sendKey, outbound.data, sendNonce[..], rest);
        var n := |rest|;
        if n > MAX_CHUNK { n := MAX_CHUNK; }
        var chunk := rest[..n];
        rest := rest[n..];
        WriteChunk(chunk);
        written := written + n;
      }
      FinishNothing(suite, sendKey, outbound.data, sendNonce[..]);
    }

    /** initDecoderIfNeeded */
    method InitDecoderIfNeeded() returns (ok: bool)
      requires Valid()
      modifies this`recvKey, this`recvNonce, inbound
      ensures Valid() && (recvNonce == old(recvNonce) || fresh(recvNonce))
      ensures (Receiving(), ok) == InitDecoder(suite, master, old(Receiving()))
      ensures ok ==> recvKey.Some?
    {
      if recvKey.Some? { return true; }
      var salt := inbound.ReadFull(suite.saltLen);
      if salt.None? { return false; }
      recvKey := Some(suite.derive(master, salt.value));
      recvNonce := new byte[suite.nonceLen](i requires 0 <= i < suite.nonceLen => 0);
      assert recvNonce[..] == Zeros(suite.nonceLen);
      return true;
    }

    method OpenNext(n: nat) returns (plain: Option<Bytes>)
      requires Valid() && recvKey.Some?
      modifies inbound, recvNonce
      ensures Valid() && (Receiving(), plain) == OpenPiece(suite, old(Receiving()), n)
    {
      var sealed := inbound.ReadFull(n + suite.overhead);
      if sealed.None? { return None; }
      plain := suite.open(recvKey.value, recvNonce[..], sealed.value);
      if plain.None? { return; }
      IncNonce(recvNonce);
    }

    method ReadNextChunk() returns (ok: bool)
      requires Valid()
      modifies this`recvKey, this`recvNonce, this`readBuf, recvNonce, inbound
      ensures Valid() && (recvNonce == old(recvNonce) || fresh(recvNonce))
      ensures (Receiving(), ok) == ReadChunk(suite, master, old(Receiving()))
    {
      ok := InitDecoderIfNeeded();
      if !ok { return; }
      var len := OpenNext(2);
      if len.None? || |len.value| != 2 { return false; }
      var n := BigEndian16(len.value);
      if n == 0 { return false; }
      var payload := OpenNext(n);
      if payload.None? { return false; }
      readBuf := readBuf + payload.value;
    }

    method Read(size: nat) returns (r: Option<Bytes>)
      requires Valid()
      modifies this`recvKey, this`recvNonce, this`readBuf, recvNonce, inbound
      ensures Valid() && (recvNonce == old(recvNonce) || fresh(recvNonce))
      ensures (Receiving(), r) == ReadSome(suite, master, old(Receiving()), size)
    {
      if readBuf == [] {
        var ok := ReadNextChunk();
        if !ok { return None; }
      }
      var n := if size <= |readBuf| then size else |readBuf|;
      r, readBuf := Some(readBuf[..n]), readBuf[n..];
    }
  }

  /** The wire and the nonce once the rest of a write is out. */
  ghost function Finish(x: Suite, key: Bytes, data: Bytes, nonce: Bytes, rest: Bytes): (Bytes, Bytes) {
    ChunksOf(rest);
    (data + SealAll(x, key, nonce, Chunks(rest)), Advance(nonce, 2 * |Chunks(rest)|))
  }

  lemma FinishNothing(x: Suite, key: Bytes, data: Bytes, nonce: Bytes)
    ensures Finish(x, key, data, nonce, []) == (data, nonce)
  {
    assert data + [] == data;
  }

  lemma FirstChunk(p: Bytes)
    requires p != []
    ensures var n := Min(|p|, MAX_CHUNK);
            IsChunk(p[..n]) && AreChunks(Chunks(p[n..])) && Chunks(p) == [p[..n]] + Chunks(p[n..])
  {
    ChunksOf(p[Min(|p|, MAX_CHUNK)..]);
    if |p| <= MAX_CHUNK { assert p[..|p|] == p && p[|p|..] == [] && Chunks(p) == [p]; }
  }

  lemma SealFirst(x: Suite, key: Bytes, data: Bytes, nonce: Bytes, chunk: Bytes, cs: seq<Bytes>)
    requires IsChunk(chunk) && AreChunks(cs)
    ensures AreChunks([chunk] + cs)
    ensures data + SealAll(x, key, nonce, [chunk] + cs)
            == data + SealChunk(x, key, nonce, chunk) + SealAll(x, key, Inc(Inc(nonce)), cs)
    ensures Advance(nonce, 2 * |[chunk] + cs|) == Advance(Inc(Inc(nonce)), 2 * |cs|)
  {
    SealAllFirst(x, key, nonce, chunk, cs);
    TwoUses(nonce, 2 * |cs|);
    Reassociate(data, SealChunk(x, key, nonce, chunk), SealAll(x, key, Inc(Inc(nonce)), cs));
  }

  lemma FinishStep(x: Suite, key: Bytes, data: Bytes, nonce: Bytes, rest: Bytes)
    requires rest != []
    ensures var n := Min(|rest|, MAX_CHUNK);
            && IsChunk(rest[..n])
            && Finish(x, key, data, nonce, rest)
               == Finish(x, key, data + SealChunk(x, key, nonce, rest[..n]), Inc(Inc(nonce)), rest[n..])
  {
    var n := Min(|rest|, MAX_CHUNK);
    FirstChunk(rest);
    SealFirst(x, key, data, nonce, rest[..n], Chunks(rest[n..]));
  }

  // ---- the stream arrives as it was sent -----------------------------------------

  /** The bytes that a stream of chunks puts on the wire from a receiver's position. */
  ghost function Sent(x: Suite, salt: Bytes, key: Bytes, r: Receiver, rest: seq<Bytes>): Bytes
    requires AreChunks(rest)
  {
    if r.key.None? then salt + SealAll(x, key, Zeros(x.nonceLen), rest) else SealAll(x, key, r.nonce, rest)
  }

  /** The receiver stands `count` chunks into the stream with `rest` still to come:
      its nonce is the one those chunks were sealed with, and its wire is the sealed
      rest, perhaps cut short by the end of the connection. */
  ghost predicate Follows(x: Suite, master: Bytes, salt: Bytes, r: Receiver, count: nat, rest: seq<Bytes>,
                          whole: bool) {
    && Sound(x) && |salt| == x.saltLen && AreChunks(rest)
    && (if whole then r.wire == Sent(x, salt, x.derive(master, salt), r, rest)
        else r.wire <= Sent(x, salt, x.derive(master, salt), r, rest))
    && (r.wire == [] || InStep(x, master, salt, r, count))
    && (whole ==> InStep(x, master, salt, r, count))
  }

  ghost predicate InStep(x: Suite, master: Bytes, salt: Bytes, r: Receiver, count: nat) {
    if r.key.None? then count == 0
    else r.key == Some(x.derive(master, salt)) && r.nonce == Advance(Zeros(x.nonceLen), 2 * count)
  }

  /** Opening one sealed piece of the stream gives the piece, or finds the wire cut. */
  lemma OpensPiece(x: Suite, r: Receiver, p: Bytes, rest: Bytes)
    requires Sound(x) && r.key.Some? && r.wire <= x.seal(r.key.value, r.nonce, p) + rest
    ensures var (r', got) := OpenPiece(x, r, |p|);
            && (got.Some? ==> got.value == p && r' == r.(wire := r'.wire, nonce := Inc(r.nonce)) && r'.wire <= rest)
            && (got.None? ==> r' == r.(wire := []))
            && (r.wire == x.seal(r.key.value, r.nonce, p) + rest ==> got.Some? && r'.wire == rest)
  {
    TakePrefix(r.wire, x.seal(r.key.value, r.nonce, p), rest, |p| + x.overhead);
  }

  lemma InitFollows(x: Suite, master: Bytes, salt: Bytes, r: Receiver, count: nat, rest: seq<Bytes>, whole: bool)
    requires Follows(x, master, salt, r, count, rest, whole)
    ensures var (r', ok) := InitDecoder(x, master, r);
            && Follows(x, master, salt, r', count, rest, whole) && r'.buf == r.buf
            && (ok ==> r'.key.Some?)
            && (!ok ==> r'.wire == [] && !whole)
  {
    if r.key.None? {
      TakePrefix(r.wire, salt, SealAll(x, x.derive(master, salt), Zeros(x.nonceLen), rest), x.saltLen);
      assert Advance(Zeros(x.nonceLen), 0) == Zeros(x.nonceLen);
    }
  }

  lemma EmptyWireReadsNothing(x: Suite, master: Bytes, r: Receiver)
    requires Sound(x) && r.wire == []
    ensures var (r', ok) := ReadChunk(x, master, r); !ok && r' == r
  {
  }

  /** With the key in place: the next sealed chunk, or a used-up wire. */
  lemma ReadSealedFollows(x: Suite, r: Receiver, chunk: Bytes, tail: Bytes)
    requires Sound(x) && r.key.Some? && IsChunk(chunk)
    requires r.wire <= SealChunk(x, r.key.value, r.nonce, chunk) + tail
    ensures var (r', ok) := ReadSealed(x, r);
            && (ok ==> r' == Receiver(r.key, Inc(Inc(r.nonce)), r.buf + chunk, r'.wire) && r'.wire <= tail)
            && (!ok ==> r'.buf == r.buf && r'.wire == [])
            && (r.wire == SealChunk(x, r.key.value, r.nonce, chunk) + tail ==> ok && r'.wire == tail)
  {
    var second := x.seal(r.key.value, Inc(r.nonce), chunk);
    assert SealChunk(x, r.key.value, r.nonce, chunk) + tail ==
           x.seal(r.key.value, r.nonce, LengthBytes(|chunk|)) + (second + tail);
    OpensPiece(x, r, LengthBytes(|chunk|), second + tail);
    var (r1, len) := OpenPiece(x, r, 2);
    if len.Some? {
      assert BigEndian16(len.value) == |chunk|;
      OpensPiece(x, r1, chunk, tail);
    }
  }

  lemma NextNonce(len: nat, count: nat)
    ensures Inc(Inc(Advance(Zeros(len), 2 * count))) == Advance(Zeros(len), 2 * (count + 1))
  {
  }

  /** A chunk read is the next chunk of the stream; a failed read means that the
      wire is used up. */
  lemma ReadChunkFollows(x: Suite, master: Bytes, salt: Bytes, r: Receiver, count: nat, rest: seq<Bytes>, whole: bool)
    requires Follows(x, master, salt, r, count, rest, whole)
    ensures var (r', ok) := ReadChunk(x, master, r);
            && (ok ==>
                  rest != [] && r'.buf == r.buf + rest[0] && Follows(x, master, salt, r', count + 1, rest[1..], whole))
            && (!ok ==> r'.buf == r.buf && r'.wire == [])
            && (!ok && whole ==> rest == [] && Follows(x, master, salt, r', count, rest, whole))
  {
    var (r0, ready) := InitDecoder(x, master, r);
    InitFollows(x, master, salt, r, count, rest, whole);
    if ready {
      SealedIsNotEmpty(x, r0.key.value, r0.nonce, rest);
      if r0.wire == [] {
        EmptyWireReadsNothing(x, master, r0);
      } else {
        assert rest[0] in rest;
        ReadSealedFollows(x, r0, rest[0], SealAll(x, r0.key.value, Inc(Inc(r0.nonce)), rest[1..]));
        NextNonce(x.nonceLen, count);
      }
    }
  }

  lemma SealedIsNotEmpty(x: Suite, key: Bytes, nonce: Bytes, rest: seq<Bytes>)
    requires Sound(x) && AreChunks(rest)
    ensures rest != [] ==> |SealAll(x, key, nonce, rest)| > 0
  {
    if rest != [] {
      assert rest[0] in rest;
      assert |x.seal(key, nonce, LengthBytes(|rest[0]|))| > 0;
    }
  }

  /** What a read does to a stream: what it delivers comes off the front of what is
      buffered or sealed; or the wire is used up. */
  ghost predicate ReadOff(x: Suite, master: Bytes, salt: Bytes, r: Receiver, rest: seq<Bytes>, whole: bool, size: nat,
                          r': Receiver, got: Option<Bytes>, count': nat, rest': seq<Bytes>) {
    if got.Some? then
      && Follows(x, master, salt, r', count', rest', whole)
      && got.value + (r'.buf + Concat(rest')) == r.buf + Concat(rest)
      && (size > 0 ==> |got.value| > 0)
    else
      && r'.buf == [] && r'.wire == []
      && (whole ==> Follows(x, master, salt, r', count', rest', whole) && r.buf == [] && rest == rest' == [])
  }

  lemma FromBuffer(x: Suite, master: Bytes, salt: Bytes, r: Receiver, count: nat, rest: seq<Bytes>, whole: bool,
                   size: nat)
    requires Follows(x, master, salt, r, count, rest, whole) && r.buf != []
    ensures var n := Min(size, |r.buf|);
            ReadOff(x, master, salt, r, rest, whole, size, r.(buf := r.buf[n..]), Some(r.buf[..n]), count, rest)
  {
    SplitBuffer(r.buf, Min(size, |r.buf|), Concat(rest));
  }

  /** Reading a chunk into an empty buffer and then from the buffer. */
  lemma FromChunk(x: Suite, master: Bytes, salt: Bytes, r: Receiver, rest: seq<Bytes>, whole: bool, size: nat,
                  r1: Receiver, count1: nat)
    requires r.buf == [] && rest != [] && rest[0] != [] && r1.buf == r.buf + rest[0]
    requires Follows(x, master, salt, r1, count1, rest[1..], whole)
    ensures var n := Min(size, |r1.buf|);
            ReadOff(x, master, salt, r, rest, whole, size, r1.(buf := r1.buf[n..]), Some(r1.buf[..n]),
                    count1, rest[1..])
  {
    assert r1.buf + Concat(rest[1..]) == r.buf + Concat(rest);
    FromBuffer(x, master, salt, r1, count1, rest[1..], whole, size);
  }

  /** One read follows the stream. */
  lemma ReadSomeFollows(x: Suite, master: Bytes, salt: Bytes, r: Receiver, count: nat, rest: seq<Bytes>, whole: bool,
                        size: nat)
    returns (count': nat, rest': seq<Bytes>)
    requires Follows(x, master, salt, r, count, rest, whole)
    ensures var (r', got) := ReadSome(x, master, r, size);
            ReadOff(x, master, salt, r, rest, whole, size, r', got, count', rest')
  {
    count', rest' := count, rest;
    if r.buf != [] {
      FromBuffer(x, master, salt, r, count, rest, whole, size);
    } else {
      var (r1, ok) := ReadChunk(x, master, r);
      ReadChunkFollows(x, master, salt, r, count, rest, whole);
      if ok {
        assert rest[0] in rest;
        count', rest' := count + 1, rest[1..];
        FromChunk(x, master, salt, r, rest, whole, size, r1, count');
      }
    }
  }

  lemma SplitBuffer(buf: Bytes, n: nat, rest: Bytes)
    requires n <= |buf|
    ensures buf[..n] + (buf[n..] + rest) == buf + rest
  {
    assert buf == buf[..n] + buf[n..];
  }

  /** Any number of reads with any buffer sizes: what they deliver, in order. */
  function Delivered(x: Suite, master: Bytes, r: Receiver, sizes: seq<nat>): (Receiver, Bytes)
    decreases sizes
  {
    if sizes == [] then (r, [])
    else
      var (r1, got) := ReadSome(x, master, r, sizes[0]);
      var (r2, more) := Delivered(x, master, r1, sizes[1..]);
      (r2, (if got.Some? then got.value else []) + more)
  }

  lemma {:induction false} SilentAfterTheEnd(x: Suite, master: Bytes, r: Receiver, sizes: seq<nat>)
    requires Sound(x) && r.wire == [] && r.buf == []
    ensures Delivered(x, master, r, sizes) == (r, [])
    decreases sizes
  {
    if sizes != [] {
      EmptyWireReadsNothing(x, master, r);
      SilentAfterTheEnd(x, master, r, sizes[1..]);
      assert ReadSome(x, master, r, sizes[0]) == (r, None);
      var more: Bytes := Delivered(x, master, r, sizes[1..]).1;
      assert more == [] && [] + more == [];
    }
  }

  /** Reads deliver a prefix of what was sent; on an uncut wire, what they deliver,
      what is buffered and what is still sealed make up exactly what was sent. */
  lemma {:induction false} ReadsFollow(x: Suite, master: Bytes, salt: Bytes, r: Receiver, count: nat, rest: seq<Bytes>,
                                       whole: bool, sizes: seq<nat>) returns (count': nat, rest': seq<Bytes>)
    requires Follows(x, master, salt, r, count, rest, whole)
    ensures Delivered(x, master, r, sizes).1 <= r.buf + Concat(rest)
    ensures whole ==> Follows(x, master, salt, Delivered(x, master, r, sizes).0, count', rest', whole)
    ensures var (r', got) := Delivered(x, master, r, sizes);
            whole ==> got + (r'.buf + Concat(rest')) == r.buf + Concat(rest)
    decreases sizes
  {
    if sizes == [] {
      return count, rest;
    }
    var (r1, got) := ReadSome(x, master, r, sizes[0]);
    var c1, rest1 := ReadSomeFollows(x, master, salt, r, count, rest, whole, sizes[0]);
    if got.None? {
      SilentAfterTheEnd(x, master, r1, sizes[1..]);
      return c1, rest1;
    }
    count', rest' := ReadsFollow(x, master, salt, r1, c1, rest1, whole, sizes[1..]);
    var (r2, more) := Delivered(x, master, r1, sizes[1..]);
    PrefixAppend(got.value, more, r1.buf + Concat(rest1));
    if whole {
      Reassociate(got.value, more, r2.buf + Concat(rest'));
    }
  }

  /** On an uncut wire, as many non-empty reads as there are bytes deliver them all. */
  lemma {:induction false} ReadsDrain(x: Suite, master: Bytes, salt: Bytes, r: Receiver, count: nat, rest: seq<Bytes>,
                                      sizes: seq<nat>)
    requires Follows(x, master, salt, r, count, rest, true)
    requires (forall i :: 0 <= i < |sizes| ==> sizes[i] > 0) && |sizes| >= |r.buf + Concat(rest)|
    ensures Delivered(x, master, r, sizes).1 == r.buf + Concat(rest)
    decreases sizes
  {
    if sizes == [] {
      return;
    }
    var (r1, got) := ReadSome(x, master, r, sizes[0]);
    var c1, rest1 := ReadSomeFollows(x, master, salt, r, count, rest, true, sizes[0]);
    if got.None? {
      SilentAfterTheEnd(x, master, r1, sizes[1..]);
      return;
    }
    assert |got.value| + |r1.buf + Concat(rest1)| == |r.buf + Concat(rest)|;
    ReadsDrain(x, master, salt, r1, c1, rest1, sizes[1..]);
  }

  // ---- the whole exchange ----------------------------------------------------------

  function AllChunks(writes: seq<Bytes>): seq<Bytes> {
    if writes == [] then [] else AllChunks(writes[..|writes| - 1]) + Chunks(writes[|writes| - 1])
  }

  function AllBytes(writes: seq<Bytes>): Bytes {
    if writes == [] then [] else AllBytes(writes[..|writes| - 1]) + writes[|writes| - 1]
  }

  lemma {:induction false} AllChunksOf(writes: seq<Bytes>)
    ensures AreChunks(AllChunks(writes)) && Concat(AllChunks(writes)) == AllBytes(writes)
  {
    if writes != [] {
      AllChunksOf(writes[..|writes| - 1]);
      ChunksOf(writes[|writes| - 1]);
      ConcatSplit(AllChunks(writes[..|writes| - 1]), Chunks(writes[|writes| - 1]));
    }
  }

  /** The salt, once the connection is used, and the sealed chunks. */
  ghost function WireOf(x: Suite, key: Bytes, salt: Bytes, used: bool, cs: seq<Bytes>): Bytes
    requires AreChunks(cs)
  {
    if used then salt + SealAll(x, key, Zeros(x.nonceLen), cs) else []
  }

  /** Everything that a number of writes put on the wire. */
  ghost function WireAfter(x: Suite, master: Bytes, salt: Bytes, writes: seq<Bytes>): Bytes {
    AllChunksOf(writes);
    WireOf(x, x.derive(master, salt), salt, writes != [], AllChunks(writes))
  }

  lemma WireIs(x: Suite, master: Bytes, salt: Bytes, writes: seq<Bytes>, used: bool, cs: seq<Bytes>)
    requires AllChunks(writes) == cs && used == (writes != [])
    ensures AreChunks(cs) && WireAfter(x, master, salt, writes) == WireOf(x, x.derive(master, salt), salt, used, cs)
  {
    AllChunksOf(writes);
  }

  lemma ChunksCompose(x: Suite, key: Bytes, salt: Bytes, used: bool, before: seq<Bytes>, now: seq<Bytes>)
    requires AreChunks(before) && AreChunks(now) && (!used ==> before == [])
    ensures AreChunks(before + now)
    ensures WireOf(x, key, salt, true, before + now) ==
            WireOf(x, key, salt, used, before) + (if used then [] else salt)
            + SealAll(x, key, Advance(Zeros(x.nonceLen), 2 * |before|), now)
  {
    var zeros := Zeros(x.nonceLen);
    SealAllSplit(x, key, zeros, before, now);
    SaltOnce(salt, !used, SealAll(x, key, zeros, before), SealAll(x, key, Advance(zeros, 2 * |before|), now));
  }

  lemma SaltOnce(salt: Bytes, first: bool, before: Bytes, now: Bytes)
    requires first ==> before == []
    ensures salt + (before + now) == (if first then [] else salt + before) + (if first then salt else []) + now
  {
    Reassociate(salt, before, now);
    assert [] + salt == salt && salt + before + [] == salt + before && [] + now == now;
  }

  /** Write after write, the wire holds the stream of all the writes so far, and the send
      nonce is the one that its chunks leave: the contract of Write adds exactly this. */
  lemma WritesCompose(x: Suite, master: Bytes, salt: Bytes, writes: seq<Bytes>, p: Bytes)
    ensures AreChunks(Chunks(p))
    ensures WireAfter(x, master, salt, writes + [p]) ==
            WireAfter(x, master, salt, writes) + (if writes == [] then salt else [])
            + SealAll(x, x.derive(master, salt), Advance(Zeros(x.nonceLen), 2 * |AllChunks(writes)|), Chunks(p))
    ensures Advance(Zeros(x.nonceLen), 2 * |AllChunks(writes + [p])|)
            == Advance(Advance(Zeros(x.nonceLen), 2 * |AllChunks(writes)|), 2 * |Chunks(p)|)
  {
    ChunksOf(p);
    AllChunksSnoc(writes, p);
    AdvanceSum(Zeros(x.nonceLen), 2 * |AllChunks(writes)|, 2 * |Chunks(p)|);
    WireIs(x, master, salt, writes, writes != [], AllChunks(writes));
    WireIs(x, master, salt, writes + [p], true, AllChunks(writes) + Chunks(p));
    ChunksCompose(x, x.derive(master, salt), salt, writes != [], AllChunks(writes), Chunks(p));
  }

  lemma AllChunksSnoc(writes: seq<Bytes>, p: Bytes)
    ensures AllChunks(writes + [p]) == AllChunks(writes) + Chunks(p)
  {
    assert (writes + [p])[..|writes|] == writes;
  }

  /** For any writes, any cut of the wire and any reads on a peer with the same
      master key: the bytes read are a prefix of the bytes written; on the uncut wire
      enough non-empty reads give all of them; and whenever the uncut wire and the
      buffer are used up, everything has been delivered. */
  lemma StreamRoundTrip(x: Suite, master: Bytes, salt: Bytes, writes: seq<Bytes>, wire: Bytes, sizes: seq<nat>)
    requires Sound(x) && |salt| == x.saltLen && wire <= WireAfter(x, master, salt, writes)
    ensures var (r, got) := Delivered(x, master, Receiver(None, Zeros(x.nonceLen), [], wire), sizes);
            && got <= AllBytes(writes)
            && (wire == WireAfter(x, master, salt, writes) && writes != [] ==>
                  && (r.key.Some? && r.wire == [] && r.buf == [] ==> got == AllBytes(writes))
                  && ((forall i :: 0 <= i < |sizes| ==> sizes[i] > 0) && |sizes| >= |AllBytes(writes)|
                      ==> got == AllBytes(writes)))
  {
    var start := Receiver(None, Zeros(x.nonceLen), [], wire);
    var chunks := AllChunks(writes);
    AllChunksOf(writes);
    var whole := writes != [] && wire == WireAfter(x, master, salt, writes);
    assert [] + Concat(chunks) == AllBytes(writes);
    var count, rest := ReadsFollow(x, master, salt, start, 0, chunks, whole, sizes);
    var (r, got) := Delivered(x, master, start, sizes);
    if whole && (forall i :: 0 <= i < |sizes| ==> sizes[i] > 0) && |sizes| >= |AllBytes(writes)| {
      ReadsDrain(x, master, salt, start, 0, chunks, sizes);
    }
    if whole && r.key.Some? && r.wire == [] {
      SealedIsNotEmpty(x, r.key.value, r.nonce, rest);
      assert got + ([] + []) == got;
    }
  }

  // ---- the nonces of the Seal calls ------------------------------------------------

  /** One Seal call: the nonce it is given and what it seals. */
  datatype Call = Call(nonce: Bytes, plain: Bytes)

  /** The Seal calls that put chunks on the wire, from a nonce on. */
  ghost function SealCalls(nonce: Bytes, cs: seq<Bytes>): (calls: seq<Call>)
    requires AreChunks(cs)
    ensures |calls| == 2 * |cs|
    decreases cs
  {
    if cs == [] then []
    else
      assert cs[0] in cs;
      [Call(nonce, LengthBytes(|cs[0]|)), Call(Inc(nonce), cs[0])] + SealCalls(Inc(Inc(nonce)), cs[1..])
  }

  function Sealed(x: Suite, key: Bytes, calls: seq<Call>): Bytes {
    if calls == [] then [] else x.seal(key, calls[0].nonce, calls[0].plain) + Sealed(x, key, calls[1..])
  }

  lemma SealedTwo(x: Suite, key: Bytes, a: Call, b: Call, rest: seq<Call>)
    ensures Sealed(x, key, [a, b] + rest) == x.seal(key, a.nonce, a.plain) + x.seal(key, b.nonce, b.plain)
            + Sealed(x, key, rest)
  {
    var calls := [a, b] + rest;
    assert calls[0] == a && calls[1..] == [b] + rest && ([b] + rest)[0] == b && ([b] + rest)[1..] == rest;
    Reassociate(x.seal(key, a.nonce, a.plain), x.seal(key, b.nonce, b.plain), Sealed(x, key, rest));
  }

  /** The wire of a stream of chunks is what these calls seal, in order. */
  lemma {:induction false} WireIsSealed(x: Suite, key: Bytes, nonce: Bytes, cs: seq<Bytes>)
    requires AreChunks(cs)
    ensures SealAll(x, key, nonce, cs) == Sealed(x, key, SealCalls(nonce, cs))
    decreases cs
  {
    if cs != [] {
      assert cs[0] in cs;
      WireIsSealed(x, key, Inc(Inc(nonce)), cs[1..]);
      SealedTwo(x, key, Call(nonce, LengthBytes(|cs[0]|)), Call(Inc(nonce), cs[0]),
                SealCalls(Inc(Inc(nonce)), cs[1..]));
    }
  }

  function NoncesOf(calls: seq<Call>): (ns: seq<Bytes>)
    ensures |ns| == |calls|
  {
    seq(|calls|, i requires 0 <= i < |calls| => calls[i].nonce)
  }

  /** Call i of a stream is given the nonce of use i. */
  lemma {:induction false} CallNonce(nonce: Bytes, cs: seq<Bytes>, i: nat)
    requires AreChunks(cs) && i < 2 * |cs|
    ensures SealCalls(nonce, cs)[i].nonce == Advance(nonce, i)
    decreases cs
  {
    assert Advance(nonce, 1) == Inc(nonce) && Advance(nonce, 2) == Inc(Inc(nonce)) by {
      assert Advance(nonce, 1) == Inc(Advance(nonce, 0));
      assert Advance(nonce, 2) == Inc(Advance(nonce, 1));
    }
    if i >= 2 {
      CallNonce(Inc(Inc(nonce)), cs[1..], i - 2);
      AdvanceSum(nonce, 2, i - 2);
    }
  }

  /** Over all the writes of a connection: its wire is the salt and what its Seal calls
      seal, two for each chunk, and no two of them share a nonce exactly if there are at
      most 256^nonceLen. */
  lemma SealNoncesAreDistinct(x: Suite, master: Bytes, salt: Bytes, writes: seq<Bytes>)
    requires writes != []
    ensures AreChunks(AllChunks(writes))
    ensures var calls := SealCalls(Zeros(x.nonceLen), AllChunks(writes));
            && WireAfter(x, master, salt, writes) == salt + Sealed(x, x.derive(master, salt), calls)
            && |calls| == 2 * |AllChunks(writes)|
            && (Distinct(NoncesOf(calls)) <==> |calls| <= Pow256(x.nonceLen))
  {
    AllChunksOf(writes);
    var (zeros, chunks) := (Zeros(x.nonceLen), AllChunks(writes));
    var calls := SealCalls(zeros, chunks);
    WireIsSealed(x, x.derive(master, salt), zeros, chunks);
    forall i | 0 <= i < |calls| ensures NoncesOf(calls)[i] == Advance(zeros, i) { CallNonce(zeros, chunks, i); }
    assert NoncesOf(calls) == FirstNonces(zeros, |calls|);
    NoncesAreDistinct(x.nonceLen, |calls|);
  }
}
