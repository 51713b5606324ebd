/** What a Shadowsocks stream looks like on the wire, byte by byte, and what a reader takes
    from any wire at all. */
module ShadowsocksWire {
  import opened Numbers
  import opened Options
  import opened Nonce
  import opened Streams
  import opened Shadowsocks

  // ---- what is sealed -----------------------------------------------------------------

  /** A write is cut into chunks of 16383 bytes, the last one shorter. */
  lemma {:induction false} ChunkAt(p: Bytes, k: nat)
    requires k < |Chunks(p)|
    ensures 16383 * k < |p| && Chunks(p)[k] == p[16383 * k..Min(|p|, 16383 * (k + 1))]
    decreases k
  {
    FirstChunk(p);
    var n := Min(|p|, 16383);
    if k > 0 {
      ChunkAt(p[n..], k - 1);
      var (from, to) := (16383 * (k - 1), Min(|p| - n, 16383 * k));
      assert n == 16383;
      SliceBehind(p, n, from, to);
    }
  }

  lemma SliceBehind(p: Bytes, n: nat, a: nat, b: nat)
    requires a <= b && n + b <= |p|
    ensures p[n..][a..b] == p[n + a..n + b]
  {
  }

  lemma {:induction false} ChunkCount(p: Bytes)
    ensures |Chunks(p)| == (|p| + 16382) / 16383
    decreases |p|
  {
    if p != [] {
      FirstChunk(p);
      ChunkCount(p[Min(|p|, 16383)..]);
    }
  }

  lemma CallsFirst(nonce: Bytes, c: Bytes, cs: seq<Bytes>)
    requires IsChunk(c) && AreChunks(cs)
    ensures AreChunks([c] + cs)
    ensures SealCalls(nonce, [c] + cs)
            == [Call(nonce, [|c| / 256, |c| % 256]), Call(Inc(nonce), c)] + SealCalls(Inc(Inc(nonce)), cs)
  {
    assert ([c] + cs)[0] == c && ([c] + cs)[1..] == cs;
  }

  /** Chunk k of a stream takes two Seal calls: first its length, two bytes with the most
      significant first, under the nonce of use 2k, then its bytes under that of use
      2k + 1. */
  lemma {:induction false} CallsOfChunk(nonce: Bytes, cs: seq<Bytes>, k: nat)
    requires AreChunks(cs) && k < |cs|
    ensures |SealCalls(nonce, cs)| == 2 * |cs| && |cs[k]| < 0x1_0000
    ensures SealCalls(nonce, cs)[2 * k] == Call(Advance(nonce, 2 * k), [|cs[k]| / 256, |cs[k]| % 256])
    ensures SealCalls(nonce, cs)[2 * k + 1] == Call(Advance(nonce, 2 * k + 1), cs[k])
    decreases k
  {
    ChunksApart(cs);
    CallsFirst(nonce, cs[0], cs[1..]);
    CallNonce(nonce, cs, 2 * k);
    CallNonce(nonce, cs, 2 * k + 1);
    if k > 0 { CallsOfChunk(Inc(Inc(nonce)), cs[1..], k - 1); }
  }

  // ---- what is opened -------------------------------------------------------------------

  /** The wire starts with a sealed length and a sealed payload, which open one after the
      other, the second under the next nonce. */
  ghost predicate Opens(x: Suite, key: Bytes, nonce: Bytes, wire: Bytes, payload: Bytes) {
    var (a, n) := (2 + x.overhead, |payload| + x.overhead);
    && 0 < |payload| < 0x1_0000 && a + n <= |wire|
    && x.open(key, nonce, wire[..a]) == Some([|payload| / 256, |payload| % 256])
    && x.open(key, Inc(nonce), wire[a..][..n]) == Some(payload)
  }

  lemma OpenPieceIs(x: Suite, r: Receiver, n: nat)
    requires r.key.Some?
    ensures var (r', got) := OpenPiece(x, r, n);
            var m := n + x.overhead;
            (got.Some? <==> m <= |r.wire| && x.open(r.key.value, r.nonce, r.wire[..m]).Some?)
            && (got.Some? ==> got == x.open(r.key.value, r.nonce, r.wire[..m])
                              && r' == r.(wire := r.wire[m..], nonce := Inc(r.nonce)))
            && (got.None? ==> r'.buf == r.buf)
  {
  }

  lemma TwoBytes(b: Bytes)
    requires |b| == 2
    ensures b == [BigEndian16(b) / 256, BigEndian16(b) % 256] && BigEndian16(b) < 0x1_0000
  {
  }

  lemma LengthIs(n: nat)
    requires n < 0x1_0000
    ensures BigEndian16([n / 256, n % 256]) == n
  {
  }

  /** On any wire whatever, with the key in place, a chunk is read exactly if its length and
      then its payload open, each under its own nonce; then that payload is buffered, the
      nonce has gone on twice, and what follows is left. Otherwise nothing is buffered. */
  lemma ChunkReadIff(x: Suite, r: Receiver)
    requires Sound(x) && r.key.Some?
    ensures var (r', ok) := ReadSealed(x, r);
            && (ok <==> exists payload :: Opens(x, r.key.value, r.nonce, r.wire, payload))
            && (!ok ==> r'.buf == r.buf)
            && forall payload :: Opens(x, r.key.value, r.nonce, r.wire, payload) ==>
                 r' == Receiver(r.key, Inc(Inc(r.nonce)), r.buf + payload,
                                r.wire[2 + x.overhead + (|payload| + x.overhead)..])
  {
    var (r1, len) := OpenPiece(x, r, 2);
    OpenPieceIs(x, r, 2);
    if len.Some? {
      TwoBytes(len.value);
      var n := BigEndian16(len.value);
      OpenPieceIs(x, r1, n);
      if ReadSealed(x, r).1 {
        var payload := OpenPiece(x, r1, n).1.value;
        assert Opens(x, r.key.value, r.nonce, r.wire, payload);
      }
    }
    forall payload | Opens(x, r.key.value, r.nonce, r.wire, payload)
      ensures var (r', ok) := ReadSealed(x, r);
              ok && r' == Receiver(r.key, Inc(Inc(r.nonce)), r.buf + payload,
                                   r.wire[2 + x.overhead + (|payload| + x.overhead)..])
    {
      ChunkIsRead(x, r, payload);
    }
  }

  lemma ChunkIsRead(x: Suite, r: Receiver, payload: Bytes)
    requires Sound(x) && r.key.Some? && Opens(x, r.key.value, r.nonce, r.wire, payload)
    ensures ReadSealed(x, r)
            == (Receiver(r.key, Inc(Inc(r.nonce)), r.buf + payload,
                         r.wire[2 + x.overhead + (|payload| + x.overhead)..]), true)
  {
    var (a, n) := (2 + x.overhead, |payload| + x.overhead);
    OpenPieceIs(x, r, 2);
    LengthIs(|payload|);
    OpenPieceIs(x, OpenPiece(x, r, 2).0, |payload|);
    assert r.wire[a..][n..] == r.wire[a + n..];
  }

  /** A sealed length of zero ends the stream: the read fails, and what follows is left on
      the wire. */
  lemma ZeroLengthEnds(x: Suite, r: Receiver, after: Bytes)
    requires Sound(x) && r.key.Some? && r.wire == x.seal(r.key.value, r.nonce, [0, 0]) + after
    ensures ReadSealed(x, r) == (r.(nonce := Inc(r.nonce), wire := after), false)
  {
    OpensPiece(x, r, [0, 0], after);
    OpenPieceIs(x, r, 2);
    LengthIs(0);
  }

  /** Without the key, the front of the wire is the salt; it gives the key, and the nonce
      starts at zero. */
  lemma SaltFirst(x: Suite, master: Bytes, r: Receiver)
    requires r.key.None?
    ensures var (r', ok) := InitDecoder(x, master, r);
            && (ok <==> x.saltLen <= |r.wire|)
            && (ok ==> r' == Receiver(Some(x.derive(master, r.wire[..x.saltLen])), Zeros(x.nonceLen), r.buf,
                                      r.wire[x.saltLen..]))
  {
  }
}
