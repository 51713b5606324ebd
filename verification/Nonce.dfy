/** The counter nonces of the Shadowsocks stream. */
module Nonce {
  import opened Streams

  function Pow256(n: nat): (r: nat)
    ensures r > 0
  {
    if n == 0 then 1 else 256 * Pow256(n - 1)
  }

  function LittleEndian(s: Bytes): (v: nat)
    ensures v < Pow256(|s|)
  {
    if s == [] then 0 else s[0] + 256 * LittleEndian(s[1..])
  }

  /** The counter after one more use: add one with carry, wrapping at the end. */
  function Inc(s: Bytes): (r: Bytes)
    ensures |r| == |s|
  {
    if s == [] then [] else if s[0] == 255 then [0] + Inc(s[1..]) else [s[0] + 1] + s[1..]
  }

  lemma {:induction false} IncValue(s: Bytes)
    ensures LittleEndian(Inc(s)) == if LittleEndian(s) + 1 == Pow256(|s|) then 0 else LittleEndian(s) + 1
  {
    if s != [] {
      IncValue(s[1..]);
      assert Inc(s)[1..] == if s[0] == 255 then Inc(s[1..]) else s[1..];
    }
  }

  lemma {:induction false} LittleEndianInjective(a: Bytes, b: Bytes)
    requires |a| == |b| && LittleEndian(a) == LittleEndian(b)
    ensures a == b
  {
    if a != [] {
      assert a[0] == LittleEndian(a) % 256 && b[0] == LittleEndian(b) % 256;
      LittleEndianInjective(a[1..], b[1..]);
      assert a == [a[0]] + a[1..] && b == [b[0]] + b[1..];
    }
  }

  function Zeros(n: nat): (z: Bytes)
    ensures |z| == n && forall k :: 0 <= k < n ==> z[k] == 0
  {
    if n == 0 then [] else [0] + Zeros(n - 1)
  }

  lemma {:induction false} IncCarry(s: Bytes, i: nat)
    requires i <= |s| && forall k :: 0 <= k < i ==> s[k] == 255
    ensures Inc(s) == Zeros(i) + Inc(s[i..])
  {
    if i > 0 { IncCarry(s[1..], i - 1); }
  }

  /** The bytes after the carry has stopped at byte i. */
  lemma CarryStops(was: Bytes, now: Bytes, i: nat)
    requires i < |was| == |now| && was[i] != 255 && now[i] == was[i] + 1
    requires forall k :: 0 <= k < i ==> was[k] == 255 && now[k] == 0
    requires forall k :: i < k < |was| ==> now[k] == was[k]
    ensures now == Inc(was)
  {
    IncCarry(was, i);
    assert Inc(was[i..]) == [was[i] + 1] + was[i + 1..];
    assert now == Zeros(i) + ([was[i] + 1] + was[i + 1..]);
  }

  /** The bytes after a carry out of the last one. */
  lemma CarryRunsOut(was: Bytes, now: Bytes)
    requires |was| == |now| && forall k :: 0 <= k < |was| ==> was[k] == 255 && now[k] == 0
    ensures now == Inc(was)
  {
    IncCarry(was, |was|);
    assert now == Zeros(|was|);
  }

  /** incNonce */
  method IncNonce(nonce: array<byte>)
    modifies nonce
    ensures nonce[..] == Inc(old(nonce[..]))
  {
    ghost var was := nonce[..];
    var i := 0;
    while i < nonce.Length
      invariant 0 <= i <= nonce.Length
      invariant forall k :: i <= k < nonce.Length ==> nonce[k] == was[k]
      invariant forall k :: 0 <= k < i ==> nonce[k] == 0 && was[k] == 255
    {
      nonce[i] := if nonce[i] == 255 then 0 else nonce[i] + 1;
      if nonce[i] != 0 {
        CarryStops(was, nonce[..], i);
        return;
      }
      i := i + 1;
    }
    CarryRunsOut(was, nonce[..]);
  }

  lemma {:induction false} ZerosValue(n: nat)
    ensures LittleEndian(Zeros(n)) == 0
  {
    if n > 0 { ZerosValue(n - 1); }
  }

  /** The nonce after k uses. */
  function Advance(nonce: Bytes, k: nat): (r: Bytes)
    ensures |r| == |nonce|
  {
    if k == 0 then nonce else Inc(Advance(nonce, k - 1))
  }

  lemma {:induction false} AdvanceSum(nonce: Bytes, j: nat, k: nat)
    ensures Advance(Advance(nonce, j), k) == Advance(nonce, j + k)
  {
    if k > 0 { AdvanceSum(nonce, j, k - 1); }
  }

  /** After k uses the counter holds k modulo 256^len, least significant byte first. */
  lemma {:induction false} NonceCounts(len: nat, k: nat)
    ensures LittleEndian(Advance(Zeros(len), k)) == k % Pow256(len)
  {
    if k == 0 {
      ZerosValue(len);
      ModUnique(0, Pow256(len), 0, 0);
    } else {
      NonceCounts(len, k - 1);
      IncValue(Advance(Zeros(len), k - 1));
      ModSucc(k - 1, Pow256(len));
    }
  }

  lemma MulMono(m: nat, x: nat, y: nat)
    requires x <= y
    ensures m * x <= m * y
  {
  }

  lemma ModUnique(a: nat, m: nat, q: nat, r: nat)
    requires m > 0 && a == m * q + r && r < m
    ensures a % m == r
  {
    var q' := a / m;
    if q' > q {
      MulMono(m, q + 1, q');
    } else if q' < q {
      MulMono(m, q' + 1, q);
    }
  }

  lemma ModSucc(a: nat, m: nat)
    requires m > 0
    ensures (a + 1) % m == if a % m + 1 == m then 0 else a % m + 1
  {
    var (q, r) := (a / m, a % m);
    if r + 1 == m {
      ModUnique(a + 1, m, q + 1, 0);
    } else {
      ModUnique(a + 1, m, q, r + 1);
    }
  }

  /** The nonces of the first n uses. */
  function FirstNonces(nonce: Bytes, n: nat): (ns: seq<Bytes>)
    ensures |ns| == n && forall i :: 0 <= i < n ==> ns[i] == Advance(nonce, i)
  {
    seq(n, i requires 0 <= i < n => Advance(nonce, i))
  }

  predicate Distinct(ns: seq<Bytes>) { forall i, j :: 0 <= i < j < |ns| ==> ns[i] != ns[j] }

  /** The counter comes round after exactly 256^len uses. */
  lemma NonceComesRound(len: nat)
    ensures Advance(Zeros(len), Pow256(len)) == Zeros(len)
  {
    NonceCounts(len, Pow256(len));
    ModUnique(Pow256(len), Pow256(len), 1, 0);
    ZerosValue(len);
    LittleEndianInjective(Advance(Zeros(len), Pow256(len)), Zeros(len));
  }

  lemma NoncesDiffer(len: nat, j: nat, k: nat)
    requires j < k < Pow256(len)
    ensures Advance(Zeros(len), j) != Advance(Zeros(len), k)
  {
    NonceCounts(len, j);
    NonceCounts(len, k);
    ModUnique(j, Pow256(len), 0, j);
    ModUnique(k, Pow256(len), 0, k);
  }

  /** The nonces of n uses from zero are pairwise distinct exactly up to 256^len uses. */
  lemma NoncesAreDistinct(len: nat, n: nat)
    ensures Distinct(FirstNonces(Zeros(len), n)) <==> n <= Pow256(len)
  {
    var ns := FirstNonces(Zeros(len), n);
    if n <= Pow256(len) {
      forall i, j | 0 <= i < j < n ensures ns[i] != ns[j] { NoncesDiffer(len, i, j); }
    } else {
      NonceComesRound(len);
      assert ns[0] == ns[Pow256(len)];
    }
  }

  /** The first byte counts every use, the others only its carries. */
  lemma FirstByteFirst(s: Bytes)
    requires s != []
    ensures Inc(s)[0] == (s[0] as int + 1) % 256 && (s[0] < 255 ==> Inc(s)[1..] == s[1..])
  {
  }
}
