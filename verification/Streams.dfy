/** Bytes and byte streams, as the stream codecs see a TCP connection. */
module Streams {
  import opened Options

  type byte = x: int | 0 <= x < 256

  type Bytes = seq<byte>

  /** What io.ReadFull takes from a stream that ends after `data`; short data is
      used up. */
  function Taken(data: Bytes, n: nat): (Option<Bytes>, Bytes) {
    if n <= |data| then (Some(data[..n]), data[n..]) else (None, [])
  }

  /** One direction of a connection: the bytes written and not yet read. */
  class Wire {
    var data: Bytes

    constructor ()
      ensures data == []
    {
      data := [];
    }

    method Write(b: Bytes)
      modifies this
      ensures data == old(data) + b
    {
      data := data + b;
    }

    method ReadFull(n: nat) returns (r: Option<Bytes>)
      modifies this
      ensures (r, data) == Taken(old(data), n)
    {
      if n <= |data| {
        r, data := Some(data[..n]), data[n..];
      } else {
        r, data := None, [];
      }
    }
  }

  lemma TakePrefix(wire: Bytes, a: Bytes, b: Bytes, n: nat)
    requires wire <= a + b && |a| == n
    ensures n <= |wire| ==> wire[..n] == a && wire[n..] <= b
    ensures wire == a + b ==> n <= |wire| && wire[n..] == b
  {
    if n <= |wire| {
      assert wire == (a + b)[..|wire|];
      assert wire[..n] == a;
      assert wire[n..] == b[..|wire| - n];
    }
  }

  lemma PrefixAppend(a: Bytes, b: Bytes, c: Bytes)
    requires b <= c
    ensures a + b <= a + c
  {
  }

  lemma Reassociate(a: Bytes, b: Bytes, c: Bytes)
    ensures (a + b) + c == a + (b + c)
  {
  }
}
