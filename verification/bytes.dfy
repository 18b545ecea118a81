/** Bytes, 16-bit words and their big-endian wire form. */
module Bytes {

  type byte = x: int | 0 <= x < 256
  type u16 = x: int | 0 <= x < 65536

  datatype Option<+T> = None | Some(value: T)

  function Min(a: int, b: int): int { if a < b then a else b }

  function Max(a: int, b: int): int { if a < b then b else a }

  function Be16(v: u16): seq<byte> {
    [v / 256, v % 256]
  }

  function U16At(s: seq<byte>, off: nat): u16
    requires off + 2 <= |s|
  {
    var hi: int := s[off];
    hi * 256 + s[off + 1]
  }

  /** The bytes of a list of chunks, in order. */
  function Concat(chunks: seq<seq<byte>>): seq<byte> {
    if chunks == [] then [] else chunks[0] + Concat(chunks[1..])
  }

  lemma {:induction false} ConcatAppend(a: seq<seq<byte>>, b: seq<seq<byte>>)
    ensures Concat(a + b) == Concat(a) + Concat(b)
  {
    if a == [] {
      assert a + b == b;
    } else {
      ConcatAppend(a[1..], b);
      assert (a + b)[1..] == a[1..] + b;
    }
  }

  lemma ConcatSnoc(a: seq<seq<byte>>, c: seq<byte>)
    ensures Concat(a + [c]) == Concat(a) + c
  {
    ConcatAppend(a, [c]);
    assert Concat([c]) == c + Concat([]);
  }

  /** A longer list of chunks starts with the bytes of a shorter one. */
  lemma ConcatPrefix(a: seq<seq<byte>>, n: nat)
    requires n <= |a|
    ensures Concat(a[..n]) <= Concat(a)
  {
    assert a == a[..n] + a[n..];
    ConcatAppend(a[..n], a[n..]);
  }

  /** memcpy into a buffer: it must fit, and the rest of the buffer stays. */
  method CopyIn(dst: array<byte>, at: nat, src: seq<byte>)
    requires at + |src| <= dst.Length
    modifies dst
    ensures dst[..at] == old(dst[..at]) && dst[at..at + |src|] == src && dst[at + |src|..] == old(dst[at + |src|..])
    ensures dst[..at + |src|] == old(dst[..at]) + src
  {
    for i := 0 to |src|
      invariant dst[..at] == old(dst[..at]) && dst[at..at + i] == src[..i] && dst[at + i..] == old(dst[at + i..])
    {
      dst[at + i] := src[i];
      assert dst[at..at + i + 1] == dst[at..at + i] + [src[i]];
      assert dst[at + i + 1..] == dst[at + i..][1..];
      assert old(dst[at + i + 1..]) == old(dst[at + i..])[1..];
    }
    assert src[..|src|] == src;
    assert dst[..at + |src|] == dst[..at] + dst[at..at + |src|];
  }
}
