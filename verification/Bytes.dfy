/** Fixed-width little-endian integers, as Go's encoding/binary and Node's Buffer write them. */
module Bytes {

  type byte = x: int | 0 <= x < 0x100
  type uint16 = x: int | 0 <= x < 0x1_0000
  type uint64 = x: int | 0 <= x < 0x1_0000_0000_0000_0000

  function Pow256(n: nat): (p: nat)
    ensures p > 0
  {
    if n == 0 then 1 else 256 * Pow256(n - 1)
  }

  function ToLE(width: nat, v: nat): (bs: seq<byte>)
    ensures |bs| == width
  {
    if width == 0 then [] else [v % 256] + ToLE(width - 1, v / 256)
  }

  function FromLE(bs: seq<byte>): nat {
    if bs == [] then 0 else bs[0] + 256 * FromLE(bs[1..])
  }

  lemma {:induction false} ReadBack(width: nat, v: nat)
    requires v < Pow256(width)
    ensures FromLE(ToLE(width, v)) == v
  {
    if width == 0 {
    } else {
      ReadBack(width - 1, v / 256);
      assert ToLE(width, v)[1..] == ToLE(width - 1, v / 256);
    }
  }

  lemma {:induction false} WriteBack(bs: seq<byte>)
    ensures FromLE(bs) < Pow256(|bs|)
    ensures ToLE(|bs|, FromLE(bs)) == bs
  {
    if bs == [] {
    } else {
      WriteBack(bs[1..]);
      assert FromLE(bs) / 256 == FromLE(bs[1..]);
      assert bs == [bs[0]] + bs[1..];
    }
  }

  lemma LowAndRest(low: byte, rest: nat)
    ensures (low + 256 * rest) % 256 == low && (low + 256 * rest) / 256 == rest
  {
  }

  /** Little-endian: the low byte comes first. */
  lemma LowByteFirst(width: nat, low: byte, rest: nat)
    ensures ToLE(width + 1, low + 256 * rest) == [low] + ToLE(width, rest)
  {
    LowAndRest(low, rest);
  }

  lemma TwoBytes(n: nat)
    requires n <= 0xFFFF
    ensures ToLE(2, n) == [n % 256, n / 256]
  {
    LowByteFirst(1, n % 256, n / 256);
    LowByteFirst(0, n / 256, 0);
  }

  lemma Widths()
    ensures Pow256(2) == 0x1_0000
    ensures Pow256(8) == 0x1_0000_0000_0000_0000
  {
  }

  /** Go's uint16(n): the low 16 bits. */
  function Truncate16(n: nat): (t: uint16)
    ensures n <= 0xFFFF ==> t == n
  {
    n % 0x1_0000
  }

  function ReadU16(bs: seq<byte>): (v: uint16)
    requires |bs| == 2
    ensures ToLE(2, v) == bs
  {
    Widths();
    WriteBack(bs);
    FromLE(bs)
  }

  function ReadU64(bs: seq<byte>): (v: uint64)
    requires |bs| == 8
    ensures ToLE(8, v) == bs
  {
    Widths();
    WriteBack(bs);
    FromLE(bs)
  }

  lemma ReadBackU16(v: uint16)
    ensures ReadU16(ToLE(2, v)) == v
  {
    Widths();
    ReadBack(2, v);
  }

  lemma ReadBackU64(v: uint64)
    ensures ReadU64(ToLE(8, v)) == v
  {
    Widths();
    ReadBack(8, v);
  }

  /** Stores `width` bytes of `v` at offset `at` and leaves every other byte alone. */
  method PutLE(buf: array<byte>, at: nat, width: nat, v: nat)
    requires at + width <= buf.Length
    modifies buf
    ensures buf[..at] == old(buf[..at])
    ensures buf[at..at + width] == ToLE(width, v)
    ensures buf[at + width..] == old(buf[at + width..])
  {
    var k, rest := 0, v;
    while k < width
      invariant 0 <= k <= width
      invariant buf[..at] == old(buf[..at])
      invariant buf[at + width..] == old(buf[at + width..])
      invariant buf[at..at + k] + ToLE(width - k, rest) == ToLE(width, v)
    {
      ghost var before := buf[at..at + k];
      buf[at + k] := rest % 256;
      assert buf[at..at + k + 1] == before + [rest % 256];
      k, rest := k + 1, rest / 256;
    }
  }

  /** Copies `src` to offset `at` and leaves every other byte alone. */
  method CopyInto(buf: array<byte>, at: nat, src: seq<byte>)
    requires at + |src| <= buf.Length
    modifies buf
    ensures buf[..at] == old(buf[..at])
    ensures buf[at..at + |src|] == src
    ensures buf[at + |src|..] == old(buf[at + |src|..])
  {
    forall k | 0 <= k < |src| {
      buf[at + k] := src[k];
    }
  }
}
