/** Bytes, big-endian fields and the `At` relation that places bytes in a buffer. */
module Bytes {
  type byte = x: int | 0 <= x < 0x100
  type u16 = x: int | 0 <= x < 0x1_0000
  type u32 = x: int | 0 <= x < 0x1_0000_0000

  /** Strings are modelled as their ASCII bytes. */
  type Text = seq<byte>

  datatype Option<+T> = None | Some(value: T)

  function Min(a: int, b: int): int { if a <= b then a else b }

  function Max(a: int, b: int): int { if a <= b then b else a }

  function Clamp(x: int, lo: int, hi: int): int { Max(lo, Min(x, hi)) }

  function U16(x: u16): (b: seq<byte>)
    ensures |b| == 2
  {
    [x / 0x100, x % 0x100]
  }

  function U32(x: u32): (b: seq<byte>)
    ensures |b| == 4
  {
    U16(x / 0x1_0000) + U16(x % 0x1_0000)
  }

  function ReadU16(buf: seq<byte>, p: nat): u16
    requires p + 2 <= |buf|
  {
    var a: int, b: int := buf[p], buf[p + 1];
    a * 0x100 + b
  }

  function ReadU32(buf: seq<byte>, p: nat): u32
    requires p + 4 <= |buf|
  {
    var hi: int, lo: int := ReadU16(buf, p), ReadU16(buf, p + 2);
    hi * 0x1_0000 + lo
  }

  /** `buf` holds the bytes `s` from position `pos` on. */
  predicate At(buf: seq<byte>, pos: nat, s: seq<byte>) {
    pos + |s| <= |buf| && buf[pos..pos + |s|] == s
  }

  lemma AtIndex(buf: seq<byte>, pos: nat, s: seq<byte>, i: nat)
    requires At(buf, pos, s) && i < |s|
    ensures buf[pos + i] == s[i]
  {
    assert buf[pos..pos + |s|][i] == s[i];
  }

  lemma AtSplit(buf: seq<byte>, pos: nat, a: seq<byte>, b: seq<byte>)
    requires At(buf, pos, a + b)
    ensures At(buf, pos, a) && At(buf, pos + |a|, b)
  {
    assert buf[pos..pos + |a|] == (a + b)[..|a|];
    assert buf[pos + |a|..pos + |a| + |b|] == (a + b)[|a|..];
  }

  lemma U16At(buf: seq<byte>, pos: nat, x: u16)
    requires At(buf, pos, U16(x))
    ensures ReadU16(buf, pos) == x
  {
    AtIndex(buf, pos, U16(x), 0);
    AtIndex(buf, pos, U16(x), 1);
  }

  lemma U32At(buf: seq<byte>, pos: nat, x: u32)
    requires At(buf, pos, U32(x))
    ensures ReadU32(buf, pos) == x
  {
    AtSplit(buf, pos, U16(x / 0x1_0000), U16(x % 0x1_0000));
    U16At(buf, pos, x / 0x1_0000);
    U16At(buf, pos + 2, x % 0x1_0000);
  }

  // Single-bit operations on a 16-bit flag word; `mask` is a power of two.

  predicate HasBit(flags: u16, mask: u16)
    requires mask > 0
  {
    flags / mask % 2 == 1
  }

  function SetBit(flags: u16, mask: u16): (r: int)
    requires mask > 0
    ensures HasBit(flags, mask) ==> r == flags
  {
    if HasBit(flags, mask) then flags else flags + mask
  }

  function ClearBit(flags: u16, mask: u16): (r: int)
    requires mask > 0
  {
    if HasBit(flags, mask) then flags - mask else flags
  }

  lemma {:induction false} SubsetSize<T>(a: set<T>, b: set<T>)
    requires a <= b
    ensures |a| <= |b|
  {
    if a != {} {
      var x :| x in a;
      SubsetSize(a - {x}, b - {x});
    }
  }
}
