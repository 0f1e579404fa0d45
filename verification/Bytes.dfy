/** Machine integers and byte strings as the eBPF programs see them: a little-endian host
    reading and writing big-endian protocol fields. */
module Bytes {

  type byte = x: int | 0 <= x < 0x100
  type u16 = x: int | 0 <= x < 0x1_0000
  type u32 = x: int | 0 <= x < 0x1_0000_0000
  type u64 = x: int | 0 <= x < 0x1_0000_0000_0000_0000

  /** The host's view of two consecutive bytes. */
  function Le16(lo: byte, hi: byte): u16 {
    lo + 0x100 * hi
  }

  /** The protocol's view of two consecutive bytes. */
  function Be16(hi: byte, lo: byte): u16 {
    0x100 * hi + lo
  }

  function Le32(b: seq<byte>): u32
    requires |b| == 4
  {
    Le16(b[0], b[1]) as int + 0x1_0000 * Le16(b[2], b[3])
  }

  function Be32(b: seq<byte>): u32
    requires |b| == 4
  {
    0x1_0000 * Be16(b[0], b[1]) as int + Be16(b[2], b[3])
  }

  /** Storing a host word. */
  function Le16Bytes(w: u16): (b: seq<byte>)
    ensures |b| == 2 && Le16(b[0], b[1]) == w
  {
    [w % 0x100, w / 0x100]
  }

  function Be16Bytes(w: u16): (b: seq<byte>)
    ensures |b| == 2 && Be16(b[0], b[1]) == w
  {
    [w / 0x100, w % 0x100]
  }

  function Le32Bytes(w: u32): (b: seq<byte>)
    ensures |b| == 4 && Le32(b) == w
  {
    Le16Bytes(w % 0x1_0000) + Le16Bytes(w / 0x1_0000)
  }

  function Be32Bytes(w: u32): (b: seq<byte>)
    ensures |b| == 4 && Be32(b) == w
  {
    Be16Bytes(w / 0x1_0000) + Be16Bytes(w % 0x1_0000)
  }

  /** Overwrites `|v|` bytes at `off`. */
  function Patch(p: seq<byte>, off: nat, v: seq<byte>): (r: seq<byte>)
    requires off + |v| <= |p|
    ensures |r| == |p|
    ensures r[off..off + |v|] == v
    ensures r[..off] == p[..off] && r[off + |v|..] == p[off + |v|..]
    ensures forall i :: 0 <= i < |p| && !(off <= i < off + |v|) ==> r[i] == p[i]
  {
    p[..off] + v + p[off + |v|..]
  }

  lemma SliceOfSlice<T>(s: seq<T>, a: nat, b: nat, c: nat, d: nat)
    requires a <= b <= |s| && c <= d <= b - a
    ensures s[a..b][c..d] == s[a + c..a + d]
  {
    var t := s[a..b];
    forall i | 0 <= i < d - c
      ensures t[c..d][i] == s[a + c..a + d][i]
    {
      assert t[c..d][i] == t[c + i] == s[a + (c + i)];
    }
  }

  /** Patching the middle part of a concatenation. */
  lemma PatchInside(a: seq<byte>, b: seq<byte>, c: seq<byte>, off: nat, v: seq<byte>)
    requires off + |v| <= |b|
    ensures Patch(a + b + c, |a| + off, v) == a + Patch(b, off, v) + c
  {
    var l, r := Patch(a + b + c, |a| + off, v), a + Patch(b, off, v) + c;
    assert |l| == |r|;
    forall i | 0 <= i < |l|
      ensures l[i] == r[i]
    {
    }
  }

  /** Patching the first part. */
  lemma PatchFirst(a: seq<byte>, b: seq<byte>, c: seq<byte>, off: nat, v: seq<byte>)
    requires off + |v| <= |a|
    ensures Patch(a + b + c, off, v) == Patch(a, off, v) + b + c
  {
    PatchInside([], a, b + c, off, v);
    assert [] + a + (b + c) == a + b + c;
    assert [] + Patch(a, off, v) + (b + c) == Patch(a, off, v) + b + c;
  }

  lemma PatchTwice(p: seq<byte>, off: nat, v: seq<byte>, w: seq<byte>)
    requires off + |v| <= |p| && |v| == |w|
    ensures Patch(Patch(p, off, v), off, w) == Patch(p, off, w)
  {
  }
}
