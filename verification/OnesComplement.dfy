/** The Internet checksum (RFC 1071) and its incremental update (section 3 of RFC 1624),
    as the kernel helpers and the injection code compute them. */
module OnesComplement {
  import opened Bytes

  /** Sum of host-order words, an odd trailing byte counting as the low half. */
  function SumLe(s: seq<byte>): nat {
    if |s| == 0 then 0
    else if |s| == 1 then s[0]
    else Le16(s[0], s[1]) + SumLe(s[2..])
  }

  /** RFC 1071's sum: network-order words, an odd trailing byte padded with zero on the right. */
  function SumBe(s: seq<byte>): nat {
    if |s| == 0 then 0
    else if |s| == 1 then 0x100 * s[0]
    else Be16(s[0], s[1]) + SumBe(s[2..])
  }

  /** End-around-carry folding to sixteen bits. */
  function Fold(s: nat): u16 {
    if s <= 0xffff then s else Fold(s % 0x1_0000 + s / 0x1_0000)
  }

  /** A block carrying its own checksum is intact when its RFC 1071 sum folds to all ones. */
  ghost predicate Valid(s: seq<byte>) {
    Fold(SumBe(s)) == 0xffff
  }

  ghost predicate Congruent(a: int, b: int) {
    (a - b) % 0xffff == 0
  }

  lemma {:induction false} FoldCongruent(s: nat)
    ensures Congruent(Fold(s), s)
    ensures Fold(s) == 0 <==> s == 0
    decreases s
  {
    if s <= 0xffff {
    } else {
      FoldCongruent(s % 0x1_0000 + s / 0x1_0000);
    }
  }

  /** Folding to all ones is the same as a positive multiple of 0xffff. */
  lemma FoldsToAllOnes(s: nat)
    ensures Fold(s) == 0xffff <==> s > 0 && s % 0xffff == 0
  {
    hide Fold;
    FoldCongruent(s);
    CongruentToZero(Fold(s), s);
  }

  lemma {:induction false} SumBound(s: seq<byte>)
    ensures SumLe(s) <= 0x8000 * |s|
  {
    if |s| < 2 {
    } else {
      SumBound(s[2..]);
    }
  }

  lemma {:induction false} SumAppend(a: seq<byte>, b: seq<byte>)
    requires |a| % 2 == 0
    ensures SumLe(a + b) == SumLe(a) + SumLe(b)
  {
    if |a| == 0 {
      assert a + b == b;
    } else {
      assert (a + b)[2..] == a[2..] + b;
      SumAppend(a[2..], b);
    }
  }

  lemma SumOfPair(s: seq<byte>)
    requires |s| == 2
    ensures SumLe(s) == Le16(s[0], s[1])
  {
  }

  lemma LeadingWordPositive(s: seq<byte>)
    requires |s| >= 2 && (s[0] != 0 || s[1] != 0)
    ensures SumLe(s) > 0
  {
  }

  /** Byte order does not matter to the one's-complement sum (section 2(B) of RFC 1071). */
  lemma {:induction false} ByteOrderIndependent(s: seq<byte>)
    ensures Congruent(SumBe(s), 0x100 * SumLe(s))
    ensures SumBe(s) == 0 <==> SumLe(s) == 0
  {
    if |s| < 2 {
    } else {
      ByteOrderIndependent(s[2..]);
    }
  }

  /** Multiplying by 0x100 is invertible modulo 0xffff. */
  lemma ScaleByByte(x: int)
    ensures 0x100 * x % 0xffff == 0 <==> x % 0xffff == 0
  {
    if 0x100 * x % 0xffff == 0 {
      var k := 0x100 * x / 0xffff;
      assert x == 0xffff * (0x100 * k - x);
    }
  }

  lemma CongruentToZero(a: int, b: int)
    requires Congruent(a, b)
    ensures a % 0xffff == 0 <==> b % 0xffff == 0
  {
  }

  lemma CongruentAdd(a: int, b: int, c: int)
    requires Congruent(a, b)
    ensures Congruent(a + c, b + c)
  {
    assert (a + c) - (b + c) == a - b;
  }

  /** Validity read off the host-order sum. */
  lemma {:induction false} ValidIffHostOrder(s: seq<byte>)
    ensures Valid(s) <==> SumLe(s) > 0 && SumLe(s) % 0xffff == 0
  {
    ByteOrderIndependent(s);
    CongruentToZero(SumBe(s), 0x100 * SumLe(s));
    ScaleByByte(SumLe(s));
    FoldsToAllOnes(SumBe(s));
  }

  /** Overwriting an aligned word moves the sum by the difference of the two words. */
  lemma {:induction false} SumPatchWord(s: seq<byte>, at: nat, w: seq<byte>)
    requires at % 2 == 0 && |w| == 2 && at + 2 <= |s|
    ensures SumLe(Patch(s, at, w)) == SumLe(s) - Le16(s[at], s[at + 1]) + Le16(w[0], w[1])
  {
    var r := Patch(s, at, w);
    if at == 0 {
      assert r[2..] == s[2..];
    } else {
      assert r[2..] == Patch(s[2..], at - 2, w);
      SumPatchWord(s[2..], at - 2, w);
    }
  }

  /** A sum in the same residue class stays valid as long as it does not vanish. */
  lemma StaysValid(s: seq<byte>, t: seq<byte>)
    requires Valid(s) && Congruent(SumLe(t), SumLe(s)) && SumLe(t) > 0
    ensures Valid(t)
  {
    hide SumLe, Valid;
    ValidIffHostOrder(s);
    ValidIffHostOrder(t);
    CongruentToZero(SumLe(t), SumLe(s));
  }

  lemma SameResidue(c: u16, f: u16, sum: int)
    requires Congruent(f, sum) && (sum + c) % 0xffff == 0
    ensures c == 0xffff - f || (c == 0xffff && f == 0xffff) || (c == 0 && f == 0)
  {
    assert (f + c) % 0xffff == 0 by {
      assert f + c == 0xffff * ((f - sum) / 0xffff + (sum + c) / 0xffff);
    }
  }

  /** The checksum inside a valid block is the one a full recomputation stores, up to the two
      representations of one's-complement zero. */
  lemma ValidMeansRecomputed(s: seq<byte>, at: nat)
    requires at % 2 == 0 && at + 2 <= |s| && Valid(s)
    ensures var check, full := Le16(s[at], s[at + 1]), 0xffff - Fold(SumLe(Patch(s, at, [0, 0])));
            check == full || (check == 0xffff && full == 0)
  {
    hide SumLe, Fold, Valid, Congruent, Patch;
    var check, zeroed := Le16(s[at], s[at + 1]), SumLe(Patch(s, at, [0, 0]));
    SumPatchWord(s, at, [0, 0]);
    ValidIffHostOrder(s);
    FoldCongruent(zeroed);
    SameResidue(check, Fold(zeroed), zeroed);
  }

  // ---------------------------------------------------------------- kernel helpers

  /** Sixteen-bit addition with end-around carry. */
  function Csum16Add(a: u16, b: u16): (r: u16)
    ensures Congruent(r, a + b)
  {
    var s := (a + b) % 0x1_0000;
    if s < b then s + 1 else s
  }

  /** Thirty-two-bit addition with end-around carry. */
  function Csum32Add(a: u32, b: u32): (r: u32)
    ensures Congruent(r, a + b)
  {
    var s := (a + b) % 0x1_0000_0000;
    if s < b then s + 1 else s
  }

  /** Two folds reach sixteen bits from thirty-two; the result is complemented. */
  function CsumFold(s: u32): (r: u16)
    ensures Congruent(r, 0 - s as int)
  {
    var once := s % 0x1_0000 + s / 0x1_0000;
    0xffff - (once % 0x1_0000 + once / 0x1_0000)
  }

  /** `bpf_l3_csum_replace` for a two-byte field: equation 3 of RFC 1624. */
  function CsumReplace2(check: u16, from: u16, to: u16): (r: u16)
    ensures Congruent(r, check + from - to)
  {
    hide Csum16Add;
    0xffff - Csum16Add(Csum16Add(0xffff - check, 0xffff - from), to)
  }

  /** `bpf_l3_csum_replace` for a four-byte field. */
  function CsumReplace4(check: u16, from: u32, to: u32): (r: u16)
    ensures Congruent(r, check + from - to)
  {
    hide Csum32Add, CsumFold;
    CsumFold(Csum32Add(Csum32Add(0xffff_ffff - check, 0xffff_ffff - from), to))
  }
}
