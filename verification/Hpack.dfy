/** The in-kernel HPACK string encoder: a 64-bit accumulator flushed 32 bits at a time into a
    fixed 55-byte buffer. */
module Hpack {
  import opened Bytes
  import opened Options
  import opened BitStrings
  import opened HuffmanTable
  import opened Huffman
  import opened Traceparent

  const EOS_PAD_BYTE := 0xff

  /** The bytes of `v`, most significant first. */
  function BigEndian(v: nat, n: nat): (s: seq<byte>)
    ensures |s| == n
  {
    if n == 0 then [] else BigEndian(v / 0x100, n - 1) + [v % 0x100]
  }

  lemma {:induction false} BigEndianBits(v: nat, n: nat)
    ensures ByteBits(BigEndian(v, n)) == Bits(v, 8 * n)
  {
    hide Bits;
    if n == 0 {
      assert Bits(v, 0) == [];
    } else {
      BigEndianBits(v / 0x100, n - 1);
      LowByte(v, 8 * (n - 1));
      ByteBitsAppend(BigEndian(v / 0x100, n - 1), v % 0x100);
    }
  }

  lemma {:induction false} ByteBitsConcat(a: seq<byte>, b: seq<byte>)
    ensures ByteBits(a + b) == ByteBits(a) + ByteBits(b)
  {
    hide Bits;
    if |b| == 0 {
      assert a + b == a;
    } else {
      var last := |b| - 1;
      ByteBitsConcat(a, b[..last]);
      assert (a + b)[..|a + b| - 1] == a + b[..last];
    }
  }

  /** The 32 bits above the `c` that stay behind, as the four stored bytes. */
  lemma Flush(m: u64, c: nat)
    ensures var y := Shr(m, c) % 0x1_0000_0000;
            Bits(m, c + 32) ==
            ByteBits([y / 0x100_0000, y / 0x1_0000 % 0x100, y / 0x100 % 0x100, y % 0x100]) + Bits(m, c)
  {
    hide Bits, ByteBits, Pow2, Shr;
    var y := Shr(m, c) % 0x1_0000_0000;
    BitsSplit(m, 32, c);
    assert c + 32 == 32 + c;
    Pow2Values();
    BitsMod(Shr(m, c), 32, 32);
    BigEndianBits(y, 4);
    FourBytes(y);
  }

  lemma FourBytes(y: u32)
    ensures BigEndian(y, 4) == [y / 0x100_0000, y / 0x1_0000 % 0x100, y / 0x100 % 0x100, y % 0x100]
  {
    var three, two, one := y / 0x100, y / 0x1_0000, y / 0x100_0000;
    assert BigEndian(one, 1) == [one % 0x100];
    assert two / 0x100 == one && three / 0x100 == two;
    assert BigEndian(two, 2) == [one % 0x100, two % 0x100];
    assert BigEndian(three, 3) == [one % 0x100, two % 0x100, three % 0x100];
  }

  lemma PadBits(over: nat)
    requires 0 < over < 8
    ensures Shr(EOS_PAD_BYTE, over) == Pow2(8 - over) - 1
  {
    assert Pow2(1) == 2 && Pow2(2) == 4 && Pow2(3) == 8 && Pow2(4) == 16;
    assert Pow2(5) == 32 && Pow2(6) == 64 && Pow2(7) == 128;
    match over
    case 1 => case 2 => case 3 => case 4 => case 5 => case 6 => case 7 =>
  }

  class HpackCtx {
    const src: seq<byte>
    var dst: array<byte>
    var mBytes: u64
    var mCount: u32
    var len: int

    constructor (src: seq<byte>)
      requires |src| == TP_MAX_VAL_LENGTH
      ensures this.src == src && Zeroed()
      ensures fresh(dst)
    {
      this.src := src;
      dst := new byte[TP_MAX_VAL_LENGTH];
      mBytes, mCount, len := 0, 0, 0;
    }

    predicate Zeroed()
      reads this
    {
      |src| == dst.Length == TP_MAX_VAL_LENGTH && mBytes == mCount == len == 0
    }

    /** The flushed bytes followed by the pending bits are the first `i` code words. */
    ghost predicate Encoded(i: nat)
      reads this, dst
    {
      && |src| == dst.Length == TP_MAX_VAL_LENGTH && i <= |src|
      && 0 <= len <= 52 && len % 4 == 0 && mCount < 32
      && ByteBits(dst[..len]) + Bits(mBytes, mCount) == Words(src[..i])
    }

    /** Moves the accumulator's upper 32 bits out. */
    method FlushWord()
      requires dst.Length == TP_MAX_VAL_LENGTH && 0 <= len <= 48 && 32 <= mCount < 64
      modifies this, dst
      ensures dst == old(dst) && mBytes == old(mBytes)
      ensures len == old(len) + 4 && mCount == old(mCount) - 32
      ensures ByteBits(dst[..len]) + Bits(mBytes, mCount) == old(ByteBits(dst[..len]) + Bits(mBytes, mCount))
    {
      hide Bits, ByteBits, Pow2, Shr;
      ghost var before := dst[..len];
      mCount := mCount % 32;
      var y := Shr(mBytes, mCount) % 0x1_0000_0000;
      var n := len;
      dst[n] := y / 0x100_0000;
      dst[n + 1] := y / 0x1_0000 % 0x100;
      dst[n + 2] := y / 0x100 % 0x100;
      dst[n + 3] := y % 0x100;
      len := len + 4;
      ghost var word := [y / 0x100_0000, y / 0x1_0000 % 0x100, y / 0x100 % 0x100, y % 0x100];
      assert dst[..len] == before + word;
      Flush(mBytes, mCount);
      ByteBitsConcat(before, word);
    }

    /** One symbol. */
    method EncodeIter(index: nat) returns (stop: bool)
      requires index < TP_MAX_VAL_LENGTH && Encoded(index)
      modifies this, dst
      ensures dst == old(dst)
      ensures if old(len) >= TP_MAX_VAL_LENGTH - 4 then stop && len == -1 else !stop && Encoded(index + 1)
    {
      hide Bits, ByteBits, Pow2, HuffmanCode, HuffmanCodeLen, Or, Shl64, Words;
      if len >= TP_MAX_VAL_LENGTH - 4 {
        len := -1;
        return true;
      }
      var b := src[index];
      CodeFits(b);
      ghost var flushed, pending := dst[..len], Bits(mBytes, mCount);
      ShiftIn(mBytes, mCount, HuffmanCode(b), HuffmanCodeLen(b));
      mCount := mCount + HuffmanCodeLen(b);
      mBytes := Or(Shl64(mBytes, HuffmanCodeLen(b) % 64), HuffmanCode(b));
      WordsAppend(src[..index], b);
      assert src[..index + 1] == src[..index] + [b];
      assert ByteBits(dst[..len]) + Bits(mBytes, mCount) == Words(src[..index + 1]);
      if mCount >= 32 {
        FlushWord();
      }
      stop := false;
    }

    /** The tail switch. */
    method StoreTail(n: nat)
      requires n <= 4 && dst.Length == TP_MAX_VAL_LENGTH && 0 <= len <= 48
      modifies this, dst
      ensures dst == old(dst) && len == old(len) + n
      ensures dst[..len] == old(dst[..len]) + TailBytes(old(mBytes), n)
    {
      var m := len;
      match n {
        case 0 =>
        case 1 =>
          dst[m] := mBytes % 0x100;
        case 2 =>
          var y := mBytes % 0x1_0000;
          dst[m], dst[m + 1] := y / 0x100, y % 0x100;
        case 3 =>
          var y := mBytes / 0x100 % 0x1_0000;
          dst[m], dst[m + 1], dst[m + 2] := y / 0x100, y % 0x100, mBytes % 0x100;
        case _ =>
          var y := mBytes % 0x1_0000_0000;
          dst[m], dst[m + 1] := y / 0x100_0000, y / 0x1_0000 % 0x100;
          dst[m + 2], dst[m + 3] := y / 0x100 % 0x100, y % 0x100;
      }
      len := len + n;
    }

    /** The result is the RFC 7541 encoding, or a refusal when it would not fit the buffer. */
    method HpackEncodeTp() returns (r: int)
      requires Zeroed()
      modifies this, dst
      ensures dst == old(dst)
      ensures r == -1 <==> |Words(src)| >= 416
      ensures r != -1 ==> r == len == (|Words(src)| + 7) / 8 <= dst.Length
      ensures r != -1 ==> ByteBits(dst[..r]) == Words(src) + Ones(8 * r - |Words(src)|)
    {
      hide Bits, ByteBits, Pow2, Words, Ones, Or, Shl64, Shr, TailBytes;
      Nothing();
      assert src[..0] == [] && dst[..0] == [];
      var index := 0;
      while index < TP_MAX_VAL_LENGTH
        invariant dst == old(dst)
        invariant 0 <= index <= TP_MAX_VAL_LENGTH && Encoded(index)
      {
        ghost var flushed := len;
        var stop := EncodeIter(index);
        if stop {
          WordsMonotone(src, index);
          return -1;
        }
        index := index + 1;
      }
      assert src[..index] == src;
      if len > TP_MAX_VAL_LENGTH - 4 {
        return -1;
      }
      var over := mCount % 8;
      ghost var flushed := dst[..len];
      ghost var pad := if over > 0 then 8 - over else 0;
      if over > 0 {
        PadBits(over);
        ShiftIn(mBytes, mCount, Pow2(pad) - 1, pad);
        OnesAreOnes(pad);
        mBytes := Or(Shl64(mBytes, 8 - over), Shr(EOS_PAD_BYTE, over));
        mCount := mCount + (8 - over);
      } else {
        NoOnes();
      }
      assert ByteBits(flushed) + Bits(mBytes, mCount) == Words(src) + Ones(pad);
      var rem := mCount / 8;
      ghost var tail := TailBytes(mBytes, rem);
      TailBits(mBytes, rem);
      StoreTail(rem);
      ByteBitsConcat(flushed, tail);
      r := len;
    }
  }

  lemma Nothing()
    ensures ByteBits([]) == [] && Words([]) == []
    ensures forall v :: Bits(v, 0) == []
  {
  }

  lemma NoOnes()
    ensures Ones(0) == []
  {
  }

  lemma {:induction false} WordsMonotone(s: seq<byte>, i: nat)
    requires i <= |s|
    ensures |Words(s[..i])| <= |Words(s)|
    decreases |s| - i
  {
    hide Word, Words;
    if i == |s| {
      assert s[..i] == s;
    } else {
      WordsMonotone(s, i + 1);
      WordsAppend(s[..i], s[i]);
      assert s[..i + 1] == s[..i] + [s[i]];
    }
  }

  /** The bytes the tail switch stores, case by case. */
  function TailBytes(m: u64, n: nat): (s: seq<byte>)
    requires n <= 4
    ensures |s| == n
  {
    match n
    case 0 => []
    case 1 => [m % 0x100]
    case 2 => var y := m % 0x1_0000; [y / 0x100, y % 0x100]
    case 3 => var y := m / 0x100 % 0x1_0000; [y / 0x100, y % 0x100, m % 0x100]
    case _ => var y := m % 0x1_0000_0000; [y / 0x100_0000, y / 0x1_0000 % 0x100, y / 0x100 % 0x100, y % 0x100]
  }

  /** They are the accumulator's low bits. */
  lemma TailBits(m: u64, n: nat)
    requires n <= 4
    ensures ByteBits(TailBytes(m, n)) == Bits(m, 8 * n)
  {
    hide ByteBits, Bits;
    match n
    case 0 => Nothing();
    case 1 => Tail1(m);
    case 2 => Tail2(m);
    case 3 => Tail3(m);
    case 4 => Tail4(m);
  }

  lemma TwoBytes(y: u16)
    ensures BigEndian(y, 2) == [y / 0x100, y % 0x100]
  {
    assert BigEndian(y / 0x100, 1) == [y / 0x100];
  }

  /** The tail switch's arms each hold the accumulator's low bits. */
  lemma Tail1(m: u64)
    ensures ByteBits([m % 0x100]) == Bits(m, 8)
  {
    hide Bits, Pow2;
    Pow2Values();
    BitsMod(m, 8, 8);
    ByteBitsAppend([], m % 0x100);
    assert [] + [m % 0x100] == [m % 0x100];
  }

  lemma Tail2(m: u64)
    ensures var y := m % 0x1_0000; ByteBits([y / 0x100, y % 0x100]) == Bits(m, 16)
  {
    hide Bits, ByteBits, Pow2, BigEndian;
    Pow2Values();
    BitsMod(m, 16, 16);
    TwoBytes(m % 0x1_0000);
    BigEndianBits(m % 0x1_0000, 2);
  }

  lemma Tail3(m: u64)
    ensures var y := m / 0x100 % 0x1_0000; ByteBits([y / 0x100, y % 0x100, m % 0x100]) == Bits(m, 24)
  {
    hide Bits, ByteBits, Pow2;
    var y := m / 0x100 % 0x1_0000;
    Tail2(m / 0x100);
    LowByte(m, 16);
    ByteBitsAppend([y / 0x100, y % 0x100], m % 0x100);
    assert [y / 0x100, y % 0x100] + [m % 0x100] == [y / 0x100, y % 0x100, m % 0x100];
  }

  lemma Tail4(m: u64)
    ensures var y := m % 0x1_0000_0000;
            ByteBits([y / 0x100_0000, y / 0x1_0000 % 0x100, y / 0x100 % 0x100, y % 0x100]) == Bits(m, 32)
  {
    hide Bits, ByteBits, Pow2, BigEndian;
    Pow2Values();
    BitsMod(m, 32, 32);
    FourBytes(m % 0x1_0000_0000);
    BigEndianBits(m % 0x1_0000_0000, 4);
  }

  // ---------------------------------------------------------------- traceparent strings

  /** All characters of a printed traceparent have short codes. */
  lemma HexDigitIsShort(n: int)
    requires 0 <= n < 16
    ensures HuffmanCodeLen(HexDigit(n)) <= 6
  {
  }

  lemma DashIsShort()
    ensures HuffmanCodeLen(DASH) <= 6
  {
  }

  lemma {:induction false} ShortWords(s: seq<byte>)
    requires forall i :: 0 <= i < |s| ==> HuffmanCodeLen(s[i]) <= 6
    ensures |Words(s)| <= 6 * |s|
  {
    hide HuffmanCodeLen, Word;
    if |s| == 0 {
    } else {
      ShortWords(s[..|s| - 1]);
    }
  }

  lemma HexIsShort(s: seq<byte>, i: nat)
    requires i < 2 * |s|
    ensures HuffmanCodeLen(Hex(s)[i]) <= 6
  {
    hide HuffmanCodeLen, Hex, HexDigit;
    var b := s[i / 2];
    HexDigitIsShort(b / 16);
    HexDigitIsShort(b % 16);
  }

  /** The encoder never refuses a traceparent: 330 bits at most, and decoding gives it back. */
  lemma TraceparentFits(tp: TpInfo)
    ensures |Words(TpValue(tp))| <= 330
    ensures (|Words(TpValue(tp))| + 7) / 8 <= 42
    ensures forall pad :: 0 <= pad < 8 ==> Decode(Words(TpValue(tp)) + Ones(pad)) == Some(TpValue(tp))
  {
    hide HuffmanCodeLen, Hex, HexDigit, Words, Decode, Ones;
    var v := TpValue(tp);
    forall i | 0 <= i < |v|
      ensures HuffmanCodeLen(v[i]) <= 6
    {
      HexDigitIsShort(0);
      HexDigitIsShort(1);
      ZeroAndOne();
      DashIsShort();
      if 3 <= i < 35 {
        HexIsShort(tp.traceId, i - 3);
      } else if 36 <= i < 52 {
        HexIsShort(tp.spanId, i - 36);
      }
    }
    ShortWords(v);
    forall pad | 0 <= pad < 8
      ensures Decode(Words(v) + Ones(pad)) == Some(v)
    {
      DecodeWords(v, pad);
    }
  }

  lemma ZeroAndOne()
    ensures HexDigit(0) == ZERO && HexDigit(1) == ONE
  {
  }

  /** Print, encode, decode: the value survives, in at most 42 bytes. */
  method EncodeTraceparent(tp: TpInfo) returns (out: seq<byte>)
    ensures |out| <= 42 && Decode(ByteBits(out)) == Some(TpValue(tp))
  {
    hide Words, ByteBits, Decode, Ones, TpValue;
    var buf := new byte[TP_MAX_VAL_LENGTH];
    MakeTpString(buf, 0, tp);
    assert buf[..] == buf[0..0 + TP_MAX_VAL_LENGTH];
    var ctx := new HpackCtx(buf[..]);
    var r := ctx.HpackEncodeTp();
    TraceparentFits(tp);
    out := ctx.dst[..r];
  }

  // ---------------------------------------------------------------- the encoded name

  /** `tp_encoded` */
  const TP_ENCODED: seq<byte> := [0x4d, 0x83, 0x21, 0x6b, 0x1d, 0x85, 0xa9, 0x3f]

  /** "traceparent" */
  const TP_NAME: seq<byte> := [116, 114, 97, 99, 101, 112, 97, 114, 101, 110, 116]

  lemma NextWord(s: seq<byte>, v: nat, n: nat, b: byte, v': nat)
    requires Words(s) == Bits(v, n)
    requires v' == v * Pow2(HuffmanCodeLen(b)) + HuffmanCode(b)
    ensures Words(s + [b]) == Bits(v', n + HuffmanCodeLen(b))
  {
    hide Words, Bits, Pow2, HuffmanCode, HuffmanCodeLen;
    CodeFits(b);
    WordsAppend(s, b);
    BitsAppend(v, HuffmanCodeLen(b), HuffmanCode(b), n);
  }

  lemma NextLetter(i: nat, v: nat, n: nat, v': nat)
    requires i < |TP_NAME| && Words(TP_NAME[..i]) == Bits(v, n)
    requires v' == v * Pow2(HuffmanCodeLen(TP_NAME[i])) + HuffmanCode(TP_NAME[i])
    ensures Words(TP_NAME[..i + 1]) == Bits(v', n + HuffmanCodeLen(TP_NAME[i]))
  {
    hide Words, Bits, Pow2, HuffmanCode, HuffmanCodeLen;
    NextWord(TP_NAME[..i], v, n, TP_NAME[i], v');
    assert TP_NAME[..i + 1] == TP_NAME[..i] + [TP_NAME[i]];
  }

  lemma NameCodes()
    ensures HuffmanCode(116) == 0x9 && HuffmanCodeLen(116) == 5
    ensures HuffmanCode(114) == 0x2c && HuffmanCodeLen(114) == 6
    ensures HuffmanCode(97) == 0x3 && HuffmanCodeLen(97) == 5
    ensures HuffmanCode(99) == 0x4 && HuffmanCodeLen(99) == 5
    ensures HuffmanCode(101) == 0x5 && HuffmanCodeLen(101) == 5
    ensures HuffmanCode(112) == 0x2b && HuffmanCodeLen(112) == 6
    ensures HuffmanCode(110) == 0x2a && HuffmanCodeLen(110) == 6
    ensures Pow2(5) == 32 && Pow2(6) == 64
  {
  }

  /** The stored header name is the Huffman encoding of "traceparent" and decodes to it. */
  lemma NameIsEncoded()
    ensures ByteBits(TP_ENCODED) == Words(TP_NAME) + Ones(5)
    ensures Decode(ByteBits(TP_ENCODED)) == Some(TP_NAME)
  {
    hide Words, Bits, ByteBits, Pow2, HuffmanCode, HuffmanCodeLen, Decode, Ones;
    NameCodes();
    Nothing();
    assert TP_NAME[..0] == [] && TP_NAME[..11] == TP_NAME;
    NextLetter(0, 0, 0, 0x9);
    NextLetter(1, 0x9, 5, 0x26c);
    NextLetter(2, 0x26c, 11, 0x4d83);
    NextLetter(3, 0x4d83, 16, 0x9b064);
    NextLetter(4, 0x9b064, 21, 0x1360c85);
    NextLetter(5, 0x1360c85, 26, 0x4d83216b);
    NextLetter(6, 0x4d83216b, 32, 0x9b0642d63);
    NextLetter(7, 0x9b0642d63, 37, 0x26c190b58ec);
    NextLetter(8, 0x26c190b58ec, 43, 0x4d83216b1d85);
    NextLetter(9, 0x4d83216b1d85, 48, 0x1360c85ac7616a);
    NextLetter(10, 0x1360c85ac7616a, 54, 0x26c190b58ec2d49);
    OnesAreOnes(5);
    BitsAppend(0x26c190b58ec2d49, 5, 31, 59);
    NameBytes();
    DecodeWords(TP_NAME, 5);
  }

  lemma NameBytes()
    ensures ByteBits(TP_ENCODED) == Bits(0x4d83216b1d85a93f, 64)
  {
    hide Bits, ByteBits;
    BigEndianBits(0x4d83216b1d85a93f, 8);
    assert BigEndian(0x4d83216b1d85a93f, 8) == TP_ENCODED;
  }
}
