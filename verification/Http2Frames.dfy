/** HTTP/2 frame headers as the tracker decodes them, and its walk over a buffer of frames. */
module Http2Frames {
  import opened Bytes

  const FRAME_HEADER_LEN := 9

  const FRAME_DATA := 0
  const FRAME_HEADERS := 1
  const FRAME_CONTINUATION := 9

  type Header = h: seq<byte> | |h| == 9 witness [0, 0, 0, 0, 0, 0, 0, 0, 0]

  datatype Frame = Frame(length: nat, kind: byte, flags: byte, streamId: nat)

  // ---------------------------------------------------------------- RFC 7540, section 4.1

  function Be24(a: byte, b: byte, c: byte): nat {
    0x1_0000 * a + 0x100 * b + c
  }

  function RfcLength(h: Header): nat {
    Be24(h[0], h[1], h[2])
  }

  /** Thirty-one bits; the reserved one is ignored. */
  function RfcStreamId(h: Header): nat {
    Be32(h[5..9]) % 0x8000_0000
  }

  // ---------------------------------------------------------------- the decoder

  /** `bpf_ntohl` on a little-endian host. */
  function Ntohl(x: u32): u32 {
    Be32(Le32Bytes(x))
  }

  /** The 24-bit field as loaded. */
  function RawLength(h: Header): nat {
    Be24(h[2], h[1], h[0])
  }

  /** The 31-bit field as loaded: the lowest of the 32 bits belongs to another field. */
  function RawStreamId(h: Header): nat {
    Le32(h[5..9]) / 2
  }

  /** A frame without payload or of an undefined type keeps its fields as loaded. */
  function ReadFrameHeader(h: Header): Frame {
    if RawLength(h) == 0 || h[3] > FRAME_CONTINUATION then Frame(RawLength(h), h[3], h[4], RawStreamId(h))
    else
      Frame(Ntohl(RawLength(h) * 0x100 % 0x1_0000_0000) % 0x100_0000, h[3], h[4],
            Ntohl(RawStreamId(h) * 2 % 0x1_0000_0000) % 0x8000_0000)
  }

  /** The C structure, filled in place. */
  class FrameRecord {
    var frame: Frame

    constructor ()
      ensures frame == Frame(0, 0, 0, 0)
    {
      frame := Frame(0, 0, 0, 0);
    }

    /** Copies the header over the structure, then swaps the two multi-byte fields. */
    method Read(p: seq<byte>) returns (ok: bool)
      modifies this
      ensures ok <==> |p| >= FRAME_HEADER_LEN && RawLength(p[..9]) != 0 && p[3] <= FRAME_CONTINUATION
      ensures frame == if |p| < FRAME_HEADER_LEN then old(frame) else ReadFrameHeader(p[..9])
    {
      hide Ntohl;
      if |p| < FRAME_HEADER_LEN { return false; }
      var h: Header := p[..9];
      frame := Frame(RawLength(h), h[3], h[4], RawStreamId(h));
      if frame.length == 0 || frame.kind > FRAME_CONTINUATION { return false; }
      frame := frame.(length := Ntohl(frame.length * 0x100 % 0x1_0000_0000) % 0x100_0000);
      frame := frame.(streamId := Ntohl(frame.streamId * 2 % 0x1_0000_0000) % 0x8000_0000);
      return true;
    }
  }

  /** The bit of the id that the load shifts out. */
  function LostBit(top: byte): nat {
    if top % 2 == 1 then 0x100_0000 else 0
  }

  lemma Le16Inverse(lo: byte, hi: byte)
    ensures Le16Bytes(Le16(lo, hi)) == [lo, hi]
  {
  }

  lemma HalvesOf(lo: u16, hi: u16)
    ensures (lo + 0x1_0000 * hi) % 0x1_0000 == lo && (lo + 0x1_0000 * hi) / 0x1_0000 == hi
  {
  }

  lemma NtohlReverses(a: byte, b: byte, c: byte, d: byte)
    ensures Ntohl(Le32([a, b, c, d])) == 0x1_0000 * Be16(a, b) + Be16(c, d)
  {
    hide Le16Bytes, Be16, Le16;
    HalvesOf(Le16(a, b), Le16(c, d));
    Le16Inverse(a, b);
    Le16Inverse(c, d);
    assert Le32Bytes(Le32([a, b, c, d])) == [a, b] + [c, d];
  }

  /** What it takes to read the length: a type the standard defines, or a length that reads the same
      from either end. */
  predicate LengthReadable(h: Header) {
    h[3] <= FRAME_CONTINUATION || h[0] == h[2]
  }

  /** Payload or not, the decoded length is the real one exactly then. */
  lemma LengthMatchesRfcIff(h: Header)
    ensures ReadFrameHeader(h).length == RfcLength(h) <==> LengthReadable(h)
  {
    hide Ntohl, Le32, Be16;
    LengthShift(h);
    NtohlReverses(0, h[0], h[1], h[2]);
    TopByteZero(h[0], h[1], h[2]);
  }

  lemma LengthShift(h: Header)
    ensures RawLength(h) * 0x100 % 0x1_0000_0000 == Le32([0, h[0], h[1], h[2]])
    ensures RawLength(h) == 0 <==> RfcLength(h) == 0
  {
  }

  lemma TopByteZero(a: byte, b: byte, c: byte)
    ensures (0x1_0000 * Be16(0, a) + Be16(b, c)) % 0x100_0000 == Be24(a, b, c)
  {
  }

  /** With a payload and a defined type the two multi-byte fields are swapped. */
  predicate IsSwapped(h: Header) {
    RfcLength(h) > 0 && h[3] <= FRAME_CONTINUATION
  }

  /** What it takes to read the stream id: of a swapped header, bit 24 is clear; of one left as loaded,
      the id reads the same shifted and reversed, so that its bytes are all zeros or all ones. */
  predicate StreamIdReadable(h: Header) {
    if IsSwapped(h) then RfcStreamId(h) / 0x100_0000 % 2 == 0
    else h[5] == h[6] == h[7] == h[8] && (h[5] == 0 || h[5] == 0xff)
  }

  /** The decoded stream id is the real one exactly then; of a swapped header only bit 24 is lost. */
  lemma StreamIdMatchesRfcIff(h: Header)
    ensures IsSwapped(h) ==> ReadFrameHeader(h).streamId == RfcStreamId(h) - LostBit(h[5])
    ensures ReadFrameHeader(h).streamId == RfcStreamId(h) <==> StreamIdReadable(h)
  {
    hide RawStreamId, RfcStreamId, Ntohl;
    LengthShift(h);
    if IsSwapped(h) {
      SwappedStreamId(h);
    } else {
      LoadedStreamId(h);
    }
  }

  lemma SwappedStreamId(h: Header)
    requires IsSwapped(h)
    ensures ReadFrameHeader(h).streamId == RfcStreamId(h) - LostBit(h[5])
    ensures RfcStreamId(h) / 0x100_0000 % 2 == h[5] % 2
  {
    hide Ntohl, Le32, Be16;
    LengthShift(h);
    var even := h[5] - h[5] % 2;
    StreamShift(h);
    NtohlReverses(even, h[6], h[7], h[8]);
    assert h[5..9] == [h[5], h[6], h[7], h[8]];
    Truncate(h[5], Be16(h[7], h[8]), h[6]);
    BigEndianWord(h[5], h[6], h[7], h[8]);
  }

  lemma LoadedStreamId(h: Header)
    ensures RawStreamId(h) == RfcStreamId(h) <==>
              h[5] == h[6] == h[7] == h[8] && (h[5] == 0 || h[5] == 0xff)
  {
    var a, b, c, d := h[5], h[6], h[7], h[8];
    assert h[5..9] == [a, b, c, d];
    LoadedValue(a, b, c, d);
    RfcValue(a, b, c, d);
    SameReversed(a, b, c, d);
  }

  lemma LoadedValue(a: byte, b: byte, c: byte, d: byte)
    ensures 2 * (Le32([a, b, c, d]) / 2) == a - a % 2 + 0x100 * b + 0x1_0000 * c + 0x100_0000 * d
  {
    var x := Le32([a, b, c, d]);
    assert x % 2 == a % 2;
  }

  lemma RfcValue(a: byte, b: byte, c: byte, d: byte)
    ensures Be32([a, b, c, d]) % 0x8000_0000 == 0x100_0000 * (a % 0x80) + 0x1_0000 * b + 0x100 * c + d
  {
    BelowTopBit(a / 0x80, 0x100_0000 * (a % 0x80) + 0x1_0000 * b + 0x100 * c + d);
    assert a == 0x80 * (a / 0x80) + a % 0x80;
  }

  lemma BelowTopBit(top: int, rest: int)
    requires 0 <= rest < 0x8000_0000
    ensures (0x8000_0000 * top + rest) % 0x8000_0000 == rest
  {
  }

  /** Shifting by a bit and reversing the bytes leaves only the two constant words alone. */
  lemma SameReversed(a: byte, b: byte, c: byte, d: byte)
    ensures a - a % 2 + 0x100 * b + 0x1_0000 * c + 0x100_0000 * d ==
              2 * (0x100_0000 * (a % 0x80) + 0x1_0000 * b + 0x100 * c + d) <==>
            a == b == c == d && (a == 0 || a == 0xff)
  {
    FixedWord(a, a % 2, a / 0x80, b, b / 0x80, c, c / 0x80, d, d / 0x80);
  }

  lemma FixedWord(a: int, a0: int, a7: int, b: int, b7: int, c: int, c7: int, d: int, d7: int)
    requires 0 <= a0 <= 1 && 0 <= a - a0 < 0x100 && Top(a, a7) && Top(b, b7) && Top(c, c7) && Top(d, d7)
    ensures a - a0 + 0x100 * b + 0x1_0000 * c + 0x100_0000 * d ==
              2 * (0x100_0000 * (a - 0x80 * a7) + 0x1_0000 * b + 0x100 * c + d) <==>
            (a == b == c == d == 0 && a0 == 0) || (a == b == c == d == 0xff && a0 == 1)
  {
    var q := a - 0x80 * a7;
    if a - a0 + 0x100 * b + 0x1_0000 * c + 0x100_0000 * d == 2 * (0x100_0000 * q + 0x1_0000 * b + 0x100 * c + d) {
      ByteByByte(a - a0, b, b7, c, c7, d, d7, q);
      MiddleBytes(b, b7, c, c7, d7);
      OuterBytes(a, a0, a7, d, d7, b7);
    }
  }

  lemma ByteByByte(p: int, b: int, b7: int, c: int, c7: int, d: int, d7: int, q: int)
    requires 0 <= p < 0x100 && Top(b, b7) && Top(c, c7) && Top(d, d7)
    requires p + 0x100 * b + 0x1_0000 * c + 0x100_0000 * d == 2 * (0x100_0000 * q + 0x1_0000 * b + 0x100 * c + d)
    ensures p == 2 * d - 0x100 * d7 && b == 2 * c - 0x100 * c7 + d7
    ensures c == 2 * b - 0x100 * b7 + c7 && d == 2 * q + b7
  {
    LowByte(p, b + 0x100 * c + 0x1_0000 * d, 2 * d - 0x100 * d7, d7 + 2 * c + 0x100 * (2 * b) + 0x1_0000 * (2 * q));
    LowByte(b, c + 0x100 * d, d7 + 2 * c - 0x100 * c7, c7 + 2 * b + 0x100 * (2 * q));
    LowByte(c, d, c7 + 2 * b - 0x100 * b7, b7 + 2 * q);
  }

  /** `x` is a byte with this top bit. */
  predicate Top(x: int, bit: int) {
    0 <= bit <= 1 && 0x80 * bit <= x < 0x80 * bit + 0x80
  }

  lemma LowByte(a: int, x: int, a': int, x': int)
    requires 0 <= a < 0x100 && 0 <= a' < 0x100 && a + 0x100 * x == a' + 0x100 * x'
    ensures a == a' && x == x'
  {
  }

  lemma MiddleBytes(b: int, b7: int, c: int, c7: int, d7: int)
    requires Top(b, b7) && Top(c, c7) && 0 <= d7 <= 1
    requires b == 2 * c - 0x100 * c7 + d7 && c == 2 * b - 0x100 * b7 + c7
    ensures b == c == 0xff * d7
  {
    assert 3 * b == 512 * b7 + 254 * c7 - d7;
  }

  lemma OuterBytes(a: int, a0: int, a7: int, d: int, d7: int, b7: int)
    requires Top(a, a7) && Top(d, d7) && 0 <= a0 <= 1 && b7 == d7
    requires a == 2 * d - 0x100 * d7 + a0 && d == 2 * a - 0x100 * a7 + b7
    ensures a == d == 0xff * d7 && a0 == d7
  {
    assert 3 * d == 511 * d7 + 256 * a7 - 2 * a0;
  }

  /** An empty frame of stream 1 is taken for one of stream 0x800000. */
  lemma EmptyFrameIsMisread(kind: byte, flags: byte)
    ensures var h := [0, 0, 0, kind, flags, 0, 0, 0, 1];
            RfcStreamId(h) == 1 && ReadFrameHeader(h).streamId == 0x80_0000
  {
    hide Le32, Be32;
    var h: Header := [0, 0, 0, kind, flags, 0, 0, 0, 1];
    assert h[5..9] == [0, 0, 0, 1];
    LoadedValue(0, 0, 0, 1);
    RfcValue(0, 0, 0, 1);
  }

  /** A frame of stream 2^24, with a payload, is taken for one of stream 0. */
  lemma HighStreamIsMisread(kind: byte, flags: byte)
    requires kind <= FRAME_CONTINUATION
    ensures var h := [0, 0, 1, kind, flags, 1, 0, 0, 0];
            RfcStreamId(h) == 0x100_0000 && ReadFrameHeader(h).streamId == 0
  {
    hide Ntohl, Le32, Be32, ReadFrameHeader;
    var h: Header := [0, 0, 1, kind, flags, 1, 0, 0, 0];
    assert h[5..9] == [1, 0, 0, 0];
    RfcValue(1, 0, 0, 0);
    SwappedStreamId(h);
  }

  lemma BigEndianWord(a: byte, b: byte, c: byte, d: byte)
    ensures Be32([a, b, c, d]) == 0x1_0000 * Be16(a, b) + Be16(c, d)
  {
  }

  lemma LittleEndianWord(a: byte, b: byte, c: byte, d: byte)
    ensures Le32([a, b, c, d]) == a + 0x100 * b + 0x1_0000 * c + 0x100_0000 * d
  {
  }

  lemma StreamShift(h: Header)
    ensures RawStreamId(h) * 2 % 0x1_0000_0000 == Le32([h[5] - h[5] % 2, h[6], h[7], h[8]])
  {
    assert h[5..9] == [h[5], h[6], h[7], h[8]];
    LoadedValue(h[5], h[6], h[7], h[8]);
    LittleEndianWord(h[5] - h[5] % 2, h[6], h[7], h[8]);
    hide Le32;
  }

  lemma Truncate(a: byte, low: u16, b: byte)
    ensures var w, v := 0x1_0000 * Be16(a, b) + low, 0x1_0000 * Be16(a - a % 2, b) + low;
            && v % 0x8000_0000 == w % 0x8000_0000 - LostBit(a)
            && w % 0x8000_0000 / 0x100_0000 % 2 == a % 2
  {
    var top := a / 0x80;
    var rest := a % 0x80;
    var w, v := 0x1_0000 * Be16(a, b) + low, 0x1_0000 * Be16(a - a % 2, b) + low;
    var m := 0x100_0000 * rest + 0x1_0000 * b + low;
    assert w == 0x8000_0000 * top + m && 0 <= m < 0x8000_0000;
    assert a % 2 == rest % 2;
    assert v == 0x8000_0000 * top + (m - a % 2 * 0x100_0000);
    assert m - rest % 2 * 0x100_0000 >= 0;
    assert m / 0x100_0000 == rest;
  }
}
