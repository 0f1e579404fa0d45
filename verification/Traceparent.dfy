/** The textual traceparent: printing it, scanning for it and decoding it. */
module Traceparent {
  import opened Bytes

  const TRACE_ID_SIZE_BYTES := 16
  const SPAN_ID_SIZE_BYTES := 8
  const TRACE_ID_CHAR_LEN := 32
  const SPAN_ID_CHAR_LEN := 16
  const FLAGS_CHAR_LEN := 2
  const TP_MAX_VAL_LENGTH := 55
  const TRACE_PARENT_HEADER_LEN := 68
  const TRACE_BUF_SIZE := 1024

  const DASH: byte := 45
  const ZERO: byte := 48
  const ONE: byte := 49

  /** "Traceparent: " */
  const HEADER_NAME: seq<byte> := [84, 114, 97, 99, 101, 112, 97, 114, 101, 110, 116, 58, 32]
  const CRLF: seq<byte> := [13, 10]

  type TraceId = s: seq<byte> | |s| == 16 witness [0, 0, 0, 0, 0, 0, 0, 0, 0, 0, 0, 0, 0, 0, 0, 0]
  type SpanId = s: seq<byte> | |s| == 8 witness [0, 0, 0, 0, 0, 0, 0, 0]

  datatype TpInfo = TpInfo(traceId: TraceId, spanId: SpanId, parentId: SpanId, ts: u64, flags: byte)

  // ---------------------------------------------------------------- hexadecimal

  function HexDigit(n: int): byte
    requires 0 <= n < 16
  {
    if n < 10 then 48 + n else 87 + n
  }

  /** Both letter cases are read; anything else maps to 0xff. */
  function ReverseHex(c: byte): byte {
    if 48 <= c <= 57 then c - 48
    else if 65 <= c <= 70 then c - 55
    else if 97 <= c <= 102 then c - 87
    else 0xff
  }

  function Hex(s: seq<byte>): (h: seq<byte>)
    ensures |h| == 2 * |s|
    ensures forall i {:trigger s[i]} :: 0 <= i < |s| ==>
              h[2 * i] == HexDigit(s[i] / 16) && h[2 * i + 1] == HexDigit(s[i] % 16)
  {
    if |s| == 0 then [] else Hex(s[..|s| - 1]) + [HexDigit(s[|s| - 1] / 16), HexDigit(s[|s| - 1] % 16)]
  }

  /** Two digits to a byte; the table's 0xff is masked to 0xf. */
  function UnhexPair(p: byte, q: byte): byte {
    ReverseHex(p) % 16 * 16 + ReverseHex(q) % 16
  }

  function Unhex(h: seq<byte>): (s: seq<byte>)
    ensures |s| == |h| / 2
  {
    if |h| < 2 then [] else [UnhexPair(h[0], h[1])] + Unhex(h[2..])
  }

  lemma {:induction false} UnhexAt(h: seq<byte>, i: nat)
    requires 2 * i + 1 < |h|
    ensures Unhex(h)[i] == UnhexPair(h[2 * i], h[2 * i + 1])
  {
    if i == 0 {
    } else {
      UnhexAt(h[2..], i - 1);
    }
  }

  /** Decoding undoes encoding for every byte string. */
  lemma HexRoundTrip(s: seq<byte>)
    ensures Unhex(Hex(s)) == s
  {
    hide Hex, Unhex;
    forall i | 0 <= i < |s|
      ensures Unhex(Hex(s))[i] == s[i]
    {
      UnhexAt(Hex(s), i);
    }
  }

  /** Writes the digits of `src` at `at`. */
  method EncodeHex(dst: array<byte>, at: nat, src: seq<byte>)
    requires at + 2 * |src| <= dst.Length
    modifies dst
    ensures dst[at..at + 2 * |src|] == Hex(src)
    ensures forall i :: 0 <= i < dst.Length && !(at <= i < at + 2 * |src|) ==> dst[i] == old(dst[i])
  {
    hide HexDigit;
    var i, j := 0, at;
    while i < |src|
      invariant 0 <= i <= |src| && j == at + 2 * i
      invariant dst[at..j] == Hex(src[..i])
      invariant forall k :: 0 <= k < dst.Length && !(at <= k < j) ==> dst[k] == old(dst[k])
    {
      var p := src[i];
      ghost var digits := dst[at..j];
      dst[j] := HexDigit(p / 16);
      dst[j + 1] := HexDigit(p % 16);
      assert dst[at..j] == digits;
      assert dst[at..j + 2] == digits + [HexDigit(p / 16), HexDigit(p % 16)];
      assert src[..i + 1][..i] == src[..i];
      j := j + 2;
      i := i + 1;
    }
    assert src[..i] == src;
  }

  /** Reads `src` two digits at a time into the front of `dst`. */
  method DecodeHex(dst: array<byte>, src: seq<byte>)
    requires |src| / 2 <= dst.Length
    modifies dst
    ensures dst[..|src| / 2] == Unhex(src)
    ensures dst[|src| / 2..] == old(dst[|src| / 2..])
  {
    hide Unhex, ReverseHex;
    var i, j := 1, 0;
    while i < |src|
      invariant i == 2 * j + 1 && j <= |src| / 2
      invariant forall k :: 0 <= k < j ==> dst[k] == Unhex(src)[k]
      invariant forall k :: j <= k < dst.Length ==> dst[k] == old(dst[k])
    {
      var a, b := ReverseHex(src[i - 1]), ReverseHex(src[i]);
      UnhexAt(src, j);
      dst[j] := a % 16 * 16 + b % 16;
      j := j + 1;
      i := i + 2;
    }
  }

  // ---------------------------------------------------------------- printing

  function FlagDigit(flags: byte): byte {
    if flags == 0 then ZERO else ONE
  }

  /** "00-" trace id "-" span id "-0" flag */
  function TpValue(tp: TpInfo): (v: seq<byte>)
    ensures |v| == TP_MAX_VAL_LENGTH
  {
    [ZERO, ZERO, DASH] + Hex(tp.traceId) + [DASH] + Hex(tp.spanId) + [DASH, ZERO, FlagDigit(tp.flags)]
  }

  /** The whole header line the TC program inserts. */
  function TpHeader(tp: TpInfo): (h: seq<byte>)
    ensures |h| == 70
  {
    HEADER_NAME + TpValue(tp) + CRLF
  }

  /** Prints the value through a pointer moving from `at`. */
  method MakeTpString(buf: array<byte>, at: nat, tp: TpInfo)
    requires at + TP_MAX_VAL_LENGTH <= buf.Length
    modifies buf
    ensures buf[at..at + TP_MAX_VAL_LENGTH] == TpValue(tp)
    ensures forall i :: 0 <= i < buf.Length && !(at <= i < at + TP_MAX_VAL_LENGTH) ==> buf[i] == old(buf[i])
  {
    hide Hex;
    buf[at] := ZERO;
    buf[at + 1] := ZERO;
    buf[at + 2] := DASH;
    EncodeHex(buf, at + 3, tp.traceId);
    buf[at + 35] := DASH;
    ghost var head := buf[at..at + 36];
    HeadPrinted(head, buf[at + 3..at + 35]);
    EncodeHex(buf, at + 36, tp.spanId);
    ghost var digits := buf[at + 36..at + 52];
    buf[at + 52] := DASH;
    buf[at + 53] := ZERO;
    buf[at + 54] := FlagDigit(tp.flags);
    assert forall i :: 0 <= i < 36 ==> buf[at + i] == head[i];
    assert forall i :: 0 <= i < 16 ==> buf[at + 36 + i] == digits[i];
    SliceOfSlice(buf[..], at, at + 55, 36, 52);
    ValuePrinted(head, digits, FlagDigit(tp.flags), buf[at..at + 55]);
  }

  lemma HeadPrinted(head: seq<byte>, digits: seq<byte>)
    requires |head| == 36 && |digits| == 32 && head[3..35] == digits
    requires head[0] == head[1] == ZERO && head[2] == head[35] == DASH
    ensures head == [ZERO, ZERO, DASH] + digits + [DASH]
  {
    assert head == head[..3] + head[3..35] + head[35..];
  }

  lemma ValuePrinted(head: seq<byte>, digits: seq<byte>, flag: byte, v: seq<byte>)
    requires |head| == 36 && |digits| == 16 && |v| == 55 && v[..36] == head && v[36..52] == digits
    requires v[52] == DASH && v[53] == ZERO && v[54] == flag
    ensures v == head + digits + [DASH, ZERO, flag]
  {
    assert v == v[..36] + v[36..52] + v[52..];
  }

  // ---------------------------------------------------------------- decoding

  datatype Decoded = Decoded(traceId: seq<byte>, spanId: seq<byte>, flags: seq<byte>)

  /** What the fixed offsets of the value select. */
  function DecodeValue(v: seq<byte>): Decoded
    requires TP_MAX_VAL_LENGTH <= |v|
  {
    Decoded(Unhex(v[3..35]), Unhex(v[36..52]), Unhex(v[53..55]))
  }

  method DecodeGoTraceparent(buf: seq<byte>, traceId: array<byte>, spanId: array<byte>, flags: array<byte>)
    requires TP_MAX_VAL_LENGTH <= |buf|
    requires traceId.Length == TRACE_ID_SIZE_BYTES && spanId.Length == SPAN_ID_SIZE_BYTES && flags.Length == 1
    requires traceId != spanId && spanId != flags && traceId != flags
    modifies traceId, spanId, flags
    ensures Decoded(traceId[..], spanId[..], flags[..]) == DecodeValue(buf)
  {
    hide Unhex;
    DecodeHex(traceId, buf[3..3 + TRACE_ID_CHAR_LEN]);
    DecodeHex(spanId, buf[36..36 + SPAN_ID_CHAR_LEN]);
    DecodeHex(flags, buf[53..53 + FLAGS_CHAR_LEN]);
    assert traceId[..] == traceId[..16] && spanId[..] == spanId[..8] && flags[..] == flags[..1];
  }

  /** Printing then decoding gives both ids back and squashes the flags to 0 or 1. */
  lemma PrintThenDecode(tp: TpInfo)
    ensures DecodeValue(TpValue(tp)) == Decoded(tp.traceId, tp.spanId, [if tp.flags == 0 then 0 else 1])
  {
    hide Hex, Unhex;
    var v := TpValue(tp);
    assert v[3..35] == Hex(tp.traceId);
    assert v[36..52] == Hex(tp.spanId);
    HexRoundTrip(tp.traceId);
    HexRoundTrip(tp.spanId);
    var f := v[53..55];
    assert f == [ZERO, FlagDigit(tp.flags)];
    UnhexAt(f, 0);
  }

  // ---------------------------------------------------------------- scanning

  /** Case-insensitive in the two letters clients vary: the first one and the 'p' of "parent". */
  predicate IsTraceparent(p: seq<byte>)
    requires 13 <= |p|
  {
    && (p[0] == 84 || p[0] == 116)
    && p[1] == 114 && p[2] == 97 && p[3] == 99 && p[4] == 101
    && (p[5] == 112 || p[5] == 80)
    && p[6] == 97 && p[7] == 114 && p[8] == 101 && p[9] == 110 && p[10] == 116
    && p[11] == 58 && p[12] == 32
  }

  predicate MatchAt(buf: seq<byte>, i: nat)
    requires |buf| == TRACE_BUF_SIZE
  {
    i < TRACE_BUF_SIZE - TRACE_PARENT_HEADER_LEN && IsTraceparent(buf[i..i + 13])
  }

  /** Position zero doubles as "not found": the scan reports a match exactly when the first match
      among the scanned positions is not at the very start of the buffer. */
  ghost predicate ScanReports(buf: seq<byte>, bufLen: nat, pos: nat)
    requires |buf| == TRACE_BUF_SIZE
  {
    if pos > 0
    then pos < bufLen && MatchAt(buf, pos) && forall i :: 0 <= i < pos ==> !MatchAt(buf, i)
    else (0 < bufLen && MatchAt(buf, 0)) || forall i :: 0 <= i < bufLen ==> !MatchAt(buf, i)
  }

  method StrstrTpLoop(buf: seq<byte>, bufLen: nat) returns (pos: nat)
    requires |buf| == TRACE_BUF_SIZE
    ensures ScanReports(buf, bufLen, pos)
  {
    hide IsTraceparent;
    pos := 0;
    var index := 0;
    while index < bufLen
      invariant 0 <= index <= bufLen && pos == 0
      invariant forall i :: 0 <= i < index ==> !MatchAt(buf, i)
    {
      if index >= TRACE_BUF_SIZE - TRACE_PARENT_HEADER_LEN {
        break;
      }
      if IsTraceparent(buf[index..index + 13]) {
        pos := index;
        break;
      }
      index := index + 1;
    }
  }

  /** The kernel-side reader of a captured request buffer: scan, then read at the fixed offsets. */
  method ReadCapturedTraceparent(buf: seq<byte>, bytesLen: nat) returns (pos: nat, found: Decoded)
    requires |buf| == TRACE_BUF_SIZE
    ensures ScanReports(buf, if bytesLen < TRACE_BUF_SIZE then bytesLen else TRACE_BUF_SIZE - 1, pos)
    ensures pos > 0 ==> pos + TRACE_PARENT_HEADER_LEN <= |buf| && found == DecodeValue(buf[pos + 13..pos + 68])
  {
    hide IsTraceparent, DecodeValue;
    var bufLen := if bytesLen < TRACE_BUF_SIZE then bytesLen else TRACE_BUF_SIZE - 1;
    pos := StrstrTpLoop(buf, bufLen);
    found := Decoded([], [], []);
    if pos > 0 {
      found := DecodeValue(buf[pos + 13..pos + 68]);
    }
  }

  /** A header lying whole in the buffer, up to its line break, is the one the scan reports exactly when
      it starts past the first byte, among the scanned ones and below the scan's last position, and
      nothing before it matches. The extract offsets then read back what was printed. */
  lemma InsertedHeaderIsRecovered(buf: seq<byte>, bufLen: nat, at: nat, tp: TpInfo, pos: nat)
    requires |buf| == TRACE_BUF_SIZE && at + TRACE_PARENT_HEADER_LEN <= TRACE_BUF_SIZE
    requires buf[at..at + 68] == TpHeader(tp)[..68]
    requires ScanReports(buf, bufLen, pos)
    ensures pos == at > 0 <==>
            && 0 < at < bufLen && at < TRACE_BUF_SIZE - TRACE_PARENT_HEADER_LEN
            && forall i :: 0 <= i < at ==> !MatchAt(buf, i)
    ensures DecodeValue(buf[at + 13..at + 68]) == Decoded(tp.traceId, tp.spanId, [if tp.flags == 0 then 0 else 1])
  {
    hide TpValue, DecodeValue, IsTraceparent;
    var h := buf[at..at + 68];
    assert h == HEADER_NAME + TpValue(tp);
    assert h[0..13] == HEADER_NAME;
    SliceOfSlice(buf, at, at + 68, 0, 13);
    HeaderNameMatches();
    assert buf[at..at + 13] == HEADER_NAME;
    assert at < TRACE_BUF_SIZE - TRACE_PARENT_HEADER_LEN ==> MatchAt(buf, at);
    SliceOfSlice(buf, at, at + 68, 13, 68);
    assert h[13..68] == TpValue(tp);
    PrintThenDecode(tp);
  }

  /** At the very start of the buffer it is missed, and nothing after it is looked for. */
  lemma HeaderAtStartIsMissed(tp: TpInfo, rest: seq<byte>, bufLen: nat, pos: nat)
    requires |rest| == TRACE_BUF_SIZE - 70 && bufLen > 0
    requires ScanReports(TpHeader(tp) + rest, bufLen, pos)
    ensures pos == 0
  {
    hide TpValue, IsTraceparent;
    var buf := TpHeader(tp) + rest;
    HeaderNameMatches();
    assert buf[0..13] == HEADER_NAME;
    assert MatchAt(buf, 0);
  }

  lemma HeaderNameMatches()
    ensures IsTraceparent(HEADER_NAME)
  {
  }
}
