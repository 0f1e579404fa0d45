/** Adding the traceparent field to an HTTP/2 header block that is still in the writer's buffer. */
module Http2Inject {
  import opened Bytes
  import opened Options
  import opened Http2Frames
  import opened Traceparent
  import Hpack
  import Huffman
  import BitStrings

  const MAX_W_PTR_N := 1024
  const ENCODED_HEADER_LEN := 66

  // ---------------------------------------------------------------- RFC 7541, section 6.2.2

  datatype Field = Field(name: seq<byte>, value: seq<byte>)
  datatype Parsed<T> = Malformed | Parsed(value: T, rest: seq<byte>)

  /** A string literal whose length fits the seven-bit prefix. */
  ghost function ParseString(b: seq<byte>): Parsed<seq<byte>> {
    if |b| == 0 || b[0] % 0x80 == 0x7f || |b| < 1 + b[0] % 0x80 then Malformed
    else
      var len := b[0] % 0x80;
      var raw := b[1..1 + len];
      if b[0] < 0x80 then Parsed(raw, b[1 + len..])
      else
        match Huffman.Decode(BitStrings.ByteBits(raw))
        case None => Malformed
        case Some(text) => Parsed(text, b[1 + len..])
  }

  /** A literal field with a new name, not to be indexed. */
  ghost function ParseField(b: seq<byte>): Parsed<Field> {
    if |b| == 0 || b[0] != 0 then Malformed
    else
      match ParseString(b[1..])
      case Malformed => Malformed
      case Parsed(name, after) =>
        match ParseString(after)
        case Malformed => Malformed
        case Parsed(value, rest) => Parsed(Field(name, value), rest)
  }

  // ---------------------------------------------------------------- the bytes appended

  function EncodedHeader(tp: TpInfo): (b: seq<byte>)
    ensures |b| == ENCODED_HEADER_LEN
  {
    [0, 0x88] + Hpack.TP_ENCODED + [TP_MAX_VAL_LENGTH] + TpValue(tp)
  }

  /** A decoder that meets them reads the field traceparent with the printed context, and goes on
      with whatever follows. */
  lemma AppendedBytesParse(tp: TpInfo, rest: seq<byte>)
    ensures ParseField(EncodedHeader(tp) + rest) == Parsed(Field(Hpack.TP_NAME, TpValue(tp)), rest)
  {
    hide TpValue, Huffman.Decode, BitStrings.ByteBits, ParseString;
    var b := EncodedHeader(tp) + rest;
    var name, value := b[1..], [TP_MAX_VAL_LENGTH] + TpValue(tp) + rest;
    assert name == [0x88] + Hpack.TP_ENCODED + value;
    Hpack.NameIsEncoded();
    CodedParses(0x88, Hpack.TP_ENCODED, Hpack.TP_NAME, value);
    ValueParses(TpValue(tp), rest);
  }

  lemma CodedParses(tagged: byte, raw: seq<byte>, text: seq<byte>, rest: seq<byte>)
    requires tagged == 0x80 + |raw| < 0xff && Huffman.Decode(BitStrings.ByteBits(raw)) == Some(text)
    ensures ParseString([tagged] + raw + rest) == Parsed(text, rest)
  {
    hide Huffman.Decode, BitStrings.ByteBits;
    var b := [tagged] + raw + rest;
    assert b[1..1 + |raw|] == raw;
    assert b[1 + |raw|..] == rest;
  }

  lemma ValueParses(value: seq<byte>, rest: seq<byte>)
    requires |value| < 0x7f
    ensures ParseString([|value|] + value + rest) == Parsed(value, rest)
  {
    hide Huffman.Decode, BitStrings.ByteBits;
    var b := [|value|] + value + rest;
    assert b[1..1 + |value|] == value;
    assert b[1 + |value|..] == rest;
  }

  // ---------------------------------------------------------------- the writer

  function Masked(n: nat): nat {
    n % 0x1_0000
  }

  function Clamped(n: nat): nat {
    if n <= MAX_W_PTR_N then n else MAX_W_PTR_N
  }

  /** The three size bytes, the sum cut to 24 bits. */
  function Grown(size: seq<byte>): (b: seq<byte>)
    requires |size| == 3
    ensures |b| == 3
  {
    var s := Be24(size[0], size[1], size[2]) + ENCODED_HEADER_LEN;
    [s / 0x1_0000 % 0x100, s / 0x100 % 0x100, s % 0x100]
  }

  lemma GrownSize(size: seq<byte>)
    requires |size| == 3 && Be24(size[0], size[1], size[2]) + ENCODED_HEADER_LEN < 0x100_0000
    ensures var b := Grown(size); Be24(b[0], b[1], b[2]) == Be24(size[0], size[1], size[2]) + ENCODED_HEADER_LEN
  {
    ThreeBytes(Be24(size[0], size[1], size[2]) + ENCODED_HEADER_LEN);
  }

  lemma ThreeBytes(s: nat)
    requires s < 0x100_0000
    ensures s / 0x1_0000 % 0x100 * 0x1_0000 + s / 0x100 % 0x100 * 0x100 + s % 0x100 == s
  {
    var a, b := s / 0x1_0000, s / 0x100;
    assert b / 0x100 == a < 0x100;
  }

  /** A write to the buffer. */
  ghost function Over(b: seq<byte>, off: nat, v: seq<byte>): (r: seq<byte>)
    requires off + |v| <= |b|
    ensures |r| == |b|
  {
    Patch(b, off, v)
  }

  /** A frame fills the buffer from `at` to `n`. */
  ghost predicate FrameFills(b: seq<byte>, at: nat, n: nat) {
    at + FRAME_HEADER_LEN <= n <= |b| && RfcLength(b[at..at + 9]) == n - at - FRAME_HEADER_LEN
  }

  /** The framer's buffered writer. */
  class Writer {
    var buf: array<byte>
    var n: nat

    /** `bpf_probe_write_user` into the buffer. */
    method Write(off: nat, v: seq<byte>)
      requires off + |v| <= buf.Length
      modifies buf
      ensures buf[..] == Over(old(buf[..]), off, v)
    {
      ghost var was := buf[..];
      for i := 0 to |v|
        invariant buf[..] == Over(was, off, v[..i])
      {
        buf[off + i] := v[i];
        PatchOneMore(was, off, v, i);
      }
      assert v[..|v|] == v;
    }

    /** Writes the field behind what is there, piece by piece. */
    method AppendField(tp: TpInfo)
      requires n + ENCODED_HEADER_LEN < buf.Length
      modifies this`n, buf
      ensures n == old(n) + ENCODED_HEADER_LEN && buf[..] == Appended(old(buf[..]), old(n), tp)
    {
      hide TpValue, Over, Masked;
      MaskedBelow(n);
      var value := TpValue(tp);
      Write(Masked(n), [0]);
      n := n + 1;
      Write(Masked(n), [0x80 + |Hpack.TP_ENCODED|]);
      n := n + 1;
      Write(Masked(n), Hpack.TP_ENCODED);
      n := n + |Hpack.TP_ENCODED|;
      Write(Masked(n), [TP_MAX_VAL_LENGTH]);
      n := n + 1;
      Write(Masked(n), value);
      n := n + TP_MAX_VAL_LENGTH;
    }

    /** The writer holds a frame from `initialN` on. With room for 66 bytes the field is appended and
        the frame's size grown, every other byte kept: the frame still fills its part of the buffer.
        An offset past 65535 is cut to sixteen bits, so then the value does not reach its place. */
    method AppendTraceparent(initialN: nat, tp: TpInfo)
      requires initialN < MAX_W_PTR_N && FrameFills(buf[..], initialN, n)
      modifies this`n, buf
      ensures old(n) >= buf.Length - ENCODED_HEADER_LEN ==> n == old(n) && buf[..] == old(buf[..])
      ensures old(n) < buf.Length - ENCODED_HEADER_LEN ==>
                n == old(n) + ENCODED_HEADER_LEN && buf[..] == Finished(old(buf[..]), initialN, old(n), tp)
      ensures old(n) < buf.Length - ENCODED_HEADER_LEN && old(n) + 11 < 0x1_0000 ==>
                Extended(old(buf[..]), buf[..], initialN, old(n), tp)
      ensures old(n) < buf.Length - ENCODED_HEADER_LEN && old(n) + 11 >= 0x1_0000 ==>
                buf[old(n) + 11..n] == old(buf[n + 11..n + 66])
    {
      hide Over, FrameFills, Extended, Appended, Grown;
      var at := Clamped(initialN);
      if n < buf.Length - ENCODED_HEADER_LEN {
        ghost var was, start := buf[..], n;
        FrameRoom(was, at, n);
        AppendField(tp);
        var size := buf[at..at + 3];
        Write(at, Grown(size));
        if start + 11 < 0x1_0000 {
          FinishedExtends(was, at, start, tp);
        } else {
          FinishedMisses(was, at, start, tp);
        }
      }
    }
  }

  /** The five writes. */
  ghost function Appended(b: seq<byte>, n: nat, tp: TpInfo): (r: seq<byte>)
    requires n + ENCODED_HEADER_LEN < |b|
    ensures |r| == |b|
  {
    MaskedBelow(n);
    var b1 := Over(b, Masked(n), [0]);
    var b2 := Over(b1, Masked(n + 1), [0x88]);
    var b3 := Over(b2, Masked(n + 2), Hpack.TP_ENCODED);
    var b4 := Over(b3, Masked(n + 10), [TP_MAX_VAL_LENGTH]);
    Over(b4, Masked(n + 11), TpValue(tp))
  }

  ghost function Finished(b: seq<byte>, at: nat, n: nat, tp: TpInfo): (r: seq<byte>)
    requires at + FRAME_HEADER_LEN <= n && n + ENCODED_HEADER_LEN < |b|
    ensures |r| == |b|
  {
    var b' := Appended(b, n, tp);
    Over(b', at, Grown(b'[at..at + 3]))
  }

  lemma MaskedBelow(n: nat)
    ensures Masked(n) <= n && Masked(n + 1) <= n + 1 && Masked(n + 2) <= n + 2
    ensures Masked(n + 10) <= n + 10 && Masked(n + 11) <= n + 11
    ensures n + 11 >= 0x1_0000 ==> Masked(n + 11) + 0x1_0000 <= n + 11
    ensures n + 11 < 0x1_0000 ==> Masked(n) == n && Masked(n + 1) == n + 1 && Masked(n + 2) == n + 2
    ensures n + 11 < 0x1_0000 ==> Masked(n + 10) == n + 10 && Masked(n + 11) == n + 11
  {
  }

  lemma FrameRoom(b: seq<byte>, at: nat, n: nat)
    requires FrameFills(b, at, n)
    ensures at + FRAME_HEADER_LEN <= n <= |b|
  {
  }

  /** Two writes side by side are one. */
  lemma OverNext(b: seq<byte>, off: nat, v: seq<byte>, w: seq<byte>)
    requires off + |v| + |w| <= |b|
    ensures Over(Over(b, off, v), off + |v|, w) == Over(b, off, v + w)
  {
  }

  /** A write keeps what lies behind it. */
  lemma OverKeeps(b: seq<byte>, off: nat, v: seq<byte>, lo: nat, hi: nat)
    requires off + |v| <= lo <= hi <= |b|
    ensures Over(b, off, v)[lo..hi] == b[lo..hi]
  {
  }

  lemma AppendedInOne(b: seq<byte>, n: nat, tp: TpInfo)
    requires n + ENCODED_HEADER_LEN < |b| && n + 11 < 0x1_0000
    ensures Appended(b, n, tp) == Over(b, n, EncodedHeader(tp))
  {
    hide TpValue, Over, Masked;
    MaskedBelow(n);
    OverNext(b, n, [0], [0x88]);
    OverNext(b, n, [0] + [0x88], Hpack.TP_ENCODED);
    OverNext(b, n, [0] + [0x88] + Hpack.TP_ENCODED, [TP_MAX_VAL_LENGTH]);
    OverNext(b, n, [0] + [0x88] + Hpack.TP_ENCODED + [TP_MAX_VAL_LENGTH], TpValue(tp));
    assert [0] + [0x88] + Hpack.TP_ENCODED + [TP_MAX_VAL_LENGTH] + TpValue(tp) == EncodedHeader(tp);
  }

  lemma FinishedExtends(b: seq<byte>, at: nat, n: nat, tp: TpInfo)
    requires FrameFills(b, at, n) && n + ENCODED_HEADER_LEN < |b| && n + 11 < 0x1_0000
    ensures Extended(b, Finished(b, at, n, tp), at, n, tp)
  {
    hide TpValue, Patch, EncodedHeader, Appended, Grown;
    AppendedInOne(b, n, tp);
    var b1 := Patch(b, n, EncodedHeader(tp));
    SliceOfSlice(b1, 0, n, at, at + 3);
    SliceOfSlice(b, 0, n, at, at + 3);
    var size := b[at..at + 3];
    assert b1[at..at + 3] == size;
    var r := Patch(b1, at, Grown(size));
    SizeRead(b, at);
    SizeRead(r, at);
    GrownSize(size);
    OverKeeps(b1, at, Grown(size), at + 3, n);
    OverKeeps(b1, at, Grown(size), n, n + ENCODED_HEADER_LEN);
    OverKeeps(b1, at, Grown(size), n + ENCODED_HEADER_LEN, |b|);
    SliceOfSlice(b1, 0, n, at + 3, n);
    SliceOfSlice(b, 0, n, at + 3, n);
    SliceOfSlice(b1, 0, n, 0, at);
    SliceOfSlice(b, 0, n, 0, at);
  }

  lemma SizeRead(b: seq<byte>, at: nat)
    requires at + FRAME_HEADER_LEN <= |b|
    ensures var s := b[at..at + 3]; RfcLength(b[at..at + 9]) == Be24(s[0], s[1], s[2])
  {
  }

  lemma FinishedMisses(b: seq<byte>, at: nat, n: nat, tp: TpInfo)
    requires at + FRAME_HEADER_LEN <= n && n + ENCODED_HEADER_LEN < |b| && n + 11 >= 0x1_0000
    ensures Finished(b, at, n, tp)[n + 11..n + 66] == b[n + 11..n + 66]
  {
    hide TpValue, Over, Masked, Grown;
    MaskedBelow(n);
    var b1 := Over(b, Masked(n), [0]);
    var b2 := Over(b1, Masked(n + 1), [0x88]);
    var b3 := Over(b2, Masked(n + 2), Hpack.TP_ENCODED);
    var b4 := Over(b3, Masked(n + 10), [TP_MAX_VAL_LENGTH]);
    var b5 := Over(b4, Masked(n + 11), TpValue(tp));
    OverKeeps(b, Masked(n), [0], n + 11, n + 66);
    OverKeeps(b1, Masked(n + 1), [0x88], n + 11, n + 66);
    OverKeeps(b2, Masked(n + 2), Hpack.TP_ENCODED, n + 11, n + 66);
    OverKeeps(b3, Masked(n + 10), [TP_MAX_VAL_LENGTH], n + 11, n + 66);
    OverKeeps(b4, Masked(n + 11), TpValue(tp), n + 11, n + 66);
    OverKeeps(b5, at, Grown(b5[at..at + 3]), n + 11, n + 66);
  }

  lemma PatchOneMore(b: seq<byte>, off: nat, v: seq<byte>, i: nat)
    requires i < |v| && off + |v| <= |b|
    ensures Patch(b, off, v[..i])[off + i := v[i]] == Patch(b, off, v[..i + 1])
  {
  }

  /** What the frame looks like afterwards. */
  ghost predicate Extended(b: seq<byte>, b': seq<byte>, at: nat, n: nat, tp: TpInfo)
    requires FrameFills(b, at, n) && |b'| == |b|
  {
    && FrameFills(b', at, n + ENCODED_HEADER_LEN)
    && b'[..at] == b[..at]
    && b'[at + 3..n] == b[at + 3..n]
    && b'[n..n + ENCODED_HEADER_LEN] == EncodedHeader(tp)
    && b'[n + ENCODED_HEADER_LEN..] == b[n + ENCODED_HEADER_LEN..]
  }

  // ---------------------------------------------------------------- RFC 7540, section 6.2

  predicate IsPadded(flags: byte) {
    flags / 8 % 2 == 1
  }

  predicate HasPriority(flags: byte) {
    flags / 0x20 % 2 == 1
  }

  /** Bytes of a HEADERS payload before the header block fragment, and after it. */
  function Lead(flags: byte): nat {
    (if IsPadded(flags) then 1 else 0) + (if HasPriority(flags) then 5 else 0)
  }

  function PadLength(payload: seq<byte>, flags: byte): nat {
    if IsPadded(flags) && payload != [] then payload[0] else 0
  }

  predicate WellPadded(payload: seq<byte>, flags: byte) {
    && Lead(flags) + PadLength(payload, flags) <= |payload|
    && forall i :: |payload| - PadLength(payload, flags) <= i < |payload| ==> payload[i] == 0
  }

  function Fragment(payload: seq<byte>, flags: byte): seq<byte>
    requires Lead(flags) + PadLength(payload, flags) <= |payload|
  {
    payload[Lead(flags)..|payload| - PadLength(payload, flags)]
  }

  /** The field ends up behind the header block exactly when the frame has no padding bytes. */
  lemma FragmentGrowsIff(payload: seq<byte>, flags: byte, tp: TpInfo)
    requires WellPadded(payload, flags)
    ensures var payload' := payload + EncodedHeader(tp);
            && Lead(flags) + PadLength(payload', flags) <= |payload'|
            && (Fragment(payload', flags) == Fragment(payload, flags) + EncodedHeader(tp)
                <==> PadLength(payload, flags) == 0)
  {
    hide TpValue, IsPadded, HasPriority;
    var h := EncodedHeader(tp);
    var payload' := payload + h;
    var pad := PadLength(payload, flags);
    assert PadLength(payload', flags) == pad;
    var l, r := Fragment(payload', flags), Fragment(payload, flags) + h;
    if pad == 0 {
      assert l == r;
    } else {
      var k := |payload| - pad - Lead(flags);
      assert r[k + 1] == 0x88;
      assert l[k + 1] == payload'[|payload| - pad + 1];
      assert payload'[|payload| - pad + 1] == if pad == 1 then h[0] else payload[|payload| - pad + 1];
    }
  }

  /** A frame with one byte of padding: the last digit of the value is taken for the padding. */
  lemma PaddedFieldIsCut(tp: TpInfo)
    ensures var payload, flags := [1, 0x82, 0], 8;
            && WellPadded(payload, flags) && Fragment(payload, flags) == [0x82]
            && Fragment(payload + EncodedHeader(tp), flags) == [0x82, 0] + EncodedHeader(tp)[..65]
  {
    hide TpValue;
    var payload, h := [1, 0x82, 0], EncodedHeader(tp);
    assert Fragment(payload + h, 8) == (payload + h)[1..68];
  }

  /** The payload of the frame the writer ends up with, and that its type, flags and stream stay. */
  lemma ExtendedPayload(b: seq<byte>, b': seq<byte>, at: nat, n: nat, tp: TpInfo)
    requires FrameFills(b, at, n) && |b'| == |b| && Extended(b, b', at, n, tp)
    ensures b'[at + 9..n + ENCODED_HEADER_LEN] == b[at + 9..n] + EncodedHeader(tp)
    ensures b'[at + 3..at + 9] == b[at + 3..at + 9]
  {
    hide RfcLength, EncodedHeader;
    SliceOfSlice(b, at + 3, n, 6, n - at - 3);
    SliceOfSlice(b', at + 3, n, 6, n - at - 3);
    SliceOfSlice(b, at + 3, n, 0, 6);
    SliceOfSlice(b', at + 3, n, 0, 6);
    assert b'[at + 9..n + ENCODED_HEADER_LEN] == b'[at + 9..n] + b'[n..n + ENCODED_HEADER_LEN];
  }
}
