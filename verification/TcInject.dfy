/** Insertion of the traceparent header into an outgoing HTTP request, in the packet's own
    buffer: find the first line break, grow the tail, move the rest backwards, print the header
    into the gap and repair both checksums. */
module TcInject {
  import opened Bytes
  import opened Options
  import opened OnesComplement
  import opened SkBuff
  import opened Traceparent
  import opened TcChecksum

  const EXTEND_SIZE := 70
  const NEWLINE: byte := 10

  type Filler = s: seq<byte> | |s| == EXTEND_SIZE witness seq(70, _ => 0)

  /** What `bpf_skb_change_tail` answers; the new bytes' contents are the kernel's business. */
  datatype Growth = Refused | Granted(filler: Filler)

  /** The payload offset: a 20-byte IPv4 header is taken for granted, the TCP one is measured. */
  function TcpPayload(p: seq<byte>): (r: Option<nat>)
    ensures r.Some? ==> TCP_OFF <= r.value <= |p| && TCP_OFF + TCP_HLEN <= |p|
  {
    if |p| < TCP_OFF + TCP_HLEN then None
    else
      var off := TCP_OFF + p[TCP_OFF + 12] / 16 * 4;
      if off > |p| then None else Some(off)
  }

  /** The first `ch` in `p[from..limit]`. */
  function FirstOf(p: seq<byte>, ch: byte, from: nat, limit: nat): (r: Option<nat>)
    ensures r.Some? ==> from <= r.value < limit && r.value < |p| && p[r.value] == ch && ch !in p[from..r.value]
    ensures r.None? ==> forall i :: from <= i < limit && i < |p| ==> p[i] != ch
    decreases limit - from
  {
    if from >= limit || from >= |p| then None
    else if p[from] == ch then Some(from)
    else FirstOf(p, ch, from + 1, limit)
  }

  method Memchar(haystack: seq<byte>, begin: nat, needle: byte, end: nat, size: nat) returns (r: Option<nat>)
    requires end == |haystack|
    ensures r == FirstOf(haystack, needle, begin, begin + size)
  {
    var i := 0;
    while i < size
      invariant 0 <= i <= size
      invariant FirstOf(haystack, needle, begin, begin + size) == FirstOf(haystack, needle, begin + i, begin + size)
    {
      if begin + i >= end {
        break;
      }
      if haystack[begin + i] == needle {
        return Some(begin + i);
      }
      i := i + 1;
    }
    r := None;
  }

  /** Where the header goes: just past the first line break of the payload's first 1023 bytes. */
  function HeaderSlot(p: seq<byte>): (r: Option<nat>)
    ensures r.Some? ==>
              && TcpPayload(p).Some? && TcpPayload(p).value < r.value <= TcpPayload(p).value + MAX_INLINE_LEN
              && r.value <= |p| && p[r.value - 1] == NEWLINE && NEWLINE !in p[TcpPayload(p).value..r.value - 1]
    ensures r.None? && TcpPayload(p).Some? ==>
              forall i :: TcpPayload(p).value <= i < TcpPayload(p).value + MAX_INLINE_LEN && i < |p| ==> p[i] != NEWLINE
  {
    match TcpPayload(p)
    case None => None
    case Some(payload) =>
      match FirstOf(p, NEWLINE, payload, payload + MAX_INLINE_LEN)
      case None => None
      case Some(newline) => Some(newline + 1)
  }

  /** The backward byte loop: a correct move although the two ranges overlap. */
  method MoveData(a: array<byte>, dst: nat, src: nat, end: nat, size: nat)
    requires end == a.Length && size <= MAX_IP_PACKET_SIZE
    requires src <= dst && dst + size <= end
    modifies a
    ensures forall i :: 0 <= i < a.Length ==> a[i] == if dst <= i < dst + size then old(a[src + i - dst]) else old(a[i])
  {
    hide Mask15;
    var index := 0;
    while index < size
      invariant 0 <= index <= size
      invariant forall k :: 0 <= k < dst + size - index ==> a[k] == old(a[k])
      invariant forall k :: dst + size - index <= k < dst + size ==> a[k] == old(a[src + k - dst])
      invariant forall k :: dst + size <= k < a.Length ==> a[k] == old(a[k])
    {
      var i := Mask15(size - index);
      if src + i > end {
        break;
      }
      if dst + i > end {
        break;
      }
      a[dst + i - 1] := a[src + i - 1];
      index := index + 1;
    }
  }

  /** Prints the header line when the slot lies inside the packet, and does nothing otherwise. */
  method MakeTpStringSkb(a: array<byte>, at: nat, tp: TpInfo, end: nat)
    requires end == a.Length
    modifies a
    ensures at + EXTEND_SIZE <= end ==> a[at..at + EXTEND_SIZE] == TpHeader(tp)
    ensures forall i :: 0 <= i < a.Length && !(at <= i < at + EXTEND_SIZE <= end) ==> a[i] == old(a[i])
  {
    hide TpValue;
    if at + EXTEND_SIZE > end {
      return;
    }
    forall i | 0 <= i < 13 {
      a[at + i] := HEADER_NAME[i];
    }
    assert a[at..at + 13] == HEADER_NAME;
    MakeTpString(a, at + 13, tp);
    ghost var head := a[at..at + 68];
    assert head == HEADER_NAME + a[at + 13..at + 68];
    a[at + 68] := CRLF[0];
    a[at + 69] := CRLF[1];
    assert a[at..at + 70] == head + CRLF;
  }

  // ---------------------------------------------------------------- IPv4 header

  /** `i` is one of the six bytes holding the total length and the two checksums. */
  predicate Repaired(i: int) {
    TOT_LEN_OFF <= i < TOT_LEN_OFF + 2 || IP_CHECK_OFF <= i < IP_CHECK_OFF + 2 || TCP_CHECK_OFF <= i < TCP_CHECK_OFF + 2
  }

  function NewTotLen(h: seq<byte>): u16
    requires |h| == IP_HLEN
  {
    (Be16(h[2], h[3]) + EXTEND_SIZE) % 0x1_0000
  }

  function NewIpCheck(h: seq<byte>): u16
    requires |h| == IP_HLEN
  {
    var len := Be16Bytes(NewTotLen(h));
    CsumReplace2(Le16(h[10], h[11]), Le16(h[2], h[3]), Le16(len[0], len[1]))
  }

  /** A header with its length and checksum rewritten. */
  function RepairedIpHeader(h: seq<byte>): (r: seq<byte>)
    requires |h| == IP_HLEN
    ensures |r| == IP_HLEN
  {
    Patch(Patch(h, 10, Le16Bytes(NewIpCheck(h))), 2, Be16Bytes(NewTotLen(h)))
  }

  /** Folds the coming change of the total length into the IPv4 checksum. */
  method UpdateIpCsum(a: array<byte>)
    requires TCP_OFF <= a.Length
    modifies a
    ensures [a[IP_CHECK_OFF], a[IP_CHECK_OFF + 1]] == Le16Bytes(NewIpCheck(old(a[ETH_HLEN..TCP_OFF])))
    ensures forall i :: 0 <= i < a.Length && !(IP_CHECK_OFF <= i < IP_CHECK_OFF + 2) ==> a[i] == old(a[i])
  {
    hide NewIpCheck;
    var check := NewIpCheck(a[ETH_HLEN..TCP_OFF]);
    a[IP_CHECK_OFF], a[IP_CHECK_OFF + 1] := check % 0x100, check / 0x100;
  }

  /** The checksum and length updates together, in the source's order. */
  method RepairIpHeader(a: array<byte>)
    requires TCP_OFF <= a.Length
    modifies a
    ensures a[ETH_HLEN..TCP_OFF] == RepairedIpHeader(old(a[ETH_HLEN..TCP_OFF]))
    ensures forall i :: 0 <= i < a.Length && !(ETH_HLEN <= i < TCP_OFF) ==> a[i] == old(a[i])
    ensures forall i :: ETH_HLEN <= i < TCP_OFF && !Repaired(i) ==> a[i] == old(a[i])
  {
    hide NewIpCheck, Patch, Le16Bytes;
    ghost var h := a[ETH_HLEN..TCP_OFF];
    UpdateIpCsum(a);
    var totLen := (Be16(a[TOT_LEN_OFF], a[TOT_LEN_OFF + 1]) + EXTEND_SIZE) % 0x1_0000;
    a[TOT_LEN_OFF], a[TOT_LEN_OFF + 1] := totLen / 0x100, totLen % 0x100;
    ghost var check, len := Le16Bytes(NewIpCheck(h)), Be16Bytes(NewTotLen(h));
    ghost var mid := Patch(h, 10, check);
    ghost var r := Patch(mid, 2, len);
    assert r[2] == r[2..4][0] && r[3] == r[2..4][1] && mid[10] == mid[10..12][0] && mid[11] == mid[10..12][1];
    forall i | 0 <= i < IP_HLEN
      ensures a[ETH_HLEN + i] == r[i]
    {
      assert a[ETH_HLEN + i] == if 2 <= i < 4 then len[i - 2] else if 10 <= i < 12 then check[i - 10] else h[i];
    }
    assert a[ETH_HLEN..TCP_OFF] == r;
  }

  /** The incremental update keeps a valid header valid. */
  lemma RepairedIpHeaderValid(h: seq<byte>)
    requires |h| == IP_HLEN && h[0] != 0 && Valid(h)
    ensures Valid(RepairedIpHeader(h))
  {
    hide SumLe, Valid, CsumReplace2, Congruent, Patch, Le16, Le16Bytes, Be16Bytes, NewTotLen;
    var check, len := Le16Bytes(NewIpCheck(h)), Be16Bytes(NewTotLen(h));
    var mid := Patch(h, 10, check);
    var r := Patch(mid, 2, len);
    SumPatchWord(h, 10, check);
    SumPatchWord(mid, 2, len);
    assert mid[2] == h[2] && mid[3] == h[3] && r[0] == mid[0] == h[0];
    var oldLen: int, newLen: int, oldCheck: int := Le16(h[2], h[3]), Le16(len[0], len[1]), Le16(h[10], h[11]);
    CongruentAdd(NewIpCheck(h), oldCheck + oldLen - newLen, SumLe(h) - oldCheck - oldLen + newLen);
    LeadingWordPositive(r);
    StaysValid(h, r);
  }

  // ---------------------------------------------------------------- the whole rewrite

  /** The packet with `h` spliced in at `at`. */
  function Splice(p: seq<byte>, at: nat, h: seq<byte>): seq<byte>
    requires at <= |p|
  {
    p[..at] + h + p[at..]
  }

  /** `q` is `p` with the header line in its slot, its lengths adjusted and its checksums right. */
  ghost predicate Injected(p: seq<byte>, q: seq<byte>, at: nat, tp: TpInfo)
    requires TCP_OFF + TCP_HLEN <= |p| && at <= |p|
  {
    var s := Splice(p, at, TpHeader(tp));
    && |q| == |s|
    && (forall i :: 0 <= i < |s| && !Repaired(i) ==> q[i] == s[i])
    && q[ETH_HLEN..TCP_OFF] == RepairedIpHeader(p[ETH_HLEN..TCP_OFF])
    && (|q| <= TCP_OFF + MAX_IP_PACKET_SIZE ==> Valid(ChecksummedSegment(q)))
  }

  /** What the masked move leaves of a packet of any size: of the bytes behind the slot only as many as
      fifteen bits can count are moved, and the grown tail stays as it is behind them. */
  function Moved(p: seq<byte>, filler: Filler, at: nat, h: seq<byte>): (q: seq<byte>)
    requires at <= |p| && |h| == EXTEND_SIZE
    ensures |q| == |p| + EXTEND_SIZE
  {
    var size := Mask15(|p| - at);
    p[..at] + h + p[at..at + size] + (p + filler)[at + EXTEND_SIZE + size..]
  }

  /** Up to 32767 bytes behind the slot that is all of them. */
  lemma MovedIsSplice(p: seq<byte>, filler: Filler, at: nat, h: seq<byte>)
    requires at <= |p| <= at + MAX_IP_PACKET_SIZE && |h| == EXTEND_SIZE
    ensures Moved(p, filler, at, h) == Splice(p, at, h)
  {
    hide Mask15;
    assert (p + filler)[|p| + EXTEND_SIZE..] == [];
  }

  /** `q` is the packet so moved, but for the repaired fields. */
  ghost predicate Extends(p: seq<byte>, filler: Filler, at: nat, tp: TpInfo, q: seq<byte>)
    requires at <= |p|
  {
    && |q| == |p| + EXTEND_SIZE
    && forall i :: 0 <= i < |q| && !Repaired(i) ==> q[i] == Moved(p, filler, at, TpHeader(tp))[i]
  }

  /** After growth, move and print, the buffer is the moved packet. */
  lemma MovedAndPrinted(p: seq<byte>, filler: Filler, at: nat, tp: TpInfo, q: seq<byte>)
    requires at <= |p| && |q| == |p| + EXTEND_SIZE
    requires q[at..at + EXTEND_SIZE] == TpHeader(tp)
    requires forall i :: 0 <= i < at ==> q[i] == p[i]
    requires var size := Mask15(|p| - at);
             forall i :: at + EXTEND_SIZE <= i < |q| ==>
               q[i] == if i < at + EXTEND_SIZE + size then p[i - EXTEND_SIZE] else (p + filler)[i]
    ensures q == Moved(p, filler, at, TpHeader(tp))
  {
    hide TpHeader, Mask15;
    var size := Mask15(|p| - at);
    var mid := at + EXTEND_SIZE;
    assert q[..at] == p[..at];
    assert q[mid..mid + size] == p[at..at + size];
    assert q[mid + size..] == (p + filler)[mid + size..];
    assert q == q[..at] + q[at..mid] + q[mid..mid + size] + q[mid + size..];
  }

  lemma PayloadAfterGrowth(p: seq<byte>, filler: seq<byte>)
    requires TcpPayload(p).Some?
    ensures TcpPayload(p + filler) == TcpPayload(p)
  {
  }

  /** Grows the packet and splices the header in; none of the early returns past the growth
      can be taken. */
  method SpliceHeader(skb: Skb, tp: TpInfo, growth: Growth) returns (grown: bool)
    modifies skb, skb.data
    ensures grown <==> HeaderSlot(old(skb.data[..])).Some? && growth.Granted?
    ensures !grown ==> skb.data == old(skb.data) && skb.data[..] == old(skb.data[..])
    ensures grown ==> fresh(skb.data)
    ensures grown ==>
              skb.data[..] == Moved(old(skb.data[..]), growth.filler, HeaderSlot(old(skb.data[..])).value, TpHeader(tp))
  {
    hide TpHeader, FirstOf, Mask15, TcpPayload, Moved;
    ghost var p := skb.data[..];
    var payload := TcpPayload(skb.data[..]);
    if payload.None? {
      return false;
    }
    var newline := Memchar(skb.data[..], payload.value, NEWLINE, skb.data.Length, MAX_INLINE_LEN);
    if newline.None? {
      return false;
    }
    var copySize := Mask15(skb.data.Length - newline.value - 1);
    var nlOffset := newline.value - payload.value;
    if growth.Refused? {
      return false;
    }
    skb.ChangeTail(growth.filler);
    PayloadAfterGrowth(p, growth.filler);
    var payloadAgain := TcpPayload(skb.data[..]);
    assert payloadAgain == payload;
    var end := skb.data.Length;
    var src := payloadAgain.value + nlOffset + 1;
    var dest := src + EXTEND_SIZE;
    assert dest + copySize <= end;
    MoveData(skb.data, dest, src, end, copySize);
    MakeTpStringSkb(skb.data, src, tp, end);
    MovedAndPrinted(p, growth.filler, src, tp, skb.data[..]);
    grown := true;
  }

  /** The packet half of the HTTP tail program. */
  method InjectHeader(skb: Skb, tp: TpInfo, growth: Growth) returns (rewritten: bool)
    modifies skb, skb.data
    ensures rewritten <==> HeaderSlot(old(skb.data[..])).Some? && growth.Granted?
    ensures !rewritten ==> skb.data == old(skb.data) && skb.data[..] == old(skb.data[..])
    ensures rewritten ==> fresh(skb.data)
    ensures rewritten ==>
              Extends(old(skb.data[..]), growth.filler, HeaderSlot(old(skb.data[..])).value, tp, skb.data[..])
    ensures var slot := HeaderSlot(old(skb.data[..]));
            rewritten && |old(skb.data[..])| - slot.value <= MAX_IP_PACKET_SIZE ==>
              Injected(old(skb.data[..]), skb.data[..], slot.value, tp)
  {
    hide TpHeader, Valid, NewIpCheck, FirstOf, RepairedIpHeader, Moved;
    ghost var p := skb.data[..];
    rewritten := SpliceHeader(skb, tp, growth);
    if !rewritten {
      return;
    }
    var a := skb.data;
    ghost var s := a[..];
    RepairIpHeader(a);
    ghost var header := a[ETH_HLEN..TCP_OFF];
    var ok := UpdateTcpCsum(a);
    assert a[ETH_HLEN..TCP_OFF] == header;
    if |p| - HeaderSlot(p).value <= MAX_IP_PACKET_SIZE {
      MovedIsSplice(p, growth.filler, HeaderSlot(p).value, TpHeader(tp));
      assert s[ETH_HLEN..TCP_OFF] == p[ETH_HLEN..TCP_OFF];
      assert a[..][ETH_HLEN..TCP_OFF] == a[ETH_HLEN..TCP_OFF];
    }
  }
}
