/** The checksum half of the TC trace injector: word sums over a packet, the sixteen-bit fold
    and the TCP checksum rewrite. Packets are linear: one array from the Ethernet header on. */
module TcChecksum {
  import opened Bytes
  import opened OnesComplement
  import opened SkBuff

  const MAX_IP_PACKET_SIZE := 0x7fff
  const MAX_INLINE_LEN := 0x3ff

  const IP_HLEN := 20
  const TCP_HLEN := 20
  const TCP_OFF := ETH_HLEN + IP_HLEN
  const TCP_CHECK_OFF := TCP_OFF + 16

  /** Carry folding as a loop: it stops, and on the folded value. */
  method FoldCarries(sum: u32) returns (r: u16)
    ensures r == Fold(sum)
  {
    var s: u32 := sum;
    while s / 0x1_0000 != 0
      invariant Fold(s) == Fold(sum)
      decreases s
    {
      s := s % 0x1_0000 + s / 0x1_0000;
    }
    r := s;
  }

  /** `x & MAX_IP_PACKET_SIZE` */
  function Mask15(x: nat): (r: nat)
    ensures r <= x && r < 0x8000
    ensures x < 0x8000 ==> r == x
  {
    x % 0x8000
  }

  /** `x & MAX_INLINE_LEN` */
  function Mask10(x: nat): (r: nat)
    ensures r <= x && r < 0x400
    ensures x < 0x400 ==> r == x
  {
    x % 0x400
  }

  /** Unsigned 32-bit addition, wrap-around included. */
  function Add32(x: u32, y: u32): u32 {
    (x + y) % 0x1_0000_0000
  }

  lemma NoWrap(x: u32, y: u32)
    requires x + y < 0x1_0000_0000
    ensures Add32(x, y) == x + y
  {
  }

  /** `acc` is the unwrapped sum of the first `i` bytes from `b`. */
  ghost predicate Summed(data: seq<byte>, b: nat, i: nat, sum: nat, acc: nat) {
    && b + i <= |data|
    && sum <= 0xffff
    && acc == sum + SumLe(data[b..b + i])
  }

  lemma NothingSummed(data: seq<byte>, b: nat, sum: nat)
    requires b <= |data| && sum <= 0xffff
    ensures Summed(data, b, 0, sum, sum)
  {
  }

  lemma AllSummed(data: seq<byte>, b: nat, e: nat, sum: nat, acc: nat)
    requires b <= e && Summed(data, b, e - b, sum, acc)
    ensures e <= |data| && acc == sum + SumLe(data[b..e])
  {
  }

  /** One more aligned word joins the running sum without wrapping. */
  lemma AddWord(data: seq<byte>, b: nat, i: nat, sum: nat, acc: u32)
    requires i % 2 == 0 && i < 0x8000 && b + i + 2 <= |data|
    requires Summed(data, b, i, sum, acc)
    ensures Summed(data, b, i + 2, sum, Add32(acc, Le16(data[b + i], data[b + i + 1])))
  {
    hide SumLe, Add32, Le16;
    var word := data[b + i..b + i + 2];
    SumOfPair(word);
    SumAppend(data[b..b + i], word);
    assert data[b..b + i + 2] == data[b..b + i] + word;
    SumBound(data[b..b + i + 2]);
    NoWrap(acc, Le16(data[b + i], data[b + i + 1]));
  }

  /** The odd trailing byte joins the running sum without wrapping. */
  lemma AddLastByte(data: seq<byte>, b: nat, i: nat, sum: nat, acc: u32)
    requires i % 2 == 0 && i < 0x8000 && b + i + 1 <= |data|
    requires Summed(data, b, i, sum, acc)
    ensures Summed(data, b, i + 1, sum, Add32(acc, data[b + i]))
  {
    hide Add32;
    var last := data[b + i..b + i + 1];
    SumAppend(data[b..b + i], last);
    assert data[b..b + i + 1] == data[b..b + i] + last;
    SumBound(data[b..b + i + 1]);
    NoWrap(acc, data[b + i]);
  }

  /** The `bpf_loop` sum: the callback runs for every index and skips the odd ones. */
  method CalculateDatasum(data: seq<byte>, b: nat, e: nat, sum: u32) returns (r: u32)
    requires b <= |data| && e <= |data|
    ensures b >= e ==> r == 0
    ensures sum <= 0xffff && b < e <= b + MAX_IP_PACKET_SIZE ==> r == Fold(sum + SumLe(data[b..e]))
  {
    hide SumLe, Fold, Mask15, Mask10, Add32, Summed;
    if b >= e {
      return 0;
    }
    var len := Mask15(e - b);
    ghost var exact := sum <= 0xffff && e <= b + MAX_IP_PACKET_SIZE;
    var acc: u32 := sum;
    var index := 0;
    if exact {
      NothingSummed(data, b, sum);
    }
    while index < len
      invariant 0 <= index <= len
      invariant b + index + index % 2 <= e
      invariant exact ==> Summed(data, b, index + index % 2, sum, acc)
    {
      if index % 2 == 0 {
        var at := Mask15(index);
        if b + at + 2 > e {
          break;
        }
        if exact {
          AddWord(data, b, at, sum, acc);
        }
        acc := Add32(acc, Le16(data[b + at], data[b + at + 1]));
      }
      index := index + 1;
    }
    if len % 2 == 1 {
      assert b + len - 1 < e;  // the early return here is dead
      if exact {
        AddLastByte(data, b, len - 1, sum, acc);
      }
      acc := Add32(acc, data[b + len - 1]);
    }
    if exact {
      AllSummed(data, b, e, sum, acc);
    }
    r := FoldCarries(acc);
  }

  /** The unrolled sum for short buffers: the same result wherever both forms apply. */
  method CalculateDatasumInline(data: seq<byte>, b: nat, e: nat, sum: u32) returns (r: u32)
    requires b <= |data| && e <= |data|
    ensures b >= e ==> r == 0
    ensures sum <= 0xffff && b < e <= b + MAX_INLINE_LEN ==> r == Fold(sum + SumLe(data[b..e]))
  {
    hide SumLe, Fold, Mask15, Mask10, Add32, Summed;
    if b >= e {
      return 0;
    }
    var len := Mask10(e - b);
    ghost var exact := sum <= 0xffff && e <= b + MAX_INLINE_LEN;
    var acc: u32 := sum;
    var i := 0;
    if exact {
      NothingSummed(data, b, sum);
    }
    while i < len
      invariant i % 2 == 0 && 0 <= i <= len + len % 2
      invariant b + i <= e
      invariant exact ==> Summed(data, b, i, sum, acc)
    {
      if b + i + 1 >= e {
        break;
      }
      if exact {
        AddWord(data, b, i, sum, acc);
      }
      acc := Add32(acc, Le16(data[b + i], data[b + i + 1]));
      i := i + 2;
    }
    if len % 2 == 1 {
      assert b + len - 1 < e;  // the early return here is dead
      if exact {
        AddLastByte(data, b, len - 1, sum, acc);
      }
      acc := Add32(acc, data[b + len - 1]);
    }
    if exact {
      AllSummed(data, b, e, sum, acc);
    }
    r := FoldCarries(acc);
  }

  /** The twelve bytes of the IPv4 pseudo-header (section 3.1 of RFC 9293). */
  function PseudoHeader(pkt: seq<byte>, tcpLen: u16): (p: seq<byte>)
    requires TCP_OFF <= |pkt|
    ensures |p| == 12
  {
    pkt[ETH_HLEN + 12..ETH_HLEN + 20] + Be32Bytes(IPPROTO_TCP * 0x1_0000 + tcpLen)
  }

  /** The block a TCP checksum covers. */
  function ChecksummedSegment(pkt: seq<byte>): seq<byte>
    requires TCP_OFF <= |pkt| < TCP_OFF + 0x1_0000
  {
    PseudoHeader(pkt, |pkt| - TCP_OFF) + pkt[TCP_OFF..]
  }

  lemma ComplementCloses(p: int, foldedP: int, s: int, folded: int)
    requires Congruent(foldedP, p) && Congruent(folded, foldedP + s)
    ensures (p + s + (0xffff - folded)) % 0xffff == 0
  {
  }

  /** The complement of the folded sum, stored over the zeroed field, completes the block. */
  lemma ChecksumCompletes(pseudo: seq<byte>, segment: seq<byte>, check: u16)
    requires |pseudo| % 2 == 0 && SumLe(pseudo) > 0
    requires 18 <= |segment| && segment[16] == segment[17] == 0
    requires check == 0xffff - Fold(Fold(SumLe(pseudo)) + SumLe(segment))
    ensures Valid(pseudo + Patch(segment, 16, Le16Bytes(check)))
  {
    hide SumLe, Fold, Valid, Congruent, Patch, Le16Bytes;
    var p, s := SumLe(pseudo), SumLe(segment);
    FoldCongruent(p);
    FoldCongruent(Fold(p) + s);
    ComplementCloses(p, Fold(p), s, Fold(Fold(p) + s));
    var completed := Patch(segment, 16, Le16Bytes(check));
    SumPatchWord(segment, 16, Le16Bytes(check));
    SumAppend(pseudo, completed);
    ValidIffHostOrder(pseudo + completed);
  }

  lemma PseudoHeaderPositive(pkt: seq<byte>, tcpLen: u16)
    requires TCP_OFF <= |pkt|
    ensures SumLe(PseudoHeader(pkt, tcpLen)) > 0
  {
    hide SumLe, Be32Bytes;
    var addresses := pkt[ETH_HLEN + 12..ETH_HLEN + 20];
    var rest := Be32Bytes(IPPROTO_TCP * 0x1_0000 + tcpLen);
    assert rest[1] == IPPROTO_TCP;
    LeadingWordPositive(rest);
    SumAppend(addresses, rest);
  }

  /** The complemented sum over the pseudo-header and a segment whose checksum field is zero. */
  method SegmentCheck(pkt: seq<byte>) returns (check: u16)
    requires TCP_OFF + TCP_HLEN <= |pkt|
    ensures |pkt| <= TCP_OFF + MAX_IP_PACKET_SIZE ==>
              check == 0xffff - Fold(Fold(SumLe(PseudoHeader(pkt, |pkt| - TCP_OFF))) + SumLe(pkt[TCP_OFF..]))
  {
    hide SumLe, Fold, Mask15, PseudoHeader;
    var tcpLen: u16 := Mask15(|pkt| - TCP_OFF);
    var header := PseudoHeader(pkt, tcpLen);
    var dataSum := CalculateDatasumInline(header, 0, 12, 0);
    assert header[0..12] == header;
    assert pkt[TCP_OFF..] == pkt[TCP_OFF..|pkt|];
    if tcpLen < MAX_INLINE_LEN {
      dataSum := CalculateDatasumInline(pkt, TCP_OFF, |pkt|, dataSum);
    } else {
      dataSum := CalculateDatasum(pkt, TCP_OFF, |pkt|, dataSum);
    }
    check := (0xffff_ffff - dataSum) % 0x1_0000;
  }

  /** Storing the computed check in the zeroed field makes the whole segment valid. */
  lemma CheckWritten(zeroed: seq<byte>, pkt: seq<byte>, check: u16)
    requires TCP_OFF + TCP_HLEN <= |zeroed| <= TCP_OFF + MAX_IP_PACKET_SIZE
    requires zeroed[TCP_CHECK_OFF] == zeroed[TCP_CHECK_OFF + 1] == 0
    requires pkt == zeroed[TCP_CHECK_OFF := check % 0x100][TCP_CHECK_OFF + 1 := check / 0x100]
    requires check == 0xffff - Fold(Fold(SumLe(PseudoHeader(zeroed, |zeroed| - TCP_OFF))) + SumLe(zeroed[TCP_OFF..]))
    ensures Valid(ChecksummedSegment(pkt))
  {
    hide SumLe, Fold, Valid, PseudoHeader;
    var tcpLen, segment := |zeroed| - TCP_OFF, zeroed[TCP_OFF..];
    PseudoHeaderPositive(zeroed, tcpLen);
    ChecksumCompletes(PseudoHeader(zeroed, tcpLen), segment, check);
    assert pkt[TCP_OFF..] == Patch(segment, 16, Le16Bytes(check));
    assert PseudoHeader(pkt, tcpLen) == PseudoHeader(zeroed, tcpLen) by {
      SamePseudoHeader(pkt, zeroed, tcpLen);
    }
  }

  lemma SamePseudoHeader(p: seq<byte>, q: seq<byte>, tcpLen: u16)
    requires TCP_OFF <= |p| && TCP_OFF <= |q| && p[..TCP_OFF] == q[..TCP_OFF]
    ensures PseudoHeader(p, tcpLen) == PseudoHeader(q, tcpLen)
  {
    SliceOfSlice(p, 0, TCP_OFF, ETH_HLEN + 12, ETH_HLEN + 20);
    SliceOfSlice(q, 0, TCP_OFF, ETH_HLEN + 12, ETH_HLEN + 20);
  }

  /** Recomputes the TCP checksum of a packet whose IPv4 header has no options. */
  method UpdateTcpCsum(data: array<byte>) returns (ok: bool)
    modifies data
    ensures ok <==> TCP_OFF + TCP_HLEN <= data.Length
    ensures forall i :: 0 <= i < data.Length && !(ok && TCP_CHECK_OFF <= i < TCP_CHECK_OFF + 2) ==>
              data[i] == old(data[i])
    ensures ok && data.Length <= TCP_OFF + MAX_IP_PACKET_SIZE ==> Valid(ChecksummedSegment(data[..]))
  {
    hide SumLe, Fold, Valid, PseudoHeader, ChecksummedSegment;
    if data.Length < TCP_OFF + TCP_HLEN {
      return false;
    }
    data[TCP_CHECK_OFF], data[TCP_CHECK_OFF + 1] := 0, 0;
    ghost var zeroed := data[..];
    var check := SegmentCheck(data[..]);
    data[TCP_CHECK_OFF], data[TCP_CHECK_OFF + 1] := check % 0x100, check / 0x100;
    if data.Length <= TCP_OFF + MAX_IP_PACKET_SIZE {
      CheckWritten(zeroed, data[..], check);
    }
    ok := true;
  }
}
