/** The runs of segments are runs of packets: what the hooks do to the bytes is what the run model
    does to the numbers. */
module TcPackets {
  import opened Bytes
  import opened OnesComplement
  import opened ConnectionInfo
  import opened TcChecksum
  import opened Traceparent
  import opened TcInject
  import opened TcHttp
  import opened Mod32
  import opened TcRuns

  /** A TCP header of at least twenty bytes, by its own account too. */
  predicate FullHeader(p: seq<byte>) {
    HasTcpHeader(p) && p[TCP_OFF + 12] / 16 >= 5
  }

  function PayloadLen(p: seq<byte>): nat {
    match TcpPayload(p)
    case None => 0
    case Some(off) => |p| - off
  }

  function SegmentOf(p: seq<byte>): Segment
    requires HasTcpHeader(p)
  {
    Segment(SeqOf(p), AckOf(p), FlagsOf(p), PayloadLen(p))
  }

  /** The number after the packet's last byte. */
  function EndOf(p: seq<byte>): int
    requires HasTcpHeader(p)
  {
    (SeqOf(p) + Size(SegmentOf(p))) % M
  }

  ghost predicate SameHeader(p: seq<byte>, q: seq<byte>)
    requires HasTcpHeader(p) && HasTcpHeader(q)
  {
    AckOf(q) == AckOf(p) && FlagsOf(q) == FlagsOf(p) && SrcPort(q) == SrcPort(p) && DstPort(q) == DstPort(p)
  }

  /** Growing a packet behind its TCP header changes nothing in it but the checksum. */
  lemma ExtendedHeader(p: seq<byte>, filler: Filler, tp: TpInfo, q: seq<byte>)
    requires FullHeader(p) && HeaderSlot(p).Some? && Extends(p, filler, HeaderSlot(p).value, tp, q)
    ensures FullHeader(q) && SeqOf(q) == SeqOf(p) && SameHeader(p, q)
    ensures PayloadLen(q) == PayloadLen(p) + EXTEND_SIZE
  {
    hide Be32, HeaderSlot, TpHeader;
    assert TCP_OFF + TCP_HLEN <= TcpPayload(p).value < HeaderSlot(p).value;
    assert forall i :: TCP_OFF <= i < TCP_OFF + 16 ==> q[i] == p[i];
    assert q[SEQ_OFF..SEQ_OFF + 4] == p[SEQ_OFF..SEQ_OFF + 4];
    assert q[ACK_OFF..ACK_OFF + 4] == p[ACK_OFF..ACK_OFF + 4];
  }

  lemma ShiftedHeader(p: seq<byte>, shift: u32)
    requires FullHeader(p)
    ensures FullHeader(Shifted(p, shift)) && SameHeader(p, Shifted(p, shift))
    ensures PayloadLen(Shifted(p, shift)) == PayloadLen(p)
    ensures SeqOf(Shifted(p, shift)) == (SeqOf(p) + shift) % M
  {
    hide Be32, Be32Bytes, Patch, TcpPayload;
    ShiftedFields(p, shift);
  }

  /** The egress hook, seen as a step: the packet leaves with the number of the run model, 70 payload
      bytes longer exactly when rewritten, with every other field of its header kept, and the model's
      contexts and sent end are those of the hook and the packet. */
  lemma EgressIsStep(w: World, k: u32, outgoing: map<EgressKey, TpInfo>, growth: Growth, inserted: bool,
                     p: seq<byte>, q: seq<byte>, m': Contexts, rewritten: bool)
    requires FullHeader(p) && EgressLeaves(w.contexts, outgoing, growth, inserted, p, q, m', rewritten)
    ensures FullHeader(q) && SameHeader(p, q)
    ensures SeqOf(q) == WireSeq(w.contexts, SrcPort(p), SegmentOf(p))
    ensures PayloadLen(q) == PayloadLen(p) + (if rewritten then EXTEND_SIZE else 0)
    ensures var e := Out(SrcPort(p), SegmentOf(p), rewritten, inserted);
            && m' == Step(w, k, e).contexts
            && (Aborts(w.contexts, SrcPort(p), FlagsOf(p)) ==> !rewritten)
            && (SrcPort(p) == k ==> Step(w, k, e).sent == EndOf(q))
  {
    hide Injected, HeaderSlot, IsHttpRequest, SeqOf, AckOf, FlagsOf, SrcPort, DstPort, TcpPayload, PayloadLen, Shifted,
         AfterEgress, Extends, Shift;
    var shift := Shift(w.contexts, SrcPort(p), FlagsOf(p));
    var shifted := Shifted(p, shift);
    ShiftedHeader(p, shift);
    if rewritten {
      ExtendedHeader(shifted, growth.filler, outgoing[EgressKey(SrcPort(p), DstPort(p))], q);
    }
    var seg := SegmentOf(p);
    assert Size(SegmentOf(q)) == Size(seg) + (if rewritten then EXTEND_SIZE else 0);
  }

  /** The ingress hook, seen as a step: only the acknowledgement number moves, back by the total. */
  lemma IngressIsStep(w: World, k: u32, p: seq<byte>, q: seq<byte>, m': Contexts)
    requires HasTcpHeader(p) && IngressLeaves(w.contexts, p, q, m')
    ensures HasTcpHeader(q) && AckOf(q) == (AckOf(p) - Unshift(w.contexts, DstPort(p))) % M
    ensures SeqOf(q) == SeqOf(p) && FlagsOf(q) == FlagsOf(p) && PayloadLen(q) == PayloadLen(p)
    ensures m' == Step(w, k, In(DstPort(p), SegmentOf(p))).contexts
  {
    hide Be32, Be32Bytes, Patch, NextIn;
    if DstPort(p) as u32 in w.contexts {
      assert q[SEQ_OFF..SEQ_OFF + 4] == p[SEQ_OFF..SEQ_OFF + 4];
    }
  }

  /** On the wire: an outgoing packet starts where the last one ended exactly when no growth has been
      forgotten since that one left. */
  lemma PacketContinuesIff(w: World, k: u32, es: seq<Event>, outgoing: map<EgressKey, TpInfo>, growth: Growth,
                           inserted: bool, p: seq<byte>, q: seq<byte>, m': Contexts, rewritten: bool)
    requires Start(w, k) && LegalRun(w, k, es)
    requires FullHeader(p) && SrcPort(p) == k && SeqOf(p) == Run(w, k, es).local && !FlagsOf(p).syn
    requires EgressLeaves(Run(w, k, es).contexts, outgoing, growth, inserted, p, q, m', rewritten)
    ensures HasTcpHeader(q)
    ensures var now, e := Run(w, k, es), Out(k, SegmentOf(p), rewritten, inserted);
            && LegalRun(w, k, es + [e]) && Run(w, k, es + [e]).contexts == m' && Run(w, k, es + [e]).sent == EndOf(q)
            && (SeqOf(q) == now.sent <==> Before(now, k, e).lost % 0x8000_0000 == 0)
  {
    hide EgressLeaves, SeqOf, AckOf, FlagsOf, SrcPort, PayloadLen, WireSeq, Step, Start, Before;
    var now, e := Run(w, k, es), Out(k, SegmentOf(p), rewritten, inserted);
    EgressIsStep(now, k, outgoing, growth, inserted, p, q, m', rewritten);
    assert (es + [e])[..|es|] == es;
    SegmentContinuesIff(w, k, es, e);
  }

  /** And back: a packet that acknowledges a sent end as it left reaches the local stack with its own
      number for it exactly when that end includes as many growths as the context counts. */
  lemma AckedPacketMapsBackIff(w: World, k: u32, es: seq<Event>, i: nat, p: seq<byte>, q: seq<byte>, m': Contexts)
    requires Start(w, k) && LegalRun(w, k, es) && i < |Run(w, k, es).marks|
    requires HasTcpHeader(p) && DstPort(p) == k && AckOf(p) == Run(w, k, es).marks[i].sent
    requires IngressLeaves(Run(w, k, es).contexts, p, q, m')
    ensures HasTcpHeader(q)
    ensures var now, e := Run(w, k, es), In(k, SegmentOf(p));
            && LegalRun(w, k, es + [e]) && Run(w, k, es + [e]).contexts == m'
            && (AckOf(q) == now.marks[i].local <==> (now.marks[i].carried - now.counted) % 0x8000_0000 == 0)
  {
    hide IngressLeaves, SeqOf, AckOf, FlagsOf, DstPort, PayloadLen, Step, Start, Unshift;
    var now, e := Run(w, k, es), In(k, SegmentOf(p));
    IngressIsStep(now, k, p, q, m');
    assert (es + [e])[..|es|] == es;
    AckMapsBackIff(w, k, es, i);
  }

  // ---------------------------------------------------------------- the checksum of a shifted packet

  /** A big-endian word counts as 0x100 times the sum of its host-order halves, modulo 0xffff. */
  lemma NumberSum(b: seq<byte>)
    requires |b| == 4
    ensures Congruent(Be32(b), 0x100 * SumLe(b))
  {
    hide SumLe;
    assert b == b[..2] + b[2..];
    SumAppend(b[..2], b[2..]);
    SumOfPair(b[..2]);
    SumOfPair(b[2..]);
    NumberOfBytes(b[0], b[1], b[2], b[3]);
  }

  lemma NumberOfBytes(a: byte, b: byte, c: byte, d: byte)
    ensures Congruent(Be32([a, b, c, d]), 0x100 * (Le16(a, b) + Le16(c, d)))
  {
    assert Be32([a, b, c, d]) - 0x100 * (Le16(a, b) + Le16(c, d)) == 0xffff * (0x100 * a - d);
  }

  lemma SameResidues(x: int, y: int, s: int, t: int)
    requires Congruent(x, 0x100 * s) && Congruent(y, 0x100 * t)
    ensures Congruent(x, y) <==> Congruent(s, t)
  {
    ScaleByByte(s - t);
    var k := (x - 0x100 * s) / 0xffff - (y - 0x100 * t) / 0xffff;
    assert x - y == 0x100 * (s - t) + 0xffff * k;
    Shifted16(0x100 * (s - t), k);
  }

  lemma Shifted16(n: int, k: int)
    ensures (n + 0xffff * k) % 0xffff == 0 <==> n % 0xffff == 0
  {
    if n % 0xffff == 0 {
      assert n + 0xffff * k == 0xffff * (n / 0xffff + k);
    }
    if (n + 0xffff * k) % 0xffff == 0 {
      assert n == 0xffff * ((n + 0xffff * k) / 0xffff - k);
    }
  }

  /** Overwriting an aligned number moves the sum by the difference. */
  lemma SumPatchNumber(s: seq<byte>, at: nat, w: seq<byte>)
    requires at % 2 == 0 && |w| == 4 && at + 4 <= |s|
    ensures SumLe(Patch(s, at, w)) == SumLe(s) - SumLe(s[at..at + 4]) + SumLe(w)
  {
    hide SumLe, Patch;
    var head, tail := s[..at], s[at + 4..];
    assert s == head + (s[at..at + 4] + tail);
    assert Patch(s, at, w) == head + (w + tail);
    SumAppend(head, s[at..at + 4] + tail);
    SumAppend(s[at..at + 4], tail);
    SumAppend(head, w + tail);
    SumAppend(w, tail);
  }

  /** A packet that is shifted and not rewritten keeps its checksum: a valid segment stays valid exactly
      when the old and the new number agree modulo 0xffff. */
  lemma ShiftedIsValidIff(p: seq<byte>, shift: u32)
    requires HasTcpHeader(p) && |p| < TCP_OFF + 0x1_0000 && Valid(ChecksummedSegment(p))
    ensures Valid(ChecksummedSegment(Shifted(p, shift))) <==> Congruent(SeqOf(Shifted(p, shift)), SeqOf(p))
  {
    hide SumLe, Patch, Valid, Be32, Be32Bytes, Congruent, PseudoHeader;
    var q := Shifted(p, shift);
    var x, y := p[SEQ_OFF..SEQ_OFF + 4], q[SEQ_OFF..SEQ_OFF + 4];
    ShiftedBlock(p, shift);
    var b := ChecksummedSegment(p);
    SumPatchNumber(b, 16, y);
    ValidIffHostOrder(b);
    ValidIffHostOrder(ChecksummedSegment(q));
    NumberSum(x);
    NumberSum(y);
    SameResidues(Be32(y), Be32(x), SumLe(y), SumLe(x));
    BlockPositive(q);
    Replaced16(SumLe(b), SumLe(x), SumLe(y));
  }

  /** In the block the checksum covers, the number lies behind the pseudo-header and the ports. */
  lemma ShiftedBlock(p: seq<byte>, shift: u32)
    requires HasTcpHeader(p) && |p| < TCP_OFF + 0x1_0000
    ensures var b, q := ChecksummedSegment(p), Shifted(p, shift);
            && |b| == 12 + |p| - TCP_OFF && b[16..20] == p[SEQ_OFF..SEQ_OFF + 4]
            && ChecksummedSegment(q) == Patch(b, 16, q[SEQ_OFF..SEQ_OFF + 4])
  {
    hide Be32, Be32Bytes, PseudoHeader;
    var q := Shifted(p, shift);
    assert forall i :: 0 <= i < |p| && !(SEQ_OFF <= i < SEQ_OFF + 4) ==> q[i] == p[i];
    assert q[..TCP_OFF] == p[..TCP_OFF];
    SamePseudoHeader(p, q, |p| - TCP_OFF);
    var b, c := ChecksummedSegment(p), ChecksummedSegment(q);
    assert b[16..20] == p[SEQ_OFF..SEQ_OFF + 4];
    assert c == Patch(b, 16, q[SEQ_OFF..SEQ_OFF + 4]);
  }

  lemma BlockPositive(p: seq<byte>)
    requires HasTcpHeader(p) && |p| < TCP_OFF + 0x1_0000
    ensures SumLe(ChecksummedSegment(p)) > 0
  {
    hide SumLe;
    PseudoHeaderPositive(p, |p| - TCP_OFF);
    SumAppend(PseudoHeader(p, |p| - TCP_OFF), p[TCP_OFF..]);
  }

  lemma Replaced16(sum: int, x: int, y: int)
    requires sum % 0xffff == 0
    ensures (sum - x + y) % 0xffff == 0 <==> Congruent(y, x)
  {
    assert sum - x + y == (y - x) + 0xffff * (sum / 0xffff);
    Shifted16(y - x, sum / 0xffff);
  }

  /** So a shift by less than 65535 that does not carry past 2^32 always breaks it. */
  lemma SmallShiftBreaksChecksum(p: seq<byte>, shift: u32)
    requires HasTcpHeader(p) && |p| < TCP_OFF + 0x1_0000 && Valid(ChecksummedSegment(p))
    requires 0 < shift < 0xffff && SeqOf(p) + shift < M
    ensures !Valid(ChecksummedSegment(Shifted(p, shift)))
  {
    hide Valid, ChecksummedSegment, Shifted, SeqOf;
    ShiftedFields(p, shift);
    ShiftedIsValidIff(p, shift);
  }
}
