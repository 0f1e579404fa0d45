/** Trace ids carried in an IPv4 option or an IPv6 Destination Options header. */
module IpOptions {
  import opened Bytes
  import opened Options
  import opened BitStrings
  import opened OnesComplement
  import opened SkBuff
  import opened Traceparent
  import opened TcpInfo

  const MIN_IP_LEN := 20
  const MAX_TC_TP_LEN := 20
  const TC_TP_ID := 0x1488
  const MAX_IPV6_OPTS_LEN := 24

  const IPV4_END := ETH_HLEN + MIN_IP_LEN
  const IPV6_END := ETH_HLEN + 40

  // ---------------------------------------------------------------- IPv4

  /** Key, trace id, two bytes of padding. */
  function Ipv4Option(id: TraceId): (o: seq<byte>)
    ensures |o| == MAX_TC_TP_LEN
  {
    Le16Bytes(TC_TP_ID) + id + [0, 0]
  }

  /** Version kept, header length up by five words. */
  function NewHdrByte(b: byte): byte
    requires b % 16 == 5
  {
    b / 16 * 16 + 10
  }

  /** The masks of the source compute the same byte. */
  lemma HdrByteMasks(b: byte)
    requires b % 16 == 5
    ensures Or(b / 16 * 16, b % 16 + MAX_TC_TP_LEN / 4) == NewHdrByte(b)
  {
    assert Pow2(4) == 16;
    OrDisjoint(b / 16, 4, 10);
  }

  function NewLen(tot: u16, extra: nat): u16 {
    (tot + extra) % 0x1_0000
  }

  function TraceWord(id: TraceId, i: nat): u32
    requires i < 4
  {
    Le32(id[4 * i..4 * i + 4])
  }

  /** The checksum after the first `n` trace words have been folded in. */
  function CheckAfter(check: u16, tot: u16, hdr: byte, id: TraceId, n: nat): u16
    requires n <= 4 && hdr % 16 == 5
  {
    if n == 0 then
      var from, to := Be16Bytes(tot), Be16Bytes(NewLen(tot, MAX_TC_TP_LEN));
      var c1 := CsumReplace2(check, Le16(from[0], from[1]), Le16(to[0], to[1]));
      var c2 := CsumReplace2(c1, hdr, NewHdrByte(hdr));
      CsumReplace2(c2, 0, TC_TP_ID)
    else
      CsumReplace4(CheckAfter(check, tot, hdr, id, n - 1), 0, TraceWord(id, n - 1))
  }

  /** The 40-byte header that leaves. */
  function Ipv4Header(h: seq<byte>, id: TraceId): (r: seq<byte>)
    requires |h| == MIN_IP_LEN && h[0] % 16 == 5
    ensures |r| == MIN_IP_LEN + MAX_TC_TP_LEN
  {
    var tot := Be16(h[2], h[3]);
    var h1 := Patch(h, 2, Be16Bytes(NewLen(tot, MAX_TC_TP_LEN)));
    var h2 := Patch(h1, 0, [NewHdrByte(h[0])]);
    var h3 := Patch(h2, 10, Le16Bytes(CheckAfter(Le16(h[10], h[11]), tot, h[0], id, 4)));
    h3 + Ipv4Option(id)
  }

  function Ipv4Packet(p: seq<byte>, id: TraceId): (q: seq<byte>)
    requires IPV4_END <= |p| && p[ETH_HLEN] % 16 == 5
    ensures |q| == |p| + MAX_TC_TP_LEN
  {
    p[..ETH_HLEN] + Ipv4Header(p[ETH_HLEN..IPV4_END], id) + p[IPV4_END..]
  }

  /** A 32-bit word counts as its two halves modulo 0xffff. */
  lemma WordSum(b: seq<byte>)
    requires |b| == 4
    ensures Congruent(SumLe(b), Le32(b))
  {
    hide SumLe;
    SumAppend(b[..2], b[2..]);
    assert b == b[..2] + b[2..];
    SumOfPair(b[..2]);
    SumOfPair(b[2..]);
  }

  lemma CongruentStep(c: int, b: int, c': int, word: int, more: int)
    requires Congruent(c, b) && Congruent(c', c - word) && Congruent(more, word)
    ensures Congruent(c', b - more)
  {
    assert c' - (b - more) == 0xffff * ((c - b) / 0xffff + (c' - (c - word)) / 0xffff + (more - word) / 0xffff);
  }

  lemma CongruentTrans(a: int, b: int, c: int)
    requires Congruent(a, b) && Congruent(b, c)
    ensures Congruent(a, c)
  {
    assert a - c == 0xffff * ((a - b) / 0xffff + (b - c) / 0xffff);
  }

  lemma Chain3(c0: int, c1: int, c2: int, c3: int, d1: int, d2: int, d3: int)
    requires Congruent(c1, c0 + d1) && Congruent(c2, c1 + d2) && Congruent(c3, c2 + d3)
    ensures Congruent(c3, c0 + d1 + d2 + d3)
  {
    hide Congruent;
    CongruentAdd(c1, c0 + d1, d2);
    CongruentTrans(c2, c1 + d2, c0 + d1 + d2);
    CongruentAdd(c2, c0 + d1 + d2, d3);
    CongruentTrans(c3, c2 + d3, c0 + d1 + d2 + d3);
  }

  /** The chain of replacements subtracts exactly what was added to the header. */
  lemma {:induction false} CheckTracks(check: u16, tot: u16, hdr: byte, id: TraceId, n: nat)
    requires n <= 4 && hdr % 16 == 5
    ensures var from, to := Be16Bytes(tot), Be16Bytes(NewLen(tot, MAX_TC_TP_LEN));
            Congruent(CheckAfter(check, tot, hdr, id, n),
                      check + Le16(from[0], from[1]) - Le16(to[0], to[1]) + hdr - NewHdrByte(hdr)
                      - TC_TP_ID - SumLe(id[..4 * n]))
  {
    hide CsumReplace2, CsumReplace4, Congruent, SumLe, Be16Bytes, NewLen, NewHdrByte, Le16, Le32;
    var from, to := Be16Bytes(tot), Be16Bytes(NewLen(tot, MAX_TC_TP_LEN));
    var lf: int, lt: int := Le16(from[0], from[1]), Le16(to[0], to[1]);
    var base: int := check + lf - lt + hdr - NewHdrByte(hdr) - TC_TP_ID;
    if n == 0 {
      EmptySum();
      assert id[..0] == [];
      var c1 := CsumReplace2(check, lf, lt);
      var c2 := CsumReplace2(c1, hdr, NewHdrByte(hdr));
      Chain3(check, c1, c2, CsumReplace2(c2, 0, TC_TP_ID), lf - lt, hdr as int - NewHdrByte(hdr), 0 - TC_TP_ID);
    } else {
      CheckTracks(check, tot, hdr, id, n - 1);
      var done, word := id[..4 * (n - 1)], id[4 * (n - 1)..4 * (n - 1) + 4];
      assert id[..4 * n] == done + word;
      SumAppend(done, word);
      WordSum(word);
      CongruentStep(CheckAfter(check, tot, hdr, id, n - 1), base - SumLe(done),
                    CheckAfter(check, tot, hdr, id, n), TraceWord(id, n - 1), SumLe(word));
    }
  }

  lemma EmptySum()
    ensures SumLe([]) == 0
  {
  }

  lemma OptionSum(id: TraceId)
    ensures SumLe(Ipv4Option(id)) == TC_TP_ID + SumLe(id)
  {
    hide SumLe;
    var key := Le16Bytes(TC_TP_ID);
    SumAppend(key + id, [0, 0]);
    SumAppend(key, id);
    SumOfPair(key);
    SumOfPair([0, 0]);
  }

  lemma PatchFirstByte(h: seq<byte>, b: byte)
    requires |h| >= 2
    ensures SumLe(Patch(h, 0, [b])) == SumLe(h) - h[0] + b
  {
    assert Patch(h, 0, [b])[2..] == h[2..];
  }

  /** The bytes of the rewritten header add up as if each change had been made on its own. */
  lemma HeaderSum(h: seq<byte>, id: TraceId)
    requires |h| == MIN_IP_LEN && h[0] % 16 == 5
    ensures var tot := Be16(h[2], h[3]);
            var to := Be16Bytes(NewLen(tot, MAX_TC_TP_LEN));
            SumLe(Ipv4Header(h, id)) ==
            SumLe(h) - Le16(h[2], h[3]) + Le16(to[0], to[1]) - h[0] + NewHdrByte(h[0])
            - Le16(h[10], h[11]) + CheckAfter(Le16(h[10], h[11]), tot, h[0], id, 4) + TC_TP_ID + SumLe(id)
  {
    hide SumLe, Patch, NewHdrByte, NewLen, CheckAfter, Le16, Be16, Le16Bytes, Be16Bytes, Ipv4Option;
    var tot := Be16(h[2], h[3]);
    var to, check := Be16Bytes(NewLen(tot, MAX_TC_TP_LEN)), CheckAfter(Le16(h[10], h[11]), tot, h[0], id, 4);
    var h1 := Patch(h, 2, to);
    var h2 := Patch(h1, 0, [NewHdrByte(h[0])]);
    var h3 := Patch(h2, 10, Le16Bytes(check));
    SumPatchWord(h, 2, to);
    assert h1[0] == h[0] && h1[10] == h[10] && h1[11] == h[11];
    PatchFirstByte(h1, NewHdrByte(h[0]));
    assert h2[10] == h[10] && h2[11] == h[11];
    SumPatchWord(h2, 10, Le16Bytes(check));
    SumAppend(h3, Ipv4Option(id));
    OptionSum(id);
  }

  lemma Balance(sum: int, was: int, lf: int, lt: int, hdr: int, hdr': int, key: int, ids: int, check: int)
    requires Congruent(check, was + lf - lt + hdr - hdr' - key - ids)
    ensures Congruent(sum - lf + lt - hdr + hdr' - was + check + key + ids, sum)
  {
    hide Congruent;
    CongruentAdd(check, was + lf - lt + hdr - hdr' - key - ids, sum - lf + lt - hdr + hdr' - was + key + ids);
  }

  lemma BytesOfBe16(hi: byte, lo: byte)
    ensures Be16Bytes(Be16(hi, lo)) == [hi, lo]
  {
  }

  /** A valid header stays valid: the incremental update covers all 40 bytes. */
  lemma InjectedHeaderValid(h: seq<byte>, id: TraceId)
    requires |h| == MIN_IP_LEN && h[0] % 16 == 5 && Valid(h)
    ensures Valid(Ipv4Header(h, id))
  {
    hide SumLe, Valid, Congruent, CheckAfter, Be16, Le16, NewLen, NewHdrByte, Be16Bytes, Patch;
    var tot, was := Be16(h[2], h[3]), Le16(h[10], h[11]);
    CheckTracks(was, tot, h[0], id, 4);
    BytesOfBe16(h[2], h[3]);
    assert id[..16] == id;
    HeaderSum(h, id);
    var to := Be16Bytes(NewLen(tot, MAX_TC_TP_LEN));
    Balance(SumLe(h), was, Le16(h[2], h[3]), Le16(to[0], to[1]), h[0], NewHdrByte(h[0]), TC_TP_ID, SumLe(id),
            CheckAfter(was, tot, h[0], id, 4));
    FirstByteKept(h, id);
    LeadingWordPositive(Ipv4Header(h, id));
    StaysValid(h, Ipv4Header(h, id));
  }

  lemma FirstByteKept(h: seq<byte>, id: TraceId)
    requires |h| == MIN_IP_LEN && h[0] % 16 == 5
    ensures Ipv4Header(h, id)[0] == NewHdrByte(h[0]) != 0
  {
    hide CheckAfter, Le16Bytes, Be16Bytes;
  }

  /** The stored checksum is the one a full recomputation over the 40 bytes would store, up to
      one's-complement zero. */
  lemma InjectedCheckIsRecomputed(h: seq<byte>, id: TraceId)
    requires |h| == MIN_IP_LEN && h[0] % 16 == 5 && Valid(h)
    ensures var r := Ipv4Header(h, id);
            var check, full := Le16(r[10], r[11]), 0xffff - Fold(SumLe(Patch(r, 10, [0, 0])));
            check == full || (check == 0xffff && full == 0)
  {
    hide SumLe, Valid, Ipv4Header, Fold;
    InjectedHeaderValid(h, id);
    ValidMeansRecomputed(Ipv4Header(h, id), 10);
  }

  /** Opens the gap and writes the option. */
  method WriteIpv4Option(skb: Skb, id: TraceId)
    requires IPV4_END <= skb.data.Length
    modifies skb
    ensures fresh(skb.data)
    ensures skb.data[..] == old(skb.data[..IPV4_END]) + Ipv4Option(id) + old(skb.data[IPV4_END..])
  {
    hide Patch, Le16Bytes, Ipv4Option;
    ghost var head, tail := skb.data[..IPV4_END], skb.data[IPV4_END..];
    skb.AdjustRoom(IPV4_END, MAX_TC_TP_LEN);
    ghost var gap: seq<byte> := seq(MAX_TC_TP_LEN, _ => 0);
    assert skb.data[..] == head + gap + tail;
    skb.StoreBytes(IPV4_END, Le16Bytes(TC_TP_ID));
    PatchInside(head, gap, tail, 0, Le16Bytes(TC_TP_ID));
    ghost var g1 := Patch(gap, 0, Le16Bytes(TC_TP_ID));
    skb.StoreBytes(IPV4_END + 2, id);
    PatchInside(head, g1, tail, 2, id);
    ghost var g2 := Patch(g1, 2, id);
    skb.StoreBytes(IPV4_END + 18, [0, 0]);
    PatchInside(head, g2, tail, 18, [0, 0]);
    OptionFilled(gap, id);
  }

  lemma OptionFilled(gap: seq<byte>, id: TraceId)
    requires |gap| == MAX_TC_TP_LEN
    ensures Patch(Patch(Patch(gap, 0, Le16Bytes(TC_TP_ID)), 2, id), 18, [0, 0]) == Ipv4Option(id)
  {
  }

  /** The stores and the folded checksum, seen as one header. */
  lemma Assembled(p: seq<byte>, id: TraceId, check: u16)
    requires IPV4_END <= |p| && p[ETH_HLEN] % 16 == 5
    requires check == CheckAfter(Le16(p[IP_CHECK_OFF], p[IP_CHECK_OFF + 1]),
                                 Be16(p[TOT_LEN_OFF], p[TOT_LEN_OFF + 1]), p[ETH_HLEN], id, 4)
    ensures var q := p[..IPV4_END] + Ipv4Option(id) + p[IPV4_END..];
            var q1 := Patch(q, TOT_LEN_OFF, Be16Bytes(NewLen(Be16(p[TOT_LEN_OFF], p[TOT_LEN_OFF + 1]), MAX_TC_TP_LEN)));
            var q2 := Patch(q1, ETH_HLEN, [NewHdrByte(p[ETH_HLEN])]);
            Patch(q2, IP_CHECK_OFF, Le16Bytes(check)) == Ipv4Packet(p, id)
  {
    hide Patch, CheckAfter, NewLen, NewHdrByte, Ipv4Option, Le16, Be16;
    var a, h, c := p[..ETH_HLEN], p[ETH_HLEN..IPV4_END], Ipv4Option(id) + p[IPV4_END..];
    var len := Be16Bytes(NewLen(Be16(h[2], h[3]), MAX_TC_TP_LEN));
    assert p[..IPV4_END] + Ipv4Option(id) + p[IPV4_END..] == a + h + c;
    PatchInside(a, h, c, 2, len);
    var h1 := Patch(h, 2, len);
    PatchInside(a, h1, c, 0, [NewHdrByte(h[0])]);
    var h2 := Patch(h1, 0, [NewHdrByte(h[0])]);
    PatchInside(a, h2, c, 10, Le16Bytes(check));
    var h3 := Patch(h2, 10, Le16Bytes(check));
    assert a + h3 + c == a + (h3 + Ipv4Option(id)) + p[IPV4_END..];
  }

  /** Adds the option to a packet whose IPv4 header had none; the room may be refused. */
  method InjectTcIpOptionsIpv4(skb: Skb, tcp: ProtocolInfo, id: TraceId, room: bool) returns (done: bool)
    requires IPV4_END <= skb.data.Length && skb.data[ETH_HLEN] % 16 == 5
    requires tcp.totLen == Be16(skb.data[TOT_LEN_OFF], skb.data[TOT_LEN_OFF + 1])
    modifies skb, skb.data
    ensures done == room
    ensures !done ==> skb.data == old(skb.data) && skb.data[..] == old(skb.data[..])
    ensures done ==> fresh(skb.data) && skb.data[..] == Ipv4Packet(old(skb.data[..]), id)
  {
    hide Patch, NewLen, NewHdrByte, Ipv4Option, Le16, Be16, CsumReplace2, CsumReplace4, Ipv4Packet, Or;
    if !room {
      return false;
    }
    ghost var p := skb.data[..];
    var hdrLen := skb.data[ETH_HLEN];
    WriteIpv4Option(skb, id);
    assert p[..IPV4_END] == old(skb.data[..IPV4_END]) && p[IPV4_END..] == old(skb.data[IPV4_END..]);
    var newTotLen := Be16Bytes(NewLen(tcp.totLen, MAX_TC_TP_LEN));
    HdrByteMasks(hdrLen);
    var newHdrLen := Or(hdrLen / 16 * 16, hdrLen % 16 + MAX_TC_TP_LEN / 4);
    skb.StoreBytes(TOT_LEN_OFF, newTotLen);
    skb.StoreBytes(ETH_HLEN, [newHdrLen]);
    ghost var base := skb.data[..];
    assert base[IP_CHECK_OFF] == p[IP_CHECK_OFF] && base[IP_CHECK_OFF + 1] == p[IP_CHECK_OFF + 1];
    FoldIntoChecksum(skb, tcp, id, hdrLen);
    Assembled(p, id, CheckAfter(Le16(p[IP_CHECK_OFF], p[IP_CHECK_OFF + 1]), tcp.totLen, hdrLen, id, 4));
    done := true;
  }

  /** The chain of incremental checksum updates, loop included. */
  method FoldIntoChecksum(skb: Skb, tcp: ProtocolInfo, id: TraceId, hdrLen: byte)
    requires IP_CHECK_OFF + 2 <= skb.data.Length && hdrLen % 16 == 5
    modifies skb.data
    ensures skb.data[..] ==
            Patch(old(skb.data[..]), IP_CHECK_OFF,
                  Le16Bytes(CheckAfter(Le16(old(skb.data[IP_CHECK_OFF]), old(skb.data[IP_CHECK_OFF + 1])),
                                       tcp.totLen, hdrLen, id, 4)))
  {
    hide Patch, NewLen, NewHdrByte, Le16Bytes, Be16, CsumReplace2, CsumReplace4, Le32;
    ghost var base := skb.data[..];
    ghost var check := Le16(base[IP_CHECK_OFF], base[IP_CHECK_OFF + 1]);
    var from, to := Be16Bytes(tcp.totLen), Be16Bytes(NewLen(tcp.totLen, MAX_TC_TP_LEN));
    skb.L3CsumReplace2(IP_CHECK_OFF, Le16(from[0], from[1]), Le16(to[0], to[1]));
    ghost var c1 := CsumReplace2(check, Le16(from[0], from[1]), Le16(to[0], to[1]));
    CheckStored(skb.data[..], base, c1);
    skb.L3CsumReplace2(IP_CHECK_OFF, hdrLen, NewHdrByte(hdrLen));
    ghost var c2 := CsumReplace2(c1, hdrLen, NewHdrByte(hdrLen));
    CheckReplaced(skb.data[..], base, c1, c2);
    skb.L3CsumReplace2(IP_CHECK_OFF, 0, TC_TP_ID);
    CheckReplaced(skb.data[..], base, c2, CsumReplace2(c2, 0, TC_TP_ID));
    var i := 0;
    while i < 4
      invariant 0 <= i <= 4
      invariant skb.data == old(skb.data)
      invariant skb.data[..] == Patch(base, IP_CHECK_OFF, Le16Bytes(CheckAfter(check, tcp.totLen, hdrLen, id, i)))
      invariant Le16(skb.data[IP_CHECK_OFF], skb.data[IP_CHECK_OFF + 1]) == CheckAfter(check, tcp.totLen, hdrLen, id, i)
    {
      skb.L3CsumReplace4(IP_CHECK_OFF, 0, Le32(id[4 * i..4 * i + 4]));
      CheckReplaced(skb.data[..], base, CheckAfter(check, tcp.totLen, hdrLen, id, i),
                    CheckAfter(check, tcp.totLen, hdrLen, id, i + 1));
      i := i + 1;
    }
  }

  lemma CheckStored(q: seq<byte>, base: seq<byte>, check: u16)
    requires IP_CHECK_OFF + 2 <= |base| && q == Patch(base, IP_CHECK_OFF, Le16Bytes(check))
    ensures Le16(q[IP_CHECK_OFF], q[IP_CHECK_OFF + 1]) == check
  {
    hide Patch, Le16Bytes;
    assert q[IP_CHECK_OFF..IP_CHECK_OFF + 2] == Le16Bytes(check);
    var w := q[IP_CHECK_OFF..IP_CHECK_OFF + 2];
    assert q[IP_CHECK_OFF] == w[0] && q[IP_CHECK_OFF + 1] == w[1];
  }

  lemma CheckReplaced(q: seq<byte>, base: seq<byte>, check: u16, check': u16)
    requires IP_CHECK_OFF + 2 <= |base|
    requires q == Patch(Patch(base, IP_CHECK_OFF, Le16Bytes(check)), IP_CHECK_OFF, Le16Bytes(check'))
    ensures q == Patch(base, IP_CHECK_OFF, Le16Bytes(check')) && Le16(q[IP_CHECK_OFF], q[IP_CHECK_OFF + 1]) == check'
  {
    hide Patch, Le16Bytes, Le16;
    PatchTwice(base, IP_CHECK_OFF, Le16Bytes(check), Le16Bytes(check'));
    CheckStored(q, base, check');
  }

  // ---------------------------------------------------------------- IPv6

  const NEXT_HDR_OFF := ETH_HLEN + 6
  const PAYLOAD_LEN_OFF := ETH_HLEN + 4

  /** Next header, length in 8-byte units past the first, an unknown option of 20 bytes. */
  function Ipv6Options(l4: byte, id: TraceId): (o: seq<byte>)
    ensures |o| == MAX_IPV6_OPTS_LEN
  {
    [l4, 2] + Le16Bytes(0x1409) + id + [0, 0, 0, 0]
  }

  function Ipv6Packet(p: seq<byte>, l4: byte, id: TraceId): (q: seq<byte>)
    requires IPV6_END <= |p|
    ensures |q| == |p| + MAX_IPV6_OPTS_LEN
  {
    var len := Be16(p[PAYLOAD_LEN_OFF], p[PAYLOAD_LEN_OFF + 1]);
    var h := Patch(Patch(p[..IPV6_END], NEXT_HDR_OFF, [IP_V6_DEST_OPTS]),
                   PAYLOAD_LEN_OFF, Be16Bytes(NewLen(len, MAX_IPV6_OPTS_LEN)));
    h + Ipv6Options(l4, id) + p[IPV6_END..]
  }

  /** Inserts a Destination Options header; the room may be refused. */
  method InjectTcIpOptionsIpv6(skb: Skb, tcp: ProtocolInfo, id: TraceId, room: bool) returns (done: bool)
    requires IPV6_END <= skb.data.Length && tcp.ipLen == IPV6_END
    requires tcp.totLen == Be16(skb.data[PAYLOAD_LEN_OFF], skb.data[PAYLOAD_LEN_OFF + 1])
    modifies skb, skb.data
    ensures done == room
    ensures !done ==> skb.data == old(skb.data) && skb.data[..] == old(skb.data[..])
    ensures done ==> fresh(skb.data) && skb.data[..] == Ipv6Packet(old(skb.data[..]), tcp.l4Proto, id)
  {
    hide Patch, NewLen, Be16;
    if !room {
      return false;
    }
    ghost var p := skb.data[..];
    skb.AdjustRoom(IPV6_END, MAX_IPV6_OPTS_LEN);
    ghost var gap: seq<byte> := seq(MAX_IPV6_OPTS_LEN, _ => 0);
    assert skb.data[..] == p[..IPV6_END] + gap + p[IPV6_END..];
    skb.StoreBytes(NEXT_HDR_OFF, [IP_V6_DEST_OPTS]);
    var start := tcp.ipLen;
    skb.StoreBytes(start, [tcp.l4Proto]);
    var len := Be16Bytes(NewLen(tcp.totLen, MAX_IPV6_OPTS_LEN));
    skb.StoreBytes(PAYLOAD_LEN_OFF, len);
    skb.StoreBytes(start + 1, [(MAX_IPV6_OPTS_LEN - 8) / 8]);
    skb.StoreBytes(start + 2, Le16Bytes(0x1409));
    skb.StoreBytes(start + 4, id);
    Ipv6Assembled(p, gap, tcp.l4Proto, len, id);
    done := true;
  }

  /** The stores of the IPv6 writer, in its order, amount to the packet. */
  lemma Ipv6Assembled(p: seq<byte>, gap: seq<byte>, l4: byte, len: seq<byte>, id: TraceId)
    requires IPV6_END <= |p| && gap == seq(MAX_IPV6_OPTS_LEN, _ => 0)
    requires len == Be16Bytes(NewLen(Be16(p[PAYLOAD_LEN_OFF], p[PAYLOAD_LEN_OFF + 1]), MAX_IPV6_OPTS_LEN))
    ensures var q1 := Patch(p[..IPV6_END] + gap + p[IPV6_END..], NEXT_HDR_OFF, [IP_V6_DEST_OPTS]);
            var q3 := Patch(Patch(q1, IPV6_END, [l4]), PAYLOAD_LEN_OFF, len);
            var q4 := Patch(q3, IPV6_END + 1, [2]);
            Patch(Patch(q4, IPV6_END + 2, Le16Bytes(0x1409)), IPV6_END + 4, id) == Ipv6Packet(p, l4, id)
  {
    hide Patch, NewLen, Be16, Be16Bytes;
    var h, tail := p[..IPV6_END], p[IPV6_END..];
    Ipv6HeadStored(h, gap, tail, l4, len);
    Ipv6GapStored(Patch(Patch(h, NEXT_HDR_OFF, [IP_V6_DEST_OPTS]), PAYLOAD_LEN_OFF, len),
                  Patch(gap, 0, [l4]), tail, id);
    GapFilled(gap, l4, id);
  }

  lemma Ipv6HeadStored(h: seq<byte>, gap: seq<byte>, tail: seq<byte>, l4: byte, len: seq<byte>)
    requires |h| == IPV6_END && |gap| == MAX_IPV6_OPTS_LEN && |len| == 2
    ensures Patch(Patch(Patch(h + gap + tail, NEXT_HDR_OFF, [IP_V6_DEST_OPTS]), IPV6_END, [l4]),
                  PAYLOAD_LEN_OFF, len) ==
            Patch(Patch(h, NEXT_HDR_OFF, [IP_V6_DEST_OPTS]), PAYLOAD_LEN_OFF, len) + Patch(gap, 0, [l4]) + tail
  {
    hide Patch;
    PatchFirst(h, gap, tail, NEXT_HDR_OFF, [IP_V6_DEST_OPTS]);
    var h1 := Patch(h, NEXT_HDR_OFF, [IP_V6_DEST_OPTS]);
    PatchInside(h1, gap, tail, 0, [l4]);
    PatchFirst(h1, Patch(gap, 0, [l4]), tail, PAYLOAD_LEN_OFF, len);
  }

  lemma Ipv6GapStored(h: seq<byte>, gap: seq<byte>, tail: seq<byte>, id: TraceId)
    requires |h| == IPV6_END && |gap| == MAX_IPV6_OPTS_LEN
    ensures Patch(Patch(Patch(h + gap + tail, IPV6_END + 1, [2]), IPV6_END + 2, Le16Bytes(0x1409)), IPV6_END + 4, id) ==
            h + Patch(Patch(Patch(gap, 1, [2]), 2, Le16Bytes(0x1409)), 4, id) + tail
  {
    hide Patch, Le16Bytes;
    PatchInside(h, gap, tail, 1, [2]);
    var g := Patch(gap, 1, [2]);
    PatchInside(h, g, tail, 2, Le16Bytes(0x1409));
    PatchInside(h, Patch(g, 2, Le16Bytes(0x1409)), tail, 4, id);
  }

  lemma GapFilled(gap: seq<byte>, l4: byte, id: TraceId)
    requires gap == seq(MAX_IPV6_OPTS_LEN, _ => 0)
    ensures Patch(Patch(Patch(Patch(gap, 0, [l4]), 1, [2]), 2, Le16Bytes(0x1409)), 4, id) == Ipv6Options(l4, id)
  {
  }

  // ---------------------------------------------------------------- reading back

  /** The trace id a received packet carries, if it carries one. */
  function Carried(p: seq<byte>, tcp: ProtocolInfo): Option<TraceId> {
    if tcp.hProto == ETH_P_IP && tcp.ipLen == MIN_IP_LEN + MAX_TC_TP_LEN then
      if Load(p, IPV4_END, 2) == Le16Bytes(TC_TP_ID) then Some(Load(p, IPV4_END + 2, 16)) else None
    else if tcp.hProto == ETH_P_IPV6 && tcp.l4Proto == IP_V6_DEST_OPTS then
      Some(Load(p, tcp.ipLen + 4, 16))
    else None
  }

  /** What the parser says of a packet that went through the IPv4 writer: the same connection,
      numbers and flags, a longer header, and the trace id back. */
  lemma Ipv4RoundTrip(p: seq<byte>, id: TraceId)
    requires ReadSkBuff(p).Some? && ReadSkBuff(p).value.tcp.hProto == ETH_P_IP
    requires ReadSkBuff(p).value.tcp.ipLen == MIN_IP_LEN
    ensures IPV4_END <= |p| && p[ETH_HLEN] % 16 == 5
    ensures var r, q := ReadSkBuff(p).value, Ipv4Packet(p, id);
            var tcp := r.tcp.(hdrLen := r.tcp.hdrLen + MAX_TC_TP_LEN,
                              totLen := NewLen(r.tcp.totLen, MAX_TC_TP_LEN),
                              ipLen := MIN_IP_LEN + MAX_TC_TP_LEN);
            ReadSkBuff(q) == Some(Parsed(tcp, r.conn)) && Carried(q, tcp) == Some(id)
  {
    hide CheckAfter, Be32, NewLen, Ipv4Header, Le16Bytes;
    var h, q := p[ETH_HLEN..IPV4_END], Ipv4Packet(p, id);
    var h' := Ipv4Header(h, id);
    assert q[..ETH_HLEN] == p[..ETH_HLEN] && q[ETH_HLEN..54] == h' && q[54..] == p[IPV4_END..];
    Ipv4HeaderFields(h, id);
    assert q[ETH_HLEN] == h'[0] && q[ETH_HLEN + 2] == h'[2] && q[ETH_HLEN + 3] == h'[3] && q[ETH_HLEN + 9] == h'[9];
    SliceOfSlice(q, ETH_HLEN, 54, 12, 16);
    SliceOfSlice(q, ETH_HLEN, 54, 16, 20);
    SliceOfSlice(q, ETH_HLEN, 54, 20, 22);
    SliceOfSlice(q, ETH_HLEN, 54, 22, 38);
    SliceOfSlice(p, ETH_HLEN, IPV4_END, 12, 16);
    SliceOfSlice(p, ETH_HLEN, IPV4_END, 16, 20);
    assert q[12] == p[12] && q[13] == p[13];
    assert ReadIpv4(p).Some? && ReadIpv4(q).Some?;
  }

  lemma Ipv4HeaderFields(h: seq<byte>, id: TraceId)
    requires |h| == MIN_IP_LEN && h[0] % 16 == 5
    ensures var r := Ipv4Header(h, id);
            && r[0] % 16 == 10 && r[9] == h[9] && r[12..16] == h[12..16] && r[16..20] == h[16..20]
            && Be16(r[2], r[3]) == NewLen(Be16(h[2], h[3]), MAX_TC_TP_LEN)
            && r[20..22] == Le16Bytes(TC_TP_ID) && r[22..38] == id
  {
    hide CheckAfter, NewLen, Be16;
  }

  /** The same for the IPv6 writer: the Destination Options header is stepped over. */
  lemma Ipv6RoundTrip(p: seq<byte>, id: TraceId)
    requires ReadSkBuff(p).Some? && ReadSkBuff(p).value.tcp.hProto == ETH_P_IPV6
    requires ReadSkBuff(p).value.tcp.l4Proto == IPPROTO_TCP
    ensures IPV6_END <= |p| && ReadSkBuff(p).value.tcp.ipLen == IPV6_END
    ensures var r, q := ReadSkBuff(p).value, Ipv6Packet(p, IPPROTO_TCP, id);
            var tcp := r.tcp.(hdrLen := r.tcp.hdrLen + MAX_IPV6_OPTS_LEN,
                              totLen := NewLen(r.tcp.totLen, MAX_IPV6_OPTS_LEN),
                              l4Proto := IP_V6_DEST_OPTS);
            ReadSkBuff(q) == Some(Parsed(tcp, r.conn)) && Carried(q, tcp) == Some(id)
  {
    hide Be32, NewLen;
    var q, o := Ipv6Packet(p, IPPROTO_TCP, id), Ipv6Options(IPPROTO_TCP, id);
    assert q[IPV6_END..78] == o && q[78..] == p[IPV6_END..];
    Ipv6HeaderFields(p, id);
    assert q[IPV6_END] == o[0] && q[IPV6_END + 1] == o[1];
    SliceOfSlice(q, IPV6_END, 78, 4, 20);
    assert o[4..20] == id;
    assert ReadIpv6(p).Some? && ReadIpv6(q).Some?;
  }

  lemma Ipv6HeaderFields(p: seq<byte>, id: TraceId)
    requires IPV6_END <= |p|
    ensures var q := Ipv6Packet(p, IPPROTO_TCP, id);
            && q[12] == p[12] && q[13] == p[13] && q[NEXT_HDR_OFF] == IP_V6_DEST_OPTS
            && q[ETH_HLEN + 8..ETH_HLEN + 24] == p[ETH_HLEN + 8..ETH_HLEN + 24]
            && q[ETH_HLEN + 24..ETH_HLEN + 40] == p[ETH_HLEN + 24..ETH_HLEN + 40]
            && Be16(q[PAYLOAD_LEN_OFF], q[PAYLOAD_LEN_OFF + 1]) ==
               NewLen(Be16(p[PAYLOAD_LEN_OFF], p[PAYLOAD_LEN_OFF + 1]), MAX_IPV6_OPTS_LEN)
  {
    hide NewLen, Be16;
  }
}
