/** The egress and ingress hooks of the TC trace injector and the per-port context they share. */
module TcHttp {
  import opened Bytes
  import opened Options
  import opened SkBuff
  import opened ConnectionInfo
  import opened Traceparent
  import opened TcChecksum
  import opened TcInject

  datatype ConnState = ESTABLISHED | FIN_WAIT_1 | FIN_WAIT_2 | CLOSING | CLOSE_WAIT | LAST_ACK

  datatype HttpCtx = HttpCtx(xtraBytes: u32, state: ConnState)

  datatype Flags = Flags(fin: bool, syn: bool, rst: bool, ack: bool)

  // ---------------------------------------------------------------- header fields

  const SEQ_OFF := TCP_OFF + 4
  const ACK_OFF := TCP_OFF + 8

  predicate HasTcpHeader(p: seq<byte>) {
    TCP_OFF + TCP_HLEN <= |p|
  }

  function SrcPort(p: seq<byte>): u16
    requires HasTcpHeader(p)
  {
    Be16(p[TCP_OFF], p[TCP_OFF + 1])
  }

  function DstPort(p: seq<byte>): u16
    requires HasTcpHeader(p)
  {
    Be16(p[TCP_OFF + 2], p[TCP_OFF + 3])
  }

  function SeqOf(p: seq<byte>): u32
    requires HasTcpHeader(p)
  {
    Be32(p[SEQ_OFF..SEQ_OFF + 4])
  }

  function AckOf(p: seq<byte>): u32
    requires HasTcpHeader(p)
  {
    Be32(p[ACK_OFF..ACK_OFF + 4])
  }

  function FlagsOf(p: seq<byte>): Flags
    requires HasTcpHeader(p)
  {
    var f := p[TCP_OFF + 13];
    Flags(f % 2 == 1, f / 2 % 2 == 1, f / 4 % 2 == 1, f / 16 % 2 == 1)
  }

  /** One of the seven request lines, each method followed by a space and a slash. */
  predicate IsHttpRequestBuf(b: seq<byte>)
    requires |b| == 9
  {
    || b[..5] == [71, 69, 84, 32, 47]                      // GET
    || b[..6] == [80, 79, 83, 84, 32, 47]                  // POST
    || b[..5] == [80, 85, 84, 32, 47]                      // PUT
    || b[..7] == [80, 65, 84, 67, 72, 32, 47]              // PATCH
    || b[..8] == [68, 69, 76, 69, 84, 69, 32, 47]          // DELETE
    || b[..6] == [72, 69, 65, 68, 32, 47]                  // HEAD
    || b == [79, 80, 84, 73, 79, 78, 83, 32, 47]           // OPTIONS
  }

  predicate IsHttpRequest(p: seq<byte>) {
    match TcpPayload(p)
    case None => false
    case Some(payload) => payload + 9 <= |p| && IsHttpRequestBuf(p[payload..payload + 9])
  }

  // ---------------------------------------------------------------- connection state

  /** Our own FIN starts a shutdown or answers the peer's. */
  function NextOut(s: ConnState, f: Flags): ConnState {
    if f.fin && s == ESTABLISHED then FIN_WAIT_1
    else if f.fin && s == CLOSE_WAIT then LAST_ACK
    else s
  }

  /** None: the connection is over and its context goes. */
  function NextIn(s: ConnState, f: Flags): Option<ConnState> {
    if f.rst then None
    else if s == FIN_WAIT_1 then
      if f.fin && f.ack then None
      else if f.fin then Some(CLOSING)
      else if f.ack then Some(FIN_WAIT_2)
      else Some(s)
    else if (s == CLOSING && f.ack) || (s == LAST_ACK && f.ack) || (s == FIN_WAIT_2 && f.fin) then None
    else if f.fin && s == ESTABLISHED then Some(CLOSE_WAIT)
    else Some(s)
  }

  // ---------------------------------------------------------------- the context map

  type Contexts = map<u32, HttpCtx>

  /** The shift applied to an outgoing sequence number. */
  function Shift(m: Contexts, key: u32, f: Flags): u32 {
    if key in m && !f.syn && !f.rst then m[key].xtraBytes else 0
  }

  /** The map once the header has been looked at: reset by SYN, dropped by RST. */
  function AfterEgressHeader(m: Contexts, key: u32, f: Flags): Contexts {
    if key !in m then m
    else if f.syn then m[key := HttpCtx(0, ESTABLISHED)]
    else if f.rst then m - {key}
    else m[key := m[key].(state := NextOut(m[key].state, f))]
  }

  /** The map once a request has grown; a new entry may not find room. */
  function AfterRewrite(m: Contexts, key: u32, extra: u32, inserted: bool): Contexts {
    var total := (extra + EXTEND_SIZE) % 0x1_0000_0000;
    if key in m then m[key := m[key].(xtraBytes := total)]
    else if inserted then m[key := HttpCtx(total, ESTABLISHED)]
    else m
  }

  function AfterEgress(m: Contexts, key: u32, f: Flags, rewritten: bool, inserted: bool): Contexts {
    var m' := AfterEgressHeader(m, key, f);
    if rewritten then AfterRewrite(m', key, Shift(m, key, f), inserted) else m'
  }

  /** A reset on a tracked port is dispatched at once. */
  predicate Aborts(m: Contexts, key: u32, f: Flags) {
    key in m && !f.syn && f.rst
  }

  function AfterIngress(m: Contexts, key: u32, f: Flags): Contexts {
    if key !in m then m
    else
      match NextIn(m[key].state, f)
      case None => m - {key}
      case Some(s) => m[key := m[key].(state := s)]
  }

  function Unshift(m: Contexts, key: u32): u32 {
    if key in m then m[key].xtraBytes else 0
  }

  /** The outgoing packet before any rewrite: only the sequence number moves. */
  function Shifted(p: seq<byte>, shift: u32): (q: seq<byte>)
    requires HasTcpHeader(p)
    ensures |q| == |p|
  {
    if shift == 0 then p else Patch(p, SEQ_OFF, Be32Bytes((SeqOf(p) + shift) % 0x1_0000_0000))
  }

  /** Shifting moves the sequence number and nothing the hook reads afterwards. */
  lemma ShiftedFields(p: seq<byte>, shift: u32)
    requires HasTcpHeader(p)
    ensures SeqOf(Shifted(p, shift)) == (SeqOf(p) + shift) % 0x1_0000_0000
    ensures AckOf(Shifted(p, shift)) == AckOf(p) && FlagsOf(Shifted(p, shift)) == FlagsOf(p)
    ensures SrcPort(Shifted(p, shift)) == SrcPort(p) && DstPort(Shifted(p, shift)) == DstPort(p)
    ensures TcpPayload(Shifted(p, shift)) == TcpPayload(p)
  {
    hide Be32, Be32Bytes, Patch;
    var q := Shifted(p, shift);
    if shift != 0 {
      assert q[ACK_OFF..ACK_OFF + 4] == p[ACK_OFF..ACK_OFF + 4];
    }
  }

  /** Is the segment a request to rewrite, and is there room to do it? */
  predicate Rewrites(m: Contexts, outgoing: map<EgressKey, TpInfo>, p: seq<byte>, growth: Growth)
    requires HasTcpHeader(p)
  {
    var key: u32 := SrcPort(p);
    var q := Shifted(p, Shift(m, key, FlagsOf(p)));
    && !Aborts(m, key, FlagsOf(p))
    && EgressKey(SrcPort(p), DstPort(p)) in outgoing
    && IsHttpRequest(q)
    && HeaderSlot(q).Some?
    && growth.Granted?
  }

  /** What the egress hook makes of the packet `p` and the map `m`. */
  ghost predicate EgressLeaves(m: Contexts, outgoing: map<EgressKey, TpInfo>, growth: Growth, inserted: bool,
                               p: seq<byte>, q: seq<byte>, m': Contexts, rewritten: bool)
  {
    if !HasTcpHeader(p) then !rewritten && q == p && m' == m
    else
      var key: u32, f := SrcPort(p), FlagsOf(p);
      var shifted := Shifted(p, Shift(m, key, f));
      var slot := HeaderSlot(shifted);
      && rewritten == Rewrites(m, outgoing, p, growth)
      && m' == AfterEgress(m, key, f, rewritten, inserted)
      && (!rewritten ==> q == shifted)
      && (rewritten ==>
            var tp := outgoing[EgressKey(SrcPort(p), DstPort(p))];
            && Extends(shifted, growth.filler, slot.value, tp, q)
            && (|p| - slot.value <= MAX_IP_PACKET_SIZE ==> Injected(shifted, q, slot.value, tp)))
  }

  /** What the ingress hook makes of them. */
  ghost predicate IngressLeaves(m: Contexts, p: seq<byte>, q: seq<byte>, m': Contexts) {
    if !HasTcpHeader(p) || DstPort(p) as u32 !in m then q == p && m' == m
    else
      var key: u32 := DstPort(p);
      && m' == AfterIngress(m, key, FlagsOf(p))
      && q == Patch(p, ACK_OFF, Be32Bytes((AckOf(p) - Unshift(m, key)) % 0x1_0000_0000))
  }

  class Hooks {
    var contexts: Contexts

    constructor ()
      ensures contexts == map[]
    {
      contexts := map[];
    }

    /** Rewrites the sequence number in place. */
    method UpdateTcpSeq(skb: Skb, extraBytes: u32)
      requires HasTcpHeader(skb.data[..])
      modifies skb.data
      ensures skb.data[..] == Shifted(old(skb.data[..]), extraBytes)
    {
      hide Be32, Be32Bytes;
      if extraBytes == 0 {
        return;
      }
      var a := skb.data;
      ghost var p := a[..];
      assert p[SEQ_OFF..SEQ_OFF + 4] == a[SEQ_OFF..SEQ_OFF + 4];
      var bytes := Be32Bytes((Be32(a[SEQ_OFF..SEQ_OFF + 4]) + extraBytes) % 0x1_0000_0000);
      a[SEQ_OFF], a[SEQ_OFF + 1], a[SEQ_OFF + 2], a[SEQ_OFF + 3] := bytes[0], bytes[1], bytes[2], bytes[3];
      assert a[..] == Patch(p, SEQ_OFF, bytes);
    }

    /** The tail program: rewrite the packet, then account for the growth. A refused growth also
        stands for a tail call that did not happen. */
    method ExtendSkb(skb: Skb, tp: TpInfo, extraBytes: u32, key: u32, growth: Growth, inserted: bool)
      returns (rewritten: bool)
      modifies this, skb, skb.data
      ensures rewritten <==> HeaderSlot(old(skb.data[..])).Some? && growth.Granted?
      ensures !rewritten ==> skb.data == old(skb.data) && skb.data[..] == old(skb.data[..])
      ensures rewritten ==> fresh(skb.data)
      ensures rewritten ==>
                Extends(old(skb.data[..]), growth.filler, HeaderSlot(old(skb.data[..])).value, tp, skb.data[..])
      ensures var slot := HeaderSlot(old(skb.data[..]));
              rewritten && |old(skb.data[..])| - slot.value <= MAX_IP_PACKET_SIZE ==>
                Injected(old(skb.data[..]), skb.data[..], slot.value, tp)
      ensures contexts == if rewritten then AfterRewrite(old(contexts), key, extraBytes, inserted) else old(contexts)
    {
      hide HeaderSlot, Injected, Extends;
      rewritten := InjectHeader(skb, tp, growth);
      if !rewritten {
        return;
      }
      var total: u32 := (extraBytes + EXTEND_SIZE) % 0x1_0000_0000;
      if key in contexts {
        contexts := contexts[key := contexts[key].(xtraBytes := total)];
      } else if inserted {
        contexts := contexts[key := HttpCtx(total, ESTABLISHED)];
      }
    }

    method TcHttpEgress(skb: Skb, outgoing: map<EgressKey, TpInfo>, growth: Growth, inserted: bool)
      returns (rewritten: bool)
      modifies this, skb, skb.data
      ensures EgressLeaves(old(contexts), outgoing, growth, inserted, old(skb.data[..]),
                           skb.data[..], contexts, rewritten)
    {
      hide HeaderSlot, Injected, Extends, IsHttpRequest, TcpPayload, Be32;
      rewritten := false;
      ghost var p := skb.data[..];
      if !HasTcpHeader(skb.data[..]) {
        return;
      }
      var srcPort, dstPort, f := SrcPort(skb.data[..]), DstPort(skb.data[..]), FlagsOf(skb.data[..]);
      var key: u32 := srcPort;
      var extraBytes: u32 := 0;
      if key in contexts {
        if f.syn {
          contexts := contexts[key := HttpCtx(0, ESTABLISHED)];
        } else if f.rst {
          contexts := contexts - {key};
          return;
        } else {
          extraBytes := contexts[key].xtraBytes;
          contexts := contexts[key := contexts[key].(state := NextOut(contexts[key].state, f))];
        }
      }
      UpdateTcpSeq(skb, extraBytes);
      var eKey := EgressKey(srcPort, dstPort);
      if eKey !in outgoing {
        return;
      }
      if !IsHttpRequest(skb.data[..]) {
        return;
      }
      rewritten := ExtendSkb(skb, outgoing[eKey], extraBytes, key, growth, inserted);
    }

    method TcHttpIngress(skb: Skb)
      modifies this, skb.data
      ensures IngressLeaves(old(contexts), old(skb.data[..]), skb.data[..], contexts)
    {
      hide Be32, Be32Bytes;
      ghost var p := skb.data[..];
      if !HasTcpHeader(skb.data[..]) {
        return;
      }
      var key: u32, f := DstPort(skb.data[..]), FlagsOf(skb.data[..]);
      if key !in contexts {
        return;
      }
      var a := skb.data;
      assert p[ACK_OFF..ACK_OFF + 4] == a[ACK_OFF..ACK_OFF + 4];
      var bytes := Be32Bytes((Be32(a[ACK_OFF..ACK_OFF + 4]) - contexts[key].xtraBytes) % 0x1_0000_0000);
      a[ACK_OFF], a[ACK_OFF + 1], a[ACK_OFF + 2], a[ACK_OFF + 3] := bytes[0], bytes[1], bytes[2], bytes[3];
      assert a[..] == Patch(p, ACK_OFF, bytes);
      match NextIn(contexts[key].state, f) {
        case None => contexts := contexts - {key};
        case Some(s) => contexts := contexts[key := contexts[key].(state := s)];
      }
    }
  }
}
