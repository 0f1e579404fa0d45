/** The egress and ingress hooks that carry a trace id in the IP header and derive the span id
    from the TCP numbers, and what sender and receiver then agree on. */
module TcTracer {
  import opened Bytes
  import opened SkBuff
  import opened ConnectionInfo
  import opened Traceparent
  import opened TcpInfo
  import opened IpOptions

  datatype GoAddr = GoAddr(pid: u64, addr: u64)

  datatype TpInfoPid = TpInfoPid(tp: TpInfo, pid: u32, valid: bool)

  const NO_SPAN: SpanId := [0, 0, 0, 0, 0, 0, 0, 0]

  /** Sequence and acknowledgement numbers as host words. */
  function SpanFromTcp(tcp: ProtocolInfo): (s: SpanId)
    ensures |s| == 8
  {
    Le32Bytes(tcp.seqNo) + Le32Bytes(tcp.ackNo)
  }

  function KeyOf(c: Conn): EgressKey {
    EgressKey(Sorted(c).sPort, Sorted(c).dPort)
  }

  /** Which header form the writer picks, if any. */
  predicate TakesIpv4(tcp: ProtocolInfo) {
    tcp.hProto == ETH_P_IP && tcp.ipLen == MIN_IP_LEN
  }

  predicate TakesIpv6(tcp: ProtocolInfo) {
    tcp.hProto == ETH_P_IPV6 && tcp.l4Proto == IPPROTO_TCP
  }

  /** The packet as it leaves. */
  function Injected(p: seq<byte>, id: TraceId): seq<byte>
    requires ReadSkBuff(p).Some?
    requires TakesIpv4(ReadSkBuff(p).value.tcp) || TakesIpv6(ReadSkBuff(p).value.tcp)
  {
    var tcp := ReadSkBuff(p).value.tcp;
    if TakesIpv4(tcp) then Ipv4RoundTrip(p, id); Ipv4Packet(p, id)
    else Ipv6RoundTrip(p, id); Ipv6Packet(p, tcp.l4Proto, id)
  }

  /** The record a receiver makes. */
  function Received(id: TraceId, tcp: ProtocolInfo): TpInfoPid {
    TpInfoPid(TpInfo(id, SpanFromTcp(tcp), NO_SPAN, 0, 0), 0, true)
  }

  /** The incoming-trace map after a packet has been looked at; an existing entry is kept. */
  function AfterIngress(m: map<Conn, TpInfoPid>, p: seq<byte>): map<Conn, TpInfoPid> {
    match ReadSkBuff(p)
    case None => m
    case Some(r) =>
      if !TcpAck(r.tcp) then m
      else
        match Carried(p, r.tcp)
        case None => m
        case Some(id) => if Sorted(r.conn) in m then m else m[Sorted(r.conn) := Received(id, r.tcp)]
  }

  class Tracer {
    var incoming: map<Conn, TpInfoPid>
    var outgoing: map<EgressKey, TpInfoPid>
    var goHttp: map<EgressKey, GoAddr>
    var clientRequests: map<GoAddr, TpInfo>

    constructor ()
      ensures incoming == map[] && outgoing == map[] && goHttp == map[] && clientRequests == map[]
    {
      incoming, outgoing, goHttp, clientRequests := map[], map[], map[], map[];
    }

    method AppIngress(skb: Skb)
      modifies this`incoming
      ensures incoming == AfterIngress(old(incoming), skb.data[..])
    {
      hide ReadSkBuff, Carried;
      var parsed := ReadSkBuff(skb.data[..]);
      if parsed.None? {
        return;
      }
      var tcp, conn := parsed.value.tcp, parsed.value.conn;
      if TcpAck(tcp) {
        var carried := Carried(skb.data[..], tcp);
        var key := Sorted(conn);
        if carried.Some? && key !in incoming {
          incoming := incoming[key := Received(carried.value, tcp)];
        }
      }
    }

    /** The Go client invocation behind this connection takes the span id the peer will derive. */
    method UpdateOutgoingRequestSpanId(tcp: ProtocolInfo, key: EgressKey)
      modifies this`clientRequests
      ensures clientRequests ==
              if key in goHttp && goHttp[key] in old(clientRequests)
              then var g := goHttp[key];
                            old(clientRequests)[g := old(clientRequests)[g].(spanId := SpanFromTcp(tcp))]
              else old(clientRequests)
    {
      hide SpanFromTcp;
      if key in goHttp {
        var g := goHttp[key];
        if g in clientRequests {
          clientRequests := clientRequests[g := clientRequests[g].(spanId := SpanFromTcp(tcp))];
        }
      }
    }

    method AppEgress(skb: Skb, room: bool) returns (injected: bool)
      modifies this`outgoing, this`clientRequests, skb, skb.data
      ensures var p := old(skb.data[..]);
              var r := ReadSkBuff(p);
              var taken := r.Some? && KeyOf(r.value.conn) in old(outgoing) &&
                           (TakesIpv4(r.value.tcp) || TakesIpv6(r.value.tcp));
              && (injected <==> taken && room)
              && (!injected ==> skb.data[..] == p && clientRequests == old(clientRequests))
              && (taken ==> outgoing == old(outgoing) - {KeyOf(r.value.conn)})
              && (!taken ==> outgoing == old(outgoing))
              && (injected ==>
                    var key := KeyOf(r.value.conn);
                    && skb.data[..] == Injected(p, old(outgoing)[key].tp.traceId)
                    && clientRequests ==
                       if key in goHttp && goHttp[key] in old(clientRequests)
                       then var g := goHttp[key];
                            old(clientRequests)[g := old(clientRequests)[g].(spanId := SpanFromTcp(r.value.tcp))]
                       else old(clientRequests))
    {
      hide ReadSkBuff, Ipv4Packet, Ipv6Packet, SpanFromTcp, Be16;
      injected := false;
      ghost var p := skb.data[..];
      var parsed := ReadSkBuff(skb.data[..]);
      if parsed.None? {
        return;
      }
      var tcp, conn := parsed.value.tcp, Sorted(parsed.value.conn);
      var key := EgressKey(conn.sPort, conn.dPort);
      if key !in outgoing {
        return;
      }
      var id := outgoing[key].tp.traceId;
      if tcp.hProto == ETH_P_IP && tcp.ipLen == MIN_IP_LEN {
        Ipv4RoundTrip(p, id);
        LengthsRead(p);
        injected := InjectTcIpOptionsIpv4(skb, tcp, id, room);
        if injected {
          UpdateOutgoingRequestSpanId(tcp, key);
        }
        outgoing := outgoing - {key};
      } else if tcp.hProto == ETH_P_IPV6 && tcp.l4Proto == IPPROTO_TCP {
        Ipv6RoundTrip(p, id);
        LengthsRead(p);
        injected := InjectTcIpOptionsIpv6(skb, tcp, id, room);
        if injected {
          UpdateOutgoingRequestSpanId(tcp, key);
        }
        outgoing := outgoing - {key};
      }
    }
  }

  /** The total length the parser reports is the one in the packet. */
  lemma LengthsRead(p: seq<byte>)
    requires ReadSkBuff(p).Some?
    ensures var tcp := ReadSkBuff(p).value.tcp;
            && (tcp.hProto == ETH_P_IP && ETH_HLEN + 4 <= |p| ==> tcp.totLen == Be16(p[ETH_HLEN + 2], p[ETH_HLEN + 3]))
            && (tcp.hProto == ETH_P_IPV6 && ETH_HLEN + 6 <= |p| ==>
                  tcp.totLen == Be16(p[ETH_HLEN + 4], p[ETH_HLEN + 5]))
  {
    hide Be32;
  }

  /** Sender and receiver agree. A packet with ACK set that left through the writer, received
      where nothing was recorded for its connection, is recorded with the sender's trace id and
      with the very span id the sender gave its Go client invocation; and the receiver files it
      under the key the sender used. */
  lemma BothEndsAgree(p: seq<byte>, id: TraceId, m: map<Conn, TpInfoPid>)
    requires ReadSkBuff(p).Some?
    requires TakesIpv4(ReadSkBuff(p).value.tcp) || TakesIpv6(ReadSkBuff(p).value.tcp)
    requires TcpAck(ReadSkBuff(p).value.tcp) && Sorted(ReadSkBuff(p).value.conn) !in m
    ensures var sent := ReadSkBuff(p).value;
            var key := Sorted(sent.conn);
            var m' := AfterIngress(m, Injected(p, id));
            && m'.Keys == m.Keys + {key}
            && m'[key].tp.traceId == id
            && m'[key].tp.spanId == SpanFromTcp(sent.tcp)
            && EgressKey(key.sPort, key.dPort) == KeyOf(sent.conn)
  {
    hide ReadSkBuff, Carried, Ipv4Packet, Ipv6Packet, Le32Bytes;
    if TakesIpv4(ReadSkBuff(p).value.tcp) {
      Ipv4RoundTrip(p, id);
    } else {
      Ipv6RoundTrip(p, id);
    }
  }
}
