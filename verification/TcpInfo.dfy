/** The packet parser shared by the TC programs. */
module TcpInfo {
  import opened Bytes
  import opened Options
  import opened SkBuff
  import opened ConnectionInfo

  const ETH_P_IP := 0x0800
  const ETH_P_IPV6 := 0x86DD
  const IP_V6_DEST_OPTS := 60
  const TCPHDR_ACK := 0x10

  const IP4IP6_PREFIX: seq<byte> := [0, 0, 0, 0, 0, 0, 0, 0, 0, 0, 0xff, 0xff]

  /** `totLen` is kept in host order. */
  datatype ProtocolInfo = ProtocolInfo(
    hdrLen: u32, seqNo: u32, ackNo: u32, hProto: u16, totLen: u16, flags: byte, ipLen: byte, l4Proto: byte)

  datatype Parsed = Parsed(tcp: ProtocolInfo, conn: Conn)

  /** What the network layer says: where the TCP header is, or that there is none. */
  datatype Network = Network(tcpOff: nat, totLen: u16, ipLen: byte, l4Proto: byte, sAddr: seq<byte>, dAddr: seq<byte>)

  function ReadIpv4(p: seq<byte>): Option<Network> {
    var hdrLen := Load8(p, ETH_HLEN) % 16 * 4;
    if hdrLen < 20 then None
    else
      var proto := Load8(p, ETH_HLEN + 9);
      if proto != IPPROTO_TCP then None
      else Some(Network(ETH_HLEN + hdrLen, LoadBe16(p, ETH_HLEN + 2), hdrLen, proto,
                        IP4IP6_PREFIX + Load(p, ETH_HLEN + 12, 4), IP4IP6_PREFIX + Load(p, ETH_HLEN + 16, 4)))
  }

  /** A Destination Options header between IPv6 and TCP is stepped over. */
  function ReadIpv6(p: seq<byte>): Option<Network> {
    var ipLen := ETH_HLEN + 40;
    var first := Load8(p, ETH_HLEN + 6);
    var proto := if first == IP_V6_DEST_OPTS then Load8(p, ipLen) else first;
    if proto != IPPROTO_TCP then None
    else
      var skip := if first == IP_V6_DEST_OPTS then (Load8(p, ipLen + 1) + 1) * 8 else 0;
      Some(Network(ipLen + skip, LoadBe16(p, ETH_HLEN + 4), ipLen, first,
                   Load(p, ETH_HLEN + 8, 16), Load(p, ETH_HLEN + 24, 16)))
  }

  function ReadNetwork(p: seq<byte>): Option<Network> {
    var hProto := LoadBe16(p, 12);
    if hProto == ETH_P_IP then ReadIpv4(p)
    else if hProto == ETH_P_IPV6 then ReadIpv6(p)
    else None
  }

  /** The bytes from an offset on. */
  function From(p: seq<byte>, off: nat): seq<byte> {
    if off <= |p| then p[off..] else []
  }

  function DataOffset(t: seq<byte>): nat {
    Load8(t, 12) / 16 * 4
  }

  /** Ports, numbers and flags are read relative to the TCP header `t`. */
  function ReadSkBuff(p: seq<byte>): Option<Parsed> {
    match ReadNetwork(p)
    case None => None
    case Some(n) =>
      var t := From(p, n.tcpOff);
      var hdrLen := n.tcpOff + DataOffset(t);
      if hdrLen > |p| then None
      else Some(Parsed(
        ProtocolInfo(hdrLen, LoadBe32(t, 4), LoadBe32(t, 8), LoadBe16(p, 12), n.totLen, Load8(t, 13), n.ipLen,
                     n.l4Proto),
        Conn(n.sAddr, n.dAddr, LoadBe16(t, 0), LoadBe16(t, 2))))
  }

  predicate TcpAck(tcp: ProtocolInfo) {
    tcp.flags / TCPHDR_ACK % 2 == 1
  }
}
