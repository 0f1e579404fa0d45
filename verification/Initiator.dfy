/** Who opened a connection: a key that both directions share, and the endpoint named on every
    packet between the handshake and the close. */
module Initiator {
  import opened Bytes

  /** An address as the four host words the comparison reads. */
  type Words = w: seq<u32> | |w| == 4 witness [0, 0, 0, 0]

  datatype Flow = Flow(srcIp: Words, dstIp: Words, srcPort: u16, dstPort: u16)

  datatype Key = Key(lowIp: Words, highIp: Words, lowPort: u16, highPort: u16)

  datatype Endpoint = Endpoint(ip: Words, port: u16)

  datatype Index = INITIATOR_LOW | INITIATOR_HIGH

  datatype Side = INITIATOR_SRC | INITIATOR_DST | INITIATOR_UNKNOWN

  const FIN_FLAG := 0x01
  const SYN_FLAG := 0x02
  const RST_FLAG := 0x04
  const ACK_FLAG := 0x10
  const SYN_ACK_FLAG := 0x100
  const FIN_ACK_FLAG := 0x200
  const RST_ACK_FLAG := 0x400

  predicate Has(flags: nat, bit: nat)
    requires bit > 0
  {
    flags / bit % 2 == 1
  }

  function Reverse(f: Flow): Flow {
    Flow(f.dstIp, f.srcIp, f.dstPort, f.srcPort)
  }

  function Src(f: Flow): Endpoint {
    Endpoint(f.srcIp, f.srcPort)
  }

  function Dst(f: Flow): Endpoint {
    Endpoint(f.dstIp, f.dstPort)
  }

  // ---------------------------------------------------------------- the key

  /** The unsigned difference, read as signed. */
  function Diff(a: u32, b: u32): int {
    var d := (a - b) % 0x1_0000_0000;
    if d < 0x8000_0000 then d else d - 0x1_0000_0000
  }

  /** The first word in which two addresses differ. */
  function FirstDifference(a: Words, b: Words, i: nat): (r: nat)
    requires i <= 4
    ensures i <= r <= 4
    ensures forall j :: i <= j < r ==> a[j] == b[j]
    ensures r < 4 ==> a[r] != b[r]
    decreases 4 - i
  {
    if i == 4 || a[i] != b[i] then i else FirstDifference(a, b, i + 1)
  }

  /** The sign of the first word that differs. */
  function Compare(f: Flow): int {
    var i := FirstDifference(f.srcIp, f.dstIp, 0);
    if i == 4 then 0 else Diff(f.srcIp[i], f.dstIp[i])
  }

  method CompareIpv6(f: Flow) returns (cmp: int)
    ensures cmp == Compare(f)
  {
    hide Diff;
    var i := 0;
    while i < 4
      invariant 0 <= i <= 4
      invariant FirstDifference(f.srcIp, f.dstIp, 0) == FirstDifference(f.srcIp, f.dstIp, i)
    {
      var diff := Diff(f.srcIp[i], f.dstIp[i]);
      DiffZero(f.srcIp[i], f.dstIp[i]);
      if diff != 0 {
        return diff;
      }
      i := i + 1;
    }
    cmp := 0;
  }

  lemma DiffZero(a: u32, b: u32)
    ensures Diff(a, b) == 0 <==> a == b
  {
  }

  predicate LowIsSrc(f: Flow) {
    var cmp := Compare(f);
    cmp < 0 || (cmp == 0 && f.srcPort <= f.dstPort)
  }

  /** Endpoints in numeric order; equal addresses are told apart by their ports. */
  function KeyOf(f: Flow): Key {
    var cmp := Compare(f);
    if cmp < 0 then Key(f.srcIp, f.dstIp, f.srcPort, f.dstPort)
    else if cmp > 0 || f.srcPort > f.dstPort then Key(f.dstIp, f.srcIp, f.dstPort, f.srcPort)
    else Key(f.dstIp, f.srcIp, f.srcPort, f.dstPort)
  }

  /** The addresses differ first in two words exactly half the range apart: both subtractions
      come out negative. */
  predicate Antipodal(f: Flow) {
    var i := FirstDifference(f.srcIp, f.dstIp, 0);
    i < 4 && (f.srcIp[i] as int - f.dstIp[i]) % 0x1_0000_0000 == 0x8000_0000
  }

  lemma DiffReversed(a: u32, b: u32)
    ensures (a - b) % 0x1_0000_0000 != 0x8000_0000 ==> Diff(b, a) == -Diff(a, b)
    ensures (a - b) % 0x1_0000_0000 == 0x8000_0000 ==> Diff(a, b) < 0 && Diff(b, a) < 0
  {
  }

  lemma {:induction false} FirstDifferenceSymmetric(a: Words, b: Words, i: nat)
    requires i <= 4
    ensures FirstDifference(a, b, i) == FirstDifference(b, a, i)
    decreases 4 - i
  {
    if i == 4 || a[i] != b[i] {
    } else {
      FirstDifferenceSymmetric(a, b, i + 1);
    }
  }

  lemma CompareReversed(f: Flow)
    ensures !Antipodal(f) ==> Compare(Reverse(f)) == -Compare(f)
    ensures Antipodal(f) ==> Compare(f) < 0 && Compare(Reverse(f)) < 0
    ensures Compare(f) == 0 <==> f.srcIp == f.dstIp
  {
    hide Diff, FirstDifference;
    FirstDifferenceSymmetric(f.srcIp, f.dstIp, 0);
    var i := FirstDifference(f.srcIp, f.dstIp, 0);
    if i < 4 {
      DiffReversed(f.srcIp[i], f.dstIp[i]);
      DiffZero(f.srcIp[i], f.dstIp[i]);
    } else {
      assert f.srcIp == f.dstIp;
    }
  }

  /** A flow and its reverse share a key exactly when they are not antipodal, and then see
      opposite ends as the low one. */
  lemma KeyIsDirectionFree(f: Flow)
    ensures KeyOf(f) == KeyOf(Reverse(f)) <==> !Antipodal(f)
    ensures !Antipodal(f) && Src(f) != Dst(f) ==> LowIsSrc(f) != LowIsSrc(Reverse(f))
  {
    hide Compare, Antipodal;
    CompareReversed(f);
  }

  /** The key names the two endpoints, the low one being the source or the destination. */
  lemma KeyNamesEndpoints(f: Flow)
    ensures var k := KeyOf(f);
            if LowIsSrc(f) then Endpoint(k.lowIp, k.lowPort) == Src(f) && Endpoint(k.highIp, k.highPort) == Dst(f)
            else Endpoint(k.lowIp, k.lowPort) == Dst(f) && Endpoint(k.highIp, k.highPort) == Src(f)
  {
    hide Compare, Antipodal;
    CompareReversed(f);
  }

  // ---------------------------------------------------------------- flags

  /** The default flow source keeps the raw TCP flags and adds one derived flag; the derived
      close flags never appear without the raw ones. */
  function SocketFlags(raw: byte): nat {
    if Has(raw, ACK_FLAG) || Has(raw, SYN_FLAG) then raw + SYN_ACK_FLAG
    else if Has(raw, FIN_FLAG) then raw + FIN_ACK_FLAG
    else if Has(raw, RST_FLAG) then raw + RST_ACK_FLAG
    else raw
  }

  predicate Closes(flags: nat) {
    Has(flags, FIN_FLAG) || Has(flags, RST_FLAG) || Has(flags, FIN_ACK_FLAG) || Has(flags, RST_ACK_FLAG)
  }

  lemma Even(q: int, m: int)
    ensures (q + 2 * m) % 2 == q % 2
  {
  }

  lemma Bit1(raw: byte, k: nat)
    ensures Has(raw + 0x100 * k, FIN_FLAG) == Has(raw, FIN_FLAG)
  {
    Even(raw, 0x80 * k);
  }

  lemma Bit2(raw: byte, k: nat)
    ensures Has(raw + 0x100 * k, SYN_FLAG) == Has(raw, SYN_FLAG)
  {
    assert (raw + 0x100 * k) / 2 == raw / 2 + 2 * (0x40 * k);
    Even(raw / 2, 0x40 * k);
  }

  lemma Bit4(raw: byte, k: nat)
    ensures Has(raw + 0x100 * k, RST_FLAG) == Has(raw, RST_FLAG)
  {
    assert (raw + 0x100 * k) / 4 == raw / 4 + 2 * (0x20 * k);
    Even(raw / 4, 0x20 * k);
  }

  lemma Bit16(raw: byte, k: nat)
    ensures Has(raw + 0x100 * k, ACK_FLAG) == Has(raw, ACK_FLAG)
  {
    assert (raw + 0x100 * k) / 16 == raw / 16 + 2 * (8 * k);
    Even(raw / 16, 8 * k);
  }

  /** Derived flags live above the raw ones. */
  lemma RawBits(raw: byte, k: nat)
    ensures Has(raw + 0x100 * k, FIN_FLAG) == Has(raw, FIN_FLAG) && Has(raw + 0x100 * k, SYN_FLAG) == Has(raw, SYN_FLAG)
    ensures Has(raw + 0x100 * k, RST_FLAG) == Has(raw, RST_FLAG) && Has(raw + 0x100 * k, ACK_FLAG) == Has(raw, ACK_FLAG)
  {
    hide Has;
    Bit1(raw, k);
    Bit2(raw, k);
    Bit4(raw, k);
    Bit16(raw, k);
  }

  lemma DerivedBits(raw: byte)
    ensures !Has(raw, FIN_ACK_FLAG) && !Has(raw, RST_ACK_FLAG)
    ensures !Has(raw + SYN_ACK_FLAG, FIN_ACK_FLAG) && !Has(raw + SYN_ACK_FLAG, RST_ACK_FLAG)
  {
  }

  lemma RawFlagsDecide(raw: byte)
    ensures Closes(SocketFlags(raw)) <==> Has(raw, FIN_FLAG) || Has(raw, RST_FLAG)
    ensures Has(SocketFlags(raw), SYN_FLAG) == Has(raw, SYN_FLAG)
    ensures Has(SocketFlags(raw), ACK_FLAG) == Has(raw, ACK_FLAG)
  {
    hide Has;
    RawBits(raw, 0);
    RawBits(raw, 1);
    RawBits(raw, 2);
    RawBits(raw, 4);
    DerivedBits(raw);
  }

  // ---------------------------------------------------------------- the tracker

  type Initiators = map<Key, Index>

  /** What a handshake packet says: SYN-ACK comes from the server, a bare SYN from the client. */
  function FromHandshake(flags: nat, lowIsSrc: bool): Index
    requires Has(flags, SYN_FLAG)
  {
    if Has(flags, ACK_FLAG) == lowIsSrc then INITIATOR_HIGH else INITIATOR_LOW
  }

  function SideOf(i: Index, lowIsSrc: bool): Side {
    if (i == INITIATOR_LOW) == lowIsSrc then INITIATOR_SRC else INITIATOR_DST
  }

  /** The index known just after the lookup. */
  function Learn(m: Initiators, f: Flow, flags: nat): Initiators {
    if KeyOf(f) !in m && Has(flags, SYN_FLAG) then m[KeyOf(f) := FromHandshake(flags, LowIsSrc(f))] else m
  }

  /** The map afterwards; a new entry may not find room. */
  function After(m: Initiators, f: Flow, flags: nat, inserted: bool): Initiators {
    var m' := if inserted then Learn(m, f, flags) else m;
    if Closes(flags) then m' - {KeyOf(f)} else m'
  }

  function Named(m: Initiators, f: Flow, flags: nat): Side {
    var l := Learn(m, f, flags);
    if KeyOf(f) in l then SideOf(l[KeyOf(f)], LowIsSrc(f)) else INITIATOR_UNKNOWN
  }

  class Tracker {
    var initiators: Initiators

    constructor ()
      ensures initiators == map[]
    {
      initiators := map[];
    }

    method GetConnectionInitiator(f: Flow, flags: nat, inserted: bool) returns (side: Side)
      modifies this
      ensures side == Named(old(initiators), f, flags)
      ensures initiators == After(old(initiators), f, flags, inserted)
    {
      hide Compare, Has;
      var key, lowIsSrc := KeyOf(f), LowIsSrc(f);
      side := INITIATOR_UNKNOWN;
      if key in initiators {
        side := SideOf(initiators[key], lowIsSrc);
      } else if Has(flags, SYN_FLAG) {
        var index: Index;
        if Has(flags, ACK_FLAG) {
          index := if lowIsSrc then INITIATOR_HIGH else INITIATOR_LOW;
        } else {
          index := if lowIsSrc then INITIATOR_LOW else INITIATOR_HIGH;
        }
        if inserted {
          initiators := initiators[key := index];
        }
        side := SideOf(index, lowIsSrc);
      }
      if Closes(flags) {
        initiators := initiators - {key};
      }
    }
  }

  /** The physical endpoint a side stands for. */
  function EndpointNamed(f: Flow, s: Side): Endpoint
    requires s != INITIATOR_UNKNOWN
  {
    if s == INITIATOR_SRC then Src(f) else Dst(f)
  }

  function KeyEndpoint(k: Key, i: Index): Endpoint {
    if i == INITIATOR_LOW then Endpoint(k.lowIp, k.lowPort) else Endpoint(k.highIp, k.highPort)
  }

  lemma NamesKeyEndpoint(f: Flow, i: Index)
    ensures EndpointNamed(f, SideOf(i, LowIsSrc(f))) == KeyEndpoint(KeyOf(f), i)
  {
    hide KeyOf, LowIsSrc;
    KeyNamesEndpoints(f);
  }

  datatype Call = Call(flow: Flow, flags: nat, inserted: bool)

  ghost function Run(m: Initiators, cs: seq<Call>): Initiators {
    if |cs| == 0 then m
    else
      var last := cs[|cs| - 1];
      After(Run(m, cs[..|cs| - 1]), last.flow, last.flags, last.inserted)
  }

  /** No call on this key closes the connection. */
  ghost predicate StaysOpen(k: Key, cs: seq<Call>) {
    forall i :: 0 <= i < |cs| ==> KeyOf(cs[i].flow) == k ==> !Closes(cs[i].flags)
  }

  lemma {:induction false} IndexIsKept(m: Initiators, k: Key, cs: seq<Call>)
    requires k in m && StaysOpen(k, cs)
    ensures k in Run(m, cs) && Run(m, cs)[k] == m[k]
  {
    hide KeyOf, LowIsSrc, Has, Closes;
    if |cs| == 0 {
    } else {
      var last := cs[|cs| - 1];
      assert KeyOf(last.flow) == k ==> !Closes(last.flags);
      IndexIsKept(m, k, cs[..|cs| - 1]);
    }
  }

  /** From the first handshake packet of a flow that is stored until something closes it, every call on the flow
      or its reverse, among any calls on other flows, names one and the same endpoint: the one
      the handshake implies. The closing call itself still does. */
  lemma SameEndpointFromBothDirections(m: Initiators, f: Flow, flags: nat, cs: seq<Call>, g: Flow, gFlags: nat)
    requires KeyOf(f) !in m && Has(flags, SYN_FLAG) && !Closes(flags) && !Antipodal(f)
    requires StaysOpen(KeyOf(f), cs)
    requires g == f || g == Reverse(f)
    ensures var now := Run(After(m, f, flags, true), cs);
            && Named(now, g, gFlags) != INITIATOR_UNKNOWN
            && EndpointNamed(g, Named(now, g, gFlags)) == if Has(flags, ACK_FLAG) then Dst(f) else Src(f)
  {
    hide KeyOf, LowIsSrc, Has, Closes, Antipodal, Run, StaysOpen;
    KeyIsDirectionFree(f);
    var m' := After(m, f, flags, true);
    IndexIsKept(m', KeyOf(f), cs);
    var i := FromHandshake(flags, LowIsSrc(f));
    NamesKeyEndpoint(g, i);
    NamesKeyEndpoint(f, i);
  }

  /** For antipodal addresses the two directions never meet: the SYN of one leaves the other's
      packets without an initiator. */
  lemma AntipodalIsNotFound(f: Flow, flags: nat, inserted: bool)
    requires Antipodal(f) && Has(flags, SYN_FLAG) && !Closes(flags)
    ensures Named(After(map[], f, flags, inserted), Reverse(f), 0) == INITIATOR_UNKNOWN
  {
    hide KeyOf, LowIsSrc, Antipodal;
    KeyIsDirectionFree(f);
  }
}
