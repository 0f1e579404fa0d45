/** Connection tuples: the order that makes requests and responses share a key, and its undoing
    for the events sent to user space. */
module ConnectionInfo {
  import opened Bytes

  const EPHEMERAL_PORT_MIN := 32768

  datatype Conn = Conn(sAddr: seq<byte>, dAddr: seq<byte>, sPort: u16, dPort: u16)

  /** The ports of an outgoing request. */
  datatype EgressKey = EgressKey(sPort: u16, dPort: u16)

  datatype Direction = TCP_RECV | TCP_SEND
  datatype PacketType = PACKET_TYPE_REQUEST | PACKET_TYPE_RESPONSE
  datatype EventType = EVENT_HTTP_REQUEST | EVENT_HTTP_CLIENT

  predicate LikelyEphemeral(port: u16) {
    port >= EPHEMERAL_PORT_MIN
  }

  function Swapped(c: Conn): Conn {
    Conn(c.dAddr, c.sAddr, c.dPort, c.sPort)
  }

  function Sorted(c: Conn): Conn {
    if LikelyEphemeral(c.sPort) && !LikelyEphemeral(c.dPort) then c
    else if (LikelyEphemeral(c.dPort) && !LikelyEphemeral(c.sPort)) || c.dPort > c.sPort then Swapped(c)
    else c
  }

  /** Undoes the sorting for user space, where the destination is the server. */
  function FixedUp(c: Conn, client: bool, origDport: u16): Conn {
    if (client && c.dPort != origDport) || (!client && c.dPort == origDport) then Swapped(c) else c
  }

  function RequestType(d: Direction, p: PacketType): EventType {
    if p == PACKET_TYPE_RESPONSE then
      if d == TCP_RECV then EVENT_HTTP_CLIENT else EVENT_HTTP_REQUEST
    else
      if d == TCP_RECV then EVENT_HTTP_REQUEST else EVENT_HTTP_CLIENT
  }

  /** The C structure, updated through its pointer. */
  class ConnRecord {
    var sAddr: seq<byte>
    var dAddr: seq<byte>
    var sPort: u16
    var dPort: u16

    function Value(): Conn
      reads this
    {
      Conn(sAddr, dAddr, sPort, dPort)
    }

    constructor (c: Conn)
      ensures Value() == c
    {
      sAddr, dAddr, sPort, dPort := c.sAddr, c.dAddr, c.sPort, c.dPort;
    }

    method SwapOrder()
      modifies this
      ensures Value() == Swapped(old(Value()))
    {
      var port := sPort;
      sPort := dPort;
      dPort := port;
      var tmpAddr := sAddr;
      sAddr := dAddr;
      dAddr := tmpAddr;
    }

    method Sort()
      modifies this
      ensures Value() == Sorted(old(Value()))
    {
      if LikelyEphemeral(sPort) && !LikelyEphemeral(dPort) {
        return;
      }
      if (LikelyEphemeral(dPort) && !LikelyEphemeral(sPort)) || dPort > sPort {
        SwapOrder();
      }
    }

    method Fixup(client: bool, origDport: u16)
      modifies this
      ensures Value() == FixedUp(old(Value()), client, origDport)
    {
      if (client && dPort != origDport) || (!client && dPort == origDport) {
        SwapOrder();
      }
    }
  }

  /** Sorting puts the larger port first, whatever side of the ephemeral boundary it is on. */
  lemma SortedIsLargerPortFirst(c: Conn)
    ensures Sorted(c) == if c.dPort > c.sPort then Swapped(c) else c
    ensures Sorted(Sorted(c)) == Sorted(c)
  {
  }

  /** Both orientations of a connection share their key exactly when the ports (or failing that
      nothing at all) tell the ends apart. */
  lemma SortedIsDirectionFree(c: Conn)
    ensures Sorted(c) == Sorted(Swapped(c)) <==> c.sPort != c.dPort || c.sAddr == c.dAddr
  {
  }

  /** Fixing up a sorted tuple gives clients the original and servers its reverse, for all ports. */
  lemma FixupUndoesSort(c: Conn, client: bool)
    ensures FixedUp(Sorted(c), client, c.dPort) == if client then c else Swapped(c)
  {
  }

  /** A socket's own tuple names the local end first. The tuple reported for a request then has
      the serving end as its destination: the local one when we receive it, the remote one when
      we send it. */
  lemma DestinationServes(socket: Conn, d: Direction)
    ensures var client := RequestType(d, PACKET_TYPE_REQUEST) == EVENT_HTTP_CLIENT;
            var e := FixedUp(Sorted(socket), client, socket.dPort);
            (e.dAddr, e.dPort) == if d == TCP_RECV then (socket.sAddr, socket.sPort) else (socket.dAddr, socket.dPort)
  {
    FixupUndoesSort(socket, RequestType(d, PACKET_TYPE_REQUEST) == EVENT_HTTP_CLIENT);
  }
}
