/** Pairing HTTP/1 requests with their responses: every run of requests, responses, delayed
    finishes, fallback records and evictions. */
module HttpTracker {
  import opened Bytes
  import opened ConnectionInfo

  const MAX_HTTP_STATUS := 599

  datatype PidConn = PidConn(conn: Conn, pid: u32)

  /** `id` numbers the records in order of creation and `fallback` says which map a record was
      created in; both only serve to tell records apart. */
  datatype Info = Info(
    id: nat, fallback: bool, conn: Conn, start: nat, end: nat, len: nat, respLen: nat, status: u16, client: bool,
    hostPid: u32)

  datatype State = State(ongoing: map<PidConn, Info>, backup: map<Conn, Info>, events: seq<Info>, next: nat, clock: nat)

  /** One buffer seen on a connection. `inserted` is the fate of the map update, `rooms` of the
      ring-buffer reservations in the order they are tried. */
  datatype Args = Args(
    key: PidConn, kind: PacketType, direction: Direction, ssl: bool, origDport: u16, digits: (byte, byte, byte),
    len: nat, hostPid: u32, now: nat, inserted: bool, rooms: (bool, bool, bool))

  predicate Complete(i: Info) {
    i.start != 0 && i.status != 0 && i.hostPid != 0
  }

  predicate StillReading(i: Info) {
    i.status == 0 && i.start != 0
  }

  /** Three characters, sixteen-bit arithmetic; anything above 599 counts as unreadable. */
  function StatusOf(d: (byte, byte, byte)): (s: u16)
    ensures s <= MAX_HTTP_STATUS
  {
    var s := ((d.0 as int - 48) * 100 + (d.1 as int - 48) * 10 + (d.2 as int - 48)) % 0x1_0000;
    if s > MAX_HTTP_STATUS then 0 else s
  }

  // ---------------------------------------------------------------- specification

  /** Report a complete record if the ring buffer has room, and forget the connection. */
  function Finished(s: State, i: Info, key: PidConn, room: bool): State {
    if !Complete(i) then s
    else s.(events := if room then s.events + [i] else s.events, ongoing := s.ongoing - {key})
  }

  function Empty(s: State, a: Args): Info {
    Info(s.next, false, a.key.conn, 0, 0, 0, 0, 0, false, 0)
  }

  /** A request replaces whatever the connection had, finishing it first. */
  function AfterGetOrSet(s: State, a: Args): State {
    if a.kind != PACKET_TYPE_REQUEST then s
    else
      var f := if a.key in s.ongoing then Finished(s, s.ongoing[a.key], a.key, a.rooms.0) else s;
      if a.inserted then f.(ongoing := f.ongoing[a.key := Empty(s, a)], next := f.next + 1) else f
  }

  /** Where the record of this buffer lives. */
  datatype Where = Ongoing | Backup | Nowhere

  function Find(s: State, a: Args): Where {
    if a.key in s.ongoing then Ongoing else if a.key.conn in s.backup then Backup else Nowhere
  }

  datatype Branch = Request | Response | Accumulate | Ignore

  function BranchOf(i: Info, a: Args): Branch {
    if a.kind == PACKET_TYPE_REQUEST && i.status == 0 && i.start == 0 then Request
    else if a.kind == PACKET_TYPE_RESPONSE && i.status == 0 then Response
    else if StillReading(i) then Accumulate
    else Ignore
  }

  function Requested(i: Info, a: Args): Info {
    var client := RequestType(a.direction, PACKET_TYPE_REQUEST) == EVENT_HTTP_CLIENT;
    i.(client := client, hostPid := a.hostPid, conn := FixedUp(i.conn, client, a.origDport), start := a.now,
       status := 0, len := a.len)
  }

  function Responded(i: Info, a: Args): Info {
    i.(respLen := 0, end := a.now, status := StatusOf(a.digits))
  }

  /** A response to our own request, or one whose connection cannot be tracked, is final. */
  predicate FinishesAtOnce(a: Args, highVolume: bool) {
    a.direction != TCP_SEND || highVolume || (a.ssl && a.key.conn.sPort == 0 && a.key.conn.dPort == 0)
  }

  function OngoingStep(s: State, a: Args, highVolume: bool): State
    requires a.key in s.ongoing
  {
    var i := s.ongoing[a.key];
    match BranchOf(i, a)
    case Request => s.(ongoing := s.ongoing[a.key := Requested(i, a)])
    case Response =>
      var r := Responded(i, a);
      var s' := s.(ongoing := s.ongoing[a.key := r]);
      if FinishesAtOnce(a, highVolume) then Finished(s', r, a.key, a.rooms.1) else s'
    case Accumulate => s.(ongoing := s.ongoing[a.key := i.(len := i.len + a.len)])
    case Ignore => s
  }

  /** The fallback record is reported on its own behalf a second time. */
  function BackupStep(s: State, a: Args, highVolume: bool): State
    requires a.key.conn in s.backup
  {
    var i := s.backup[a.key.conn].(hostPid := a.hostPid, client := a.direction == TCP_RECV);
    if BranchOf(i, a).Response? then
      var r := Responded(i, a);
      var s' := if FinishesAtOnce(a, highVolume) then Finished(s, r, a.key, a.rooms.1) else s;
      Finished(s', r, a.key, a.rooms.2)
    else s
  }

  function HttpStep(s: State, a: Args, highVolume: bool): State {
    var g := AfterGetOrSet(s, a);
    var h := match Find(g, a)
             case Ongoing => OngoingStep(g, a, highVolume)
             case Backup => BackupStep(g, a, highVolume)
             case Nowhere => g;
    if Find(g, a).Nowhere? then h.(clock := a.now) else h.(backup := h.backup - {a.key.conn}, clock := a.now)
  }

  function DelayedStep(s: State, key: PidConn, highVolume: bool, tls: bool, room: bool): State {
    if (highVolume && !tls) || key !in s.ongoing then s else Finished(s, s.ongoing[key], key, room)
  }
}
