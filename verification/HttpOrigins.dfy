/** Where the tracker's events come from, over whole runs: each one pairs a request of the run with a
    later response on the same connection, and what that makes its destination. */
module HttpOrigins {
  import opened Bytes
  import opened ConnectionInfo
  import opened HttpTracker
  import opened HttpRuns

  /** The record that a stored request leaves. */
  ghost predicate FromRequest(i: Info, e: Event) {
    && e.Http? && e.args.kind == PACKET_TYPE_REQUEST && e.args.inserted
    && i.start == e.args.now && i.client == (e.args.direction == TCP_SEND)
    && i.conn == FixedUp(e.args.key.conn, i.client, e.args.origDport)
  }

  ghost predicate FromResponse(i: Info, key: PidConn, e: Event) {
    && e.Http? && e.args.kind == PACKET_TYPE_RESPONSE && e.args.key == key
    && i.status == StatusOf(e.args.digits)
  }

  /** Event `m` is the request behind the record and, once it has a status, a later one on the same
      connection the response. */
  ghost predicate Paired(i: Info, key: PidConn, es: seq<Event>, m: nat) {
    && m < |es| && FromRequest(i, es[m]) && es[m].args.key == key
    && (i.status != 0 ==> exists r :: m < r < |es| && FromResponse(i, key, es[r]))
  }

  /** The record the socket filter leaves for a connection. */
  ghost predicate FromFilter(i: Info, e: Event) {
    e.Record? && i.conn == e.conn && i.start == e.now
  }

  ghost predicate Traced(i: Info, key: PidConn, es: seq<Event>) {
    exists m: nat :: Paired(i, key, es, m)
  }

  ghost predicate Filtered(i: Info, es: seq<Event>) {
    exists m :: 0 <= m < |es| && FromFilter(i, es[m])
  }

  ghost predicate Sourced(i: Info, es: seq<Event>) {
    if i.fallback then Filtered(i, es) else exists key :: Traced(i, key, es)
  }

  ghost predicate Origin(s: State, es: seq<Event>) {
    && (forall k :: k in s.ongoing ==> s.ongoing[k].start > 0 && !s.ongoing[k].fallback && Traced(s.ongoing[k], k, es))
    && (forall c :: c in s.backup ==> s.backup[c].fallback && Filtered(s.backup[c], es))
    && (forall n :: 0 <= n < |s.events| ==> Sourced(s.events[n], es))
  }

  // ---------------------------------------------------------------- one step

  lemma StillTraced(i: Info, key: PidConn, es: seq<Event>, e: Event)
    requires Traced(i, key, es)
    ensures Traced(i, key, es + [e])
  {
    hide FromRequest, FromResponse;
    var es' := es + [e];
    var m: nat :| Paired(i, key, es, m);
    assert es'[m] == es[m];
    if i.status != 0 {
      var r :| m < r < |es| && FromResponse(i, key, es[r]);
      assert es'[r] == es[r];
    }
    assert Paired(i, key, es', m);
  }

  lemma StillFiltered(i: Info, es: seq<Event>, e: Event)
    requires Filtered(i, es)
    ensures Filtered(i, es + [e])
  {
    hide FromFilter;
    var m :| 0 <= m < |es| && FromFilter(i, es[m]);
    assert (es + [e])[m] == es[m];
  }

  lemma StillSourced(i: Info, es: seq<Event>, e: Event)
    requires Sourced(i, es)
    ensures Sourced(i, es + [e])
  {
    hide Traced, Filtered;
    if i.fallback {
      StillFiltered(i, es, e);
    } else {
      var key :| Traced(i, key, es);
      StillTraced(i, key, es, e);
    }
  }

  lemma LaterOrigin(s: State, es: seq<Event>, e: Event)
    requires Origin(s, es)
    ensures Origin(s, es + [e])
  {
    hide Traced, Filtered, Sourced;
    forall k | k in s.ongoing ensures Traced(s.ongoing[k], k, es + [e]) {
      StillTraced(s.ongoing[k], k, es, e);
    }
    forall c | c in s.backup ensures Filtered(s.backup[c], es + [e]) {
      StillFiltered(s.backup[c], es, e);
    }
    forall n | 0 <= n < |s.events| ensures Sourced(s.events[n], es + [e]) {
      StillSourced(s.events[n], es, e);
    }
  }

  /** What is traced stays so while start, status and tuple do. */
  lemma SameTraced(i: Info, j: Info, key: PidConn, es: seq<Event>)
    requires Traced(i, key, es)
    requires j.start == i.start && j.client == i.client && j.conn == i.conn && j.status == i.status
    ensures Traced(j, key, es)
  {
    var m: nat :| Paired(i, key, es, m);
    assert FromRequest(j, es[m]);
    if j.status != 0 {
      var r :| m < r < |es| && FromResponse(i, key, es[r]);
      assert FromResponse(j, key, es[r]);
    }
    assert Paired(j, key, es, m);
  }

  /** A response pairs up the request that waits on its connection. */
  lemma ResponsePairs(i: Info, es: seq<Event>, a: Args)
    requires Traced(i, a.key, es) && i.status == 0 && a.kind == PACKET_TYPE_RESPONSE
    ensures Traced(Responded(i, a), a.key, es + [Http(a)])
  {
    hide StatusOf, FixedUp;
    var es', r := es + [Http(a)], Responded(i, a);
    var m: nat :| Paired(i, a.key, es, m);
    assert es'[m] == es[m] && es'[|es|] == Http(a);
    assert FromRequest(r, es'[m]) && FromResponse(r, a.key, es'[|es|]);
    assert Paired(r, a.key, es', m);
  }

  lemma FinishedOrigin(s: State, i: Info, key: PidConn, room: bool, es: seq<Event>)
    requires Origin(s, es) && Sourced(i, es)
    ensures Origin(Finished(s, i, key, room), es)
  {
    hide Traced, Filtered, Sourced;
  }

  lemma TracedIsSourced(i: Info, key: PidConn, es: seq<Event>)
    requires Traced(i, key, es) && !i.fallback
    ensures Sourced(i, es)
  {
  }

  lemma OlderOrigin(s: State, a: Args, es: seq<Event>)
    requires Origin(s, es)
    ensures var f := if a.key in s.ongoing then Finished(s, s.ongoing[a.key], a.key, a.rooms.0) else s; Origin(f, es)
  {
    hide Traced, Filtered, Sourced, Finished;
    if a.key in s.ongoing {
      TracedIsSourced(s.ongoing[a.key], a.key, es);
      FinishedOrigin(s, s.ongoing[a.key], a.key, a.rooms.0, es);
    }
  }

  /** A stored request is its record's own origin. */
  lemma RequestOrigin(s: State, a: Args, highVolume: bool, es: seq<Event>)
    requires Origin(s, es) && a.kind == PACKET_TYPE_REQUEST && a.inserted && a.now > 0
    ensures Origin(HttpStep(s, a, highVolume), es + [Http(a)])
  {
    hide Traced, Filtered, Sourced, Finished, FixedUp;
    var es' := es + [Http(a)];
    LaterOrigin(s, es, Http(a));
    OlderOrigin(s, a, es');
    var i := Requested(Empty(s, a), a);
    assert es'[|es|] == Http(a);
    assert FromRequest(i, es'[|es|]);
    OwnOrigin(i, a, es);
  }

  lemma OwnOrigin(i: Info, a: Args, es: seq<Event>)
    requires FromRequest(i, Http(a)) && i.status == 0
    ensures Traced(i, a.key, es + [Http(a)])
  {
    hide FromRequest;
    assert (es + [Http(a)])[|es|] == Http(a);
    assert Paired(i, a.key, es + [Http(a)], |es|);
  }

  lemma OngoingOrigin(s: State, a: Args, highVolume: bool, es: seq<Event>)
    requires Origin(s, es) && a.key in s.ongoing
    ensures Origin(OngoingStep(s, a, highVolume), es + [Http(a)])
  {
    hide Traced, Filtered, Sourced, Finished, StatusOf;
    var i, es' := s.ongoing[a.key], es + [Http(a)];
    LaterOrigin(s, es, Http(a));
    SameTraced(i, i.(len := i.len + a.len), a.key, es');
    if BranchOf(i, a).Response? {
      var r := Responded(i, a);
      ResponsePairs(i, es, a);
      TracedIsSourced(r, a.key, es');
      FinishedOrigin(s.(ongoing := s.ongoing[a.key := r]), r, a.key, a.rooms.1, es');
    }
  }

  lemma BackupOrigin(s: State, a: Args, highVolume: bool, es: seq<Event>)
    requires Origin(s, es) && a.key.conn in s.backup
    ensures Origin(BackupStep(s, a, highVolume), es + [Http(a)])
  {
    hide Traced, Finished, StatusOf, Origin;
    var es' := es + [Http(a)];
    LaterOrigin(s, es, Http(a));
    BackupIsSourced(s, a, es');
    var r := Responded(s.backup[a.key.conn].(hostPid := a.hostPid, client := a.direction == TCP_RECV), a);
    FinishedOrigin(s, r, a.key, a.rooms.1, es');
    var s' := if FinishesAtOnce(a, highVolume) then Finished(s, r, a.key, a.rooms.1) else s;
    FinishedOrigin(s', r, a.key, a.rooms.2, es');
  }

  lemma BackupIsSourced(s: State, a: Args, es: seq<Event>)
    requires Origin(s, es) && a.key.conn in s.backup
    ensures var r := Responded(s.backup[a.key.conn].(hostPid := a.hostPid, client := a.direction == TCP_RECV), a);
            Sourced(r, es)
  {
    hide Traced, StatusOf;
    var i := s.backup[a.key.conn];
    var m :| 0 <= m < |es| && FromFilter(i, es[m]);
    assert FromFilter(Responded(i.(hostPid := a.hostPid, client := a.direction == TCP_RECV), a), es[m]);
  }

  lemma HttpOrigin(s: State, a: Args, highVolume: bool, es: seq<Event>)
    requires Origin(s, es) && a.now > 0
    ensures Origin(HttpStep(s, a, highVolume), es + [Http(a)])
  {
    hide Origin, OngoingStep, BackupStep, Finished;
    if a.kind == PACKET_TYPE_REQUEST && a.inserted {
      RequestOrigin(s, a, highVolume, es);
    } else {
      OlderOrigin(s, a, es);
      var g := AfterGetOrSet(s, a);
      LaterOrigin(g, es, Http(a));
      var h := g;
      if a.key in g.ongoing {
        OngoingOrigin(g, a, highVolume, es);
        h := OngoingStep(g, a, highVolume);
      } else if a.key.conn in g.backup {
        BackupOrigin(g, a, highVolume, es);
        h := BackupStep(g, a, highVolume);
      }
      LessOrigin(h, h.(backup := h.backup - {a.key.conn}, clock := a.now), es + [Http(a)]);
      LessOrigin(h, h.(clock := a.now), es + [Http(a)]);
    }
  }

  /** Dropping records takes nothing from the others. */
  lemma LessOrigin(s: State, t: State, es: seq<Event>)
    requires Origin(s, es) && t.events == s.events
    requires forall k :: k in t.ongoing ==> k in s.ongoing && t.ongoing[k] == s.ongoing[k]
    requires forall c :: c in t.backup ==> c in s.backup && t.backup[c] == s.backup[c]
    ensures Origin(t, es)
  {
    hide Traced, Filtered, Sourced;
  }

  /** A later version of a record, same start, status and tuple. */
  lemma ReplacedOrigin(s: State, key: PidConn, j: Info, clock: nat, es: seq<Event>)
    requires Origin(s, es) && key in s.ongoing && !j.fallback
    requires var i := s.ongoing[key];
             j.start == i.start && j.client == i.client && j.conn == i.conn && j.status == i.status
    ensures Origin(s.(ongoing := s.ongoing[key := j], clock := clock), es)
  {
    hide Traced, Filtered, Sourced;
    SameTraced(s.ongoing[key], j, key, es);
  }

  lemma RecordOrigin(s: State, conn: Conn, now: nat, len: nat, es: seq<Event>)
    requires Origin(s, es)
    ensures Origin(Step(s, Record(conn, now, len), false), es + [Record(conn, now, len)])
    ensures Origin(Step(s, Record(conn, now, len), true), es + [Record(conn, now, len)])
  {
    hide Traced, Sourced;
    var es' := es + [Record(conn, now, len)];
    LaterOrigin(s, es, Record(conn, now, len));
    assert es'[|es|] == Record(conn, now, len);
    assert Filtered(Info(s.next, true, conn, now, 0, len, 0, 0, false, 0), es');
  }

  lemma StepOrigin(s: State, e: Event, highVolume: bool, es: seq<Event>)
    requires Origin(s, es) && (e.Http? ==> e.args.now > 0)
    ensures Origin(Step(s, e, highVolume), es + [e])
  {
    hide Origin, HttpStep, Finished;
    LaterOrigin(s, es, e);
    match e
    case Http(a) => HttpOrigin(s, a, highVolume, es);
    case Delayed(key, tls, room) =>
      if key in s.ongoing {
        LiveIsSourced(s, key, es + [e]);
        FinishedOrigin(s, s.ongoing[key], key, room, es + [e]);
      }
    case MoreData(key, now) =>
      if key in s.ongoing {
        LiveIsSourced(s, key, es + [e]);
        ReplacedOrigin(s, key, s.ongoing[key].(end := now), now, es + [e]);
      }
      LessOrigin(s, s.(clock := now), es + [e]);
    case Sent(key, n) =>
      if key in s.ongoing {
        LiveIsSourced(s, key, es + [e]);
        ReplacedOrigin(s, key, s.ongoing[key].(respLen := s.ongoing[key].respLen + n), s.clock, es + [e]);
      }
    case Record(conn, now, len) => RecordOrigin(s, conn, now, len, es);
    case Evict(key) => LessOrigin(s, s.(ongoing := s.ongoing - {key}), es + [e]);
    case EvictBackup(conn) => LessOrigin(s, s.(backup := s.backup - {conn}), es + [e]);
  }

  lemma LiveIsSourced(s: State, key: PidConn, es: seq<Event>)
    requires Origin(s, es) && key in s.ongoing
    ensures Sourced(s.ongoing[key], es) && !s.ongoing[key].fallback
  {
    hide Traced, Filtered;
  }

  // ---------------------------------------------------------------- whole runs

  /** The clock reads nothing but positive times. */
  ghost predicate Ticks(es: seq<Event>) {
    forall m :: 0 <= m < |es| && es[m].Http? ==> es[m].args.now > 0
  }

  lemma {:induction false} RunOrigin(es: seq<Event>, highVolume: bool)
    requires Ticks(es)
    ensures Origin(Run(es, highVolume), es)
  {
    hide Origin, Step;
    if es == [] {
      NothingYet();
    } else {
      var rest, last := es[..|es| - 1], es[|es| - 1];
      assert Ticks(rest);
      RunOrigin(rest, highVolume);
      StepOrigin(Run(rest, highVolume), last, highVolume, rest);
      assert rest + [last] == es;
    }
  }

  lemma NothingYet()
    ensures Origin(State(map[], map[], [], 0, 0), [])
  {
  }

  /** The end that serves a request seen on a socket: our own when we receive it, the peer's when we
      send it. */
  function Server(socket: Conn, d: Direction): (seq<byte>, u16) {
    if d == TCP_RECV then (socket.sAddr, socket.sPort) else (socket.dAddr, socket.dPort)
  }

  function Source(c: Conn): (seq<byte>, u16) {
    (c.sAddr, c.sPort)
  }

  function Destination(c: Conn): (seq<byte>, u16) {
    (c.dAddr, c.dPort)
  }

  /** Every buffer of the run was seen on the plain TCP socket at its place in `seen`, and every fallback
      record made from the packet there. */
  ghost predicate SeenOn(es: seq<Event>, seen: seq<Conn>) {
    && |seen| == |es|
    && (forall m :: 0 <= m < |es| && es[m].Http? ==>
          es[m].args.key.conn == Sorted(seen[m]) && es[m].args.origDport == seen[m].dPort)
    && (forall m :: 0 <= m < |es| && es[m].Record? ==> es[m].conn == Sorted(seen[m]))
  }

  /** Every event that is not a fallback one pairs a request of the run with a later response on its
      connection, carries the one's start and the other's status, and names the end that served the
      request as its destination. */
  lemma EventNamesServer(es: seq<Event>, highVolume: bool, seen: seq<Conn>, n: nat) returns (m: nat, r: nat)
    requires LegalRun(es, highVolume) && Ticks(es) && SeenOn(es, seen)
    requires n < |Run(es, highVolume).events| && !Run(es, highVolume).events[n].fallback
    ensures m < r < |es|
    ensures var i := Run(es, highVolume).events[n];
            && FromRequest(i, es[m]) && FromResponse(i, es[m].args.key, es[r])
            && Destination(i.conn) == Server(seen[m], es[m].args.direction)
  {
    hide Run, LegalRun, FixedUp, StatusOf;
    RunOrigin(es, highVolume);
    ReportsAreSound(es, highVolume, n);
    var i := Run(es, highVolume).events[n];
    assert Sourced(i, es);
    var key :| Traced(i, key, es);
    m :| Paired(i, key, es, m);
    r :| m < r < |es| && FromResponse(i, key, es[r]);
    RequestServes(i, es[m], seen[m]);
  }

  lemma RequestServes(i: Info, e: Event, socket: Conn)
    requires FromRequest(i, e) && e.args.key.conn == Sorted(socket) && e.args.origDport == socket.dPort
    ensures Destination(i.conn) == Server(socket, e.args.direction)
  {
    hide FixedUp, Sorted;
    DestinationServes(socket, e.args.direction);
  }

  /** A fallback event carries the start and the sorted tuple of the packet its record was made from;
      that names the packet's own destination, the serving end of a request, exactly when that has the
      smaller port, or an equal one, or is the source too. */
  lemma FallbackNamesServerIff(es: seq<Event>, highVolume: bool, seen: seq<Conn>, n: nat) returns (m: nat)
    requires LegalRun(es, highVolume) && Ticks(es) && SeenOn(es, seen)
    requires n < |Run(es, highVolume).events| && Run(es, highVolume).events[n].fallback
    ensures m < |es| && FromFilter(Run(es, highVolume).events[n], es[m])
    ensures Destination(Run(es, highVolume).events[n].conn) == Destination(seen[m]) <==>
              seen[m].dPort <= seen[m].sPort || Source(seen[m]) == Destination(seen[m])
  {
    hide Run, LegalRun;
    RunOrigin(es, highVolume);
    var i := Run(es, highVolume).events[n];
    assert Sourced(i, es);
    m :| 0 <= m < |es| && FromFilter(i, es[m]);
    SortedIsLargerPortFirst(seen[m]);
  }

  /** A request from port 100 to port 8080, seen by the socket filter only: its event names the client. */
  lemma FallbackMayNameClient()
    ensures var c := Conn([1], [2], 100, 8080);
            var a := Args(PidConn(Sorted(c), 7), PACKET_TYPE_RESPONSE, TCP_RECV, false, 8080, (50, 48, 48),
                          10, 7, 2, true, (true, true, true));
            var es := [Record(Sorted(c), 1, 10), Http(a)];
            && LegalRun(es, false) && Ticks(es) && SeenOn(es, [c, c])
            && |Run(es, false).events| == 2
            && Destination(Run(es, false).events[0].conn) == Source(c) != Destination(c)
  {
    var c := Conn([1], [2], 100, 8080);
    var a := Args(PidConn(Sorted(c), 7), PACKET_TYPE_RESPONSE, TCP_RECV, false, 8080, (50, 48, 48),
                  10, 7, 2, true, (true, true, true));
    var e := Record(Sorted(c), 1, 10);
    var es := [e, Http(a)];
    assert es[..1] == [e] && [e][..0] == [];
    assert Run([], false) == State(map[], map[], [], 0, 0) && LegalRun([], false);
    var s := Run([e], false);
    assert s == Step(Run([], false), e, false) && LegalRun([e], false);
    assert StatusOf((50, 48, 48)) == 200;
    FallbackReports(s, a, false);
    assert Run(es, false) == HttpStep(s, a, false);
  }
}
