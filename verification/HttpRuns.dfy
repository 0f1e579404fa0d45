/** Whole runs of the HTTP tracker: what is reported, how often, and what never happens. */
module HttpRuns {
  import opened ConnectionInfo
  import opened HttpTracker

  datatype Event =
    | Http(args: Args)
    | Delayed(key: PidConn, tls: bool, room: bool)
    | MoreData(key: PidConn, now: nat)
    | Sent(key: PidConn, n: nat)
    | Record(conn: Conn, now: nat, len: nat)
    | Evict(key: PidConn)
    | EvictBackup(conn: Conn)

  /** Later parts of a response move its end; bytes sent add to its length; the socket filter
      leaves fallback records; the kernel may evict anything. */
  function Step(s: State, e: Event, highVolume: bool): State {
    match e
    case Http(a) => HttpStep(s, a, highVolume)
    case Delayed(key, tls, room) => DelayedStep(s, key, highVolume, tls, room)
    case MoreData(key, now) =>
      if key in s.ongoing && s.ongoing[key].status != 0
      then s.(ongoing := s.ongoing[key := s.ongoing[key].(end := now)], clock := now)
      else s.(clock := now)
    case Sent(key, n) =>
      if key in s.ongoing
      then s.(ongoing := s.ongoing[key := s.ongoing[key].(respLen := s.ongoing[key].respLen + n)])
      else s
    case Record(conn, now, len) =>
      s.(backup := s.backup[conn := Info(s.next, true, conn, now, 0, len, 0, 0, false, 0)], next := s.next + 1,
         clock := now)
    case Evict(key) => s.(ongoing := s.ongoing - {key})
    case EvictBackup(conn) => s.(backup := s.backup - {conn})
  }

  /** The clock does not run backwards. */
  predicate Legal(s: State, e: Event) {
    match e
    case Http(a) => a.now >= s.clock
    case MoreData(_, now) => now >= s.clock
    case Record(_, now, _) => now >= s.clock
    case _ => true
  }

  ghost function Times(es: seq<Info>, id: nat): nat {
    if |es| == 0 then 0 else Times(es[..|es| - 1], id) + (if es[|es| - 1].id == id then 1 else 0)
  }

  // ---------------------------------------------------------------- invariant

  /** A record still in a map: in order, and not yet reported. */
  ghost predicate Pending(s: State, i: Info) {
    && i.id < s.next && i.start <= s.clock && i.status <= MAX_HTTP_STATUS
    && (i.status != 0 ==> i.start <= i.end <= s.clock)
    && Times(s.events, i.id) == 0
  }

  ghost predicate Reported(s: State, i: Info) {
    && i.id < s.next
    && i.start != 0 && 1 <= i.status <= MAX_HTTP_STATUS && i.start <= i.end
    && Times(s.events, i.id) <= (if i.fallback then 2 else 1)
  }

  ghost predicate Distinct(s: State) {
    && (forall j, k :: j in s.ongoing && k in s.ongoing && j != k ==> s.ongoing[j].id != s.ongoing[k].id)
    && (forall j, k :: j in s.backup && k in s.backup && j != k ==> s.backup[j].id != s.backup[k].id)
    && (forall j, k :: j in s.ongoing && k in s.backup ==> s.ongoing[j].id != s.backup[k].id)
  }

  ghost predicate Inv(s: State) {
    && (forall k :: k in s.ongoing ==> Pending(s, s.ongoing[k]) && !s.ongoing[k].fallback)
    && (forall c :: c in s.backup ==> Pending(s, s.backup[c]) && s.backup[c].fallback && s.backup[c].status == 0)
    && (forall n :: 0 <= n < |s.events| ==> Reported(s, s.events[n]))
    && Distinct(s)
  }

  /** No record in a map carries this number. */
  ghost predicate Unused(s: State, id: nat) {
    && (forall k :: k in s.ongoing ==> s.ongoing[k].id != id)
    && (forall c :: c in s.backup ==> s.backup[c].id != id)
  }

  lemma TimesAppend(es: seq<Info>, i: Info, id: nat)
    ensures Times(es + [i], id) == Times(es, id) + (if i.id == id then 1 else 0)
  {
    assert (es + [i])[..|es|] == es;
  }

  /** Reporting a record that has left the maps. */
  lemma AppendKeepsInv(s: State, i: Info)
    requires Inv(s) && Unused(s, i.id) && Complete(i)
    requires i.id < s.next && i.status <= MAX_HTTP_STATUS && i.start <= i.end
    requires Times(s.events, i.id) == 0 ||
             (i.fallback && Times(s.events, i.id) == 1 &&
              forall n :: 0 <= n < |s.events| && s.events[n].id == i.id ==> s.events[n].fallback)
    ensures Inv(s.(events := s.events + [i]))
  {
    hide Times;
    var s' := s.(events := s.events + [i]);
    forall id
      ensures Times(s'.events, id) == Times(s.events, id) + (if i.id == id then 1 else 0)
    {
      TimesAppend(s.events, i, id);
    }
    forall n | 0 <= n < |s'.events|
      ensures Reported(s', s'.events[n])
    {
      if n < |s.events| {
        assert Reported(s, s.events[n]);
        if Times(s.events, i.id) == 0 && s.events[n].id == i.id {
          TimesPositive(s.events, n);
        }
      }
    }
  }

  lemma {:induction false} TimesPositive(es: seq<Info>, n: nat)
    requires n < |es|
    ensures Times(es, es[n].id) > 0
  {
    if n == |es| - 1 {
    } else {
      TimesPositive(es[..|es| - 1], n);
    }
  }

  /** Finishing a live record reports it at most once and takes it out of the map. */
  lemma FinishedKeepsInv(s: State, key: PidConn, room: bool)
    requires Inv(s) && key in s.ongoing
    ensures Inv(Finished(s, s.ongoing[key], key, room))
  {
    hide Times;
    var i := s.ongoing[key];
    if Complete(i) {
      var s' := s.(ongoing := s.ongoing - {key});
      if room {
        AppendKeepsInv(s', i);
      }
    }
  }

  /** Replacing a live record by a later version of itself. */
  lemma ReplaceKeepsInv(s: State, key: PidConn, i: Info, clock: nat)
    requires Inv(s) && key in s.ongoing && clock >= s.clock
    requires i.id == s.ongoing[key].id && !i.fallback && i.status <= MAX_HTTP_STATUS && i.start <= clock
    requires i.status != 0 ==> i.start <= i.end <= clock
    ensures Inv(s.(ongoing := s.ongoing[key := i], clock := clock))
  {
    hide Times;
  }

  lemma GetOrSetKeepsInv(s: State, a: Args)
    requires Inv(s)
    ensures Inv(AfterGetOrSet(s, a))
    ensures AfterGetOrSet(s, a).clock == s.clock && AfterGetOrSet(s, a).backup == s.backup
    ensures a.kind == PACKET_TYPE_REQUEST && a.inserted ==>
              a.key in AfterGetOrSet(s, a).ongoing && AfterGetOrSet(s, a).ongoing[a.key] == Empty(s, a)
  {
    hide Times, Finished;
    if a.kind == PACKET_TYPE_REQUEST {
      if a.key in s.ongoing {
        FinishedKeepsInv(s, a.key, a.rooms.0);
        FinishedFrame(s, s.ongoing[a.key], a.key, a.rooms.0);
        var f := Finished(s, s.ongoing[a.key], a.key, a.rooms.0);
        if a.inserted {
          InsertKeepsInv(f, a.key, Empty(s, a));
        }
      } else if a.inserted {
        InsertKeepsInv(s, a.key, Empty(s, a));
      }
    }
  }

  lemma FinishedFrame(s: State, i: Info, key: PidConn, room: bool)
    ensures var f := Finished(s, i, key, room);
            f.next == s.next && f.clock == s.clock && f.backup == s.backup
  {
  }

  lemma InsertKeepsInv(s: State, key: PidConn, i: Info)
    requires Inv(s) && i.id == s.next && !i.fallback && i.status == 0 && i.start == 0
    ensures Inv(s.(ongoing := s.ongoing[key := i], next := s.next + 1))
  {
    hide Times;
    Unreported(s);
  }

  lemma Unreported(s: State)
    requires Inv(s)
    ensures Times(s.events, s.next) == 0
  {
    NotThere(s.events, s.next);
  }

  lemma {:induction false} NotThere(es: seq<Info>, id: nat)
    requires forall n :: 0 <= n < |es| ==> es[n].id < id
    ensures Times(es, id) == 0
  {
    if |es| == 0 {
    } else {
      NotThere(es[..|es| - 1], id);
    }
  }

  lemma OngoingKeepsInv(s: State, a: Args, highVolume: bool)
    requires Inv(s) && a.key in s.ongoing && a.now >= s.clock
    ensures Inv(OngoingStep(s, a, highVolume).(clock := a.now))
  {
    hide Times, Finished, StatusOf, Inv, FixedUp;
    var i := s.ongoing[a.key];
    LiveFacts(s, a.key);
    match BranchOf(i, a) {
      case Request => ReplaceKeepsInv(s, a.key, Requested(i, a), a.now);
      case Response =>
        var r := Responded(i, a);
        ReplaceKeepsInv(s, a.key, r, a.now);
        FinishedKeepsInv(s.(ongoing := s.ongoing[a.key := r], clock := a.now), a.key, a.rooms.1);
        FinishedLater(s.(ongoing := s.ongoing[a.key := r]), r, a.key, a.rooms.1, a.now);
      case Accumulate => ReplaceKeepsInv(s, a.key, i.(len := i.len + a.len), a.now);
      case Ignore => ReplaceKeepsInv(s, a.key, i, a.now);
        assert s.ongoing[a.key := i] == s.ongoing;
    }
  }

  lemma LiveFacts(s: State, key: PidConn)
    requires Inv(s) && key in s.ongoing
    ensures var i := s.ongoing[key];
            && !i.fallback && i.status <= MAX_HTTP_STATUS && i.start <= s.clock
            && (i.status != 0 ==> i.start <= i.end <= s.clock)
  {
    hide Times;
  }

  lemma FinishedLater(s: State, i: Info, key: PidConn, room: bool, clock: nat)
    ensures Finished(s, i, key, room).(clock := clock) == Finished(s.(clock := clock), i, key, room)
  {
  }

  /** The fallback record is taken out, then reported at most twice. */
  lemma BackupKeepsInv(s: State, a: Args, highVolume: bool)
    requires Inv(s) && a.key !in s.ongoing && a.key.conn in s.backup && a.now >= s.clock
    ensures Inv(BackupStep(s, a, highVolume).(backup := s.backup - {a.key.conn}, clock := a.now))
  {
    hide Times, StatusOf, Distinct;
    var i := s.backup[a.key.conn].(hostPid := a.hostPid, client := a.direction == TCP_RECV);
    var s0 := s.(backup := s.backup - {a.key.conn}, clock := a.now);
    DropBackup(s, a.key.conn, a.now);
    var r := Responded(i, a);
    if BranchOf(i, a).Response? && Complete(r) {
      assert s0.ongoing - {a.key} == s0.ongoing;
      ReportBackup(s0, r, FinishesAtOnce(a, highVolume) && a.rooms.1, a.rooms.2);
    }
  }

  lemma DropBackup(s: State, conn: Conn, clock: nat)
    requires Inv(s) && conn in s.backup && clock >= s.clock
    ensures var s0 := s.(backup := s.backup - {conn}, clock := clock);
            Inv(s0) && Unused(s0, s.backup[conn].id) && Pending(s0, s.backup[conn])
  {
    hide Times;
  }

  lemma ReportBackup(s: State, r: Info, first: bool, second: bool)
    requires Inv(s) && Unused(s, r.id) && Complete(r) && r.fallback
    requires r.id < s.next && r.status <= MAX_HTTP_STATUS && r.start <= r.end && Times(s.events, r.id) == 0
    ensures var s1 := if first then s.(events := s.events + [r]) else s;
            Inv(if second then s1.(events := s1.events + [r]) else s1)
  {
    hide Times;
    if first {
      AppendKeepsInv(s, r);
      TimesAppend(s.events, r, r.id);
      if second {
        var s1 := s.(events := s.events + [r]);
        forall n | 0 <= n < |s1.events| && s1.events[n].id == r.id
          ensures s1.events[n].fallback
        {
          if n < |s.events| {
            TimesPositive(s.events, n);
          }
        }
        AppendKeepsInv(s1, r);
      }
    } else if second {
      AppendKeepsInv(s, r);
    }
  }

  lemma HttpKeepsInv(s: State, a: Args, highVolume: bool)
    requires Inv(s) && a.now >= s.clock
    ensures Inv(HttpStep(s, a, highVolume))
  {
    hide Inv, AfterGetOrSet, OngoingStep, BackupStep;
    GetOrSetKeepsInv(s, a);
    var g := AfterGetOrSet(s, a);
    match Find(g, a) {
      case Ongoing =>
        OngoingKeepsInv(g, a, highVolume);
        OngoingFrame(g, a, highVolume);
        ForgetBackup(OngoingStep(g, a, highVolume).(clock := a.now), a.key.conn);
      case Backup =>
        BackupKeepsInv(g, a, highVolume);
        BackupFrame(g, a, highVolume);
      case Nowhere => Later(g, a.now);
    }
  }

  lemma OngoingFrame(s: State, a: Args, highVolume: bool)
    requires a.key in s.ongoing
    ensures OngoingStep(s, a, highVolume).backup == s.backup
  {
  }

  lemma BackupFrame(s: State, a: Args, highVolume: bool)
    requires a.key.conn in s.backup
    ensures BackupStep(s, a, highVolume).backup == s.backup
  {
  }

  lemma ForgetBackup(s: State, conn: Conn)
    requires Inv(s)
    ensures Inv(s.(backup := s.backup - {conn}))
  {
    hide Times;
  }

  lemma Later(s: State, now: nat)
    requires Inv(s) && now >= s.clock
    ensures Inv(s.(clock := now))
  {
    hide Times;
  }

  lemma RecordKeepsInv(s: State, conn: Conn, now: nat, len: nat)
    requires Inv(s) && now >= s.clock
    ensures Inv(s.(backup := s.backup[conn := Info(s.next, true, conn, now, 0, len, 0, 0, false, 0)],
                   next := s.next + 1, clock := now))
  {
    hide Times;
    Unreported(s);
  }

  lemma StepKeepsInv(s: State, e: Event, highVolume: bool)
    requires Inv(s) && Legal(s, e)
    ensures Inv(Step(s, e, highVolume))
  {
    hide Inv, HttpStep, Finished;
    match e
    case Http(a) => HttpKeepsInv(s, a, highVolume);
    case Delayed(key, tls, room) =>
      if key in s.ongoing {
        FinishedKeepsInv(s, key, room);
      }
    case MoreData(key, now) =>
      if key in s.ongoing {
        LiveFacts(s, key);
        ReplaceKeepsInv(s, key, s.ongoing[key].(end := now), now);
      }
      Later(s, now);
    case Sent(key, n) =>
      if key in s.ongoing {
        LiveFacts(s, key);
        ReplaceKeepsInv(s, key, s.ongoing[key].(respLen := s.ongoing[key].respLen + n), s.clock);
      }
    case Record(conn, now, len) => RecordKeepsInv(s, conn, now, len);
    case Evict(key) => EvictKeepsInv(s, key);
    case EvictBackup(conn) => ForgetBackup(s, conn);
  }

  lemma EvictKeepsInv(s: State, key: PidConn)
    requires Inv(s)
    ensures Inv(s.(ongoing := s.ongoing - {key}))
  {
    hide Times;
  }

  // ---------------------------------------------------------------- theorems

  ghost function Run(es: seq<Event>, highVolume: bool): State {
    if |es| == 0 then State(map[], map[], [], 0, 0) else Step(Run(es[..|es| - 1], highVolume), es[|es| - 1], highVolume)
  }

  ghost predicate LegalRun(es: seq<Event>, highVolume: bool) {
    |es| == 0 || (LegalRun(es[..|es| - 1], highVolume) && Legal(Run(es[..|es| - 1], highVolume), es[|es| - 1]))
  }

  lemma {:induction false} RunKeepsInv(es: seq<Event>, highVolume: bool)
    requires LegalRun(es, highVolume)
    ensures Inv(Run(es, highVolume))
  {
    hide Step, Legal;
    if |es| == 0 {
    } else {
      RunKeepsInv(es[..|es| - 1], highVolume);
      StepKeepsInv(Run(es[..|es| - 1], highVolume), es[|es| - 1], highVolume);
    }
  }

  /** In every run each request is reported at most once and each fallback record at most twice,
      and whatever is reported has a start, a status between 1 and 599 and an end no earlier
      than its start. */
  lemma ReportsAreSound(es: seq<Event>, highVolume: bool, n: nat)
    requires LegalRun(es, highVolume) && n < |Run(es, highVolume).events|
    ensures var events := Run(es, highVolume).events;
            var i := events[n];
            && Times(events, i.id) <= (if i.fallback then 2 else 1)
            && i.start != 0 && 1 <= i.status <= MAX_HTTP_STATUS && i.start <= i.end
  {
    hide Run, LegalRun;
    RunKeepsInv(es, highVolume);
    assert Reported(Run(es, highVolume), Run(es, highVolume).events[n]);
  }

  /** The branch that adds to a request's length is taken exactly when a request's own insertion
      failed and left an unanswered older request, or failing that an unanswered fallback record,
      in its place: never while insertions succeed. */
  lemma AccumulateIff(s: State, a: Args)
    ensures var g := AfterGetOrSet(s, a);
            (Find(g, a).Ongoing? && BranchOf(g.ongoing[a.key], a) == Accumulate)
            || (Find(g, a).Backup? && BranchOf(g.backup[a.key.conn], a) == Accumulate)
            <==>
            && a.kind == PACKET_TYPE_REQUEST && !a.inserted
            && if a.key in s.ongoing && !Complete(s.ongoing[a.key]) then StillReading(s.ongoing[a.key])
               else a.key.conn in s.backup && StillReading(s.backup[a.key.conn])
  {
  }

  /** Two requests on one connection, the second without room for its record, reach it: the first one's
      record takes both lengths. */
  lemma AccumulateIsReached(key: PidConn)
    ensures var a := Args(key, PACKET_TYPE_REQUEST, TCP_SEND, false, 80, (0, 0, 0), 100, 7, 1, true,
                          (true, true, true));
            var b := a.(now := 2, len := 50, inserted := false);
            var s := Run([Http(a)], false);
            && LegalRun([Http(a)], false) && Legal(s, Http(b))
            && key in AfterGetOrSet(s, b).ongoing
            && BranchOf(AfterGetOrSet(s, b).ongoing[key], b) == Accumulate
            && key in HttpStep(s, b, false).ongoing && HttpStep(s, b, false).ongoing[key].len == 150
  {
    hide FixedUp;
    var a := Args(key, PACKET_TYPE_REQUEST, TCP_SEND, false, 80, (0, 0, 0), 100, 7, 1, true, (true, true, true));
    assert [Http(a)][..0] == [];
    assert Run([Http(a)], false) == HttpStep(State(map[], map[], [], 0, 0), a, false);
    assert Run([Http(a)], false).ongoing[key] == Requested(Empty(State(map[], map[], [], 0, 0), a), a);
  }

  /** A response that only a fallback record can answer reports that record twice when it is
      received (or final for another reason) and there is room, once otherwise. */
  lemma FallbackReports(s: State, a: Args, highVolume: bool)
    requires a.kind == PACKET_TYPE_RESPONSE && a.key !in s.ongoing
    requires a.key.conn in s.backup && StillReading(s.backup[a.key.conn])
    ensures var r := Responded(s.backup[a.key.conn].(hostPid := a.hostPid, client := a.direction == TCP_RECV), a);
            var times := if !Complete(r) then []
                         else (if FinishesAtOnce(a, highVolume) && a.rooms.1 then [r] else []) +
                              (if a.rooms.2 then [r] else []);
            HttpStep(s, a, highVolume).events == s.events + times
  {
    hide StatusOf;
  }

  /** A request seen on a plain TCP socket is recorded with the serving endpoint as destination:
      our own end when we receive the request, the peer's when we send it. */
  lemma RequestNamesServer(s: State, a: Args, highVolume: bool, socket: Conn)
    requires a.kind == PACKET_TYPE_REQUEST && a.inserted
    requires a.key.conn == Sorted(socket) && a.origDport == socket.dPort
    ensures var s' := HttpStep(s, a, highVolume);
            && a.key in s'.ongoing
            && var i := s'.ongoing[a.key];
               && i.start == a.now && i.status == 0 && i.id == s.next
               && (i.conn.dAddr, i.conn.dPort) ==
                  if a.direction == TCP_RECV then (socket.sAddr, socket.sPort) else (socket.dAddr, socket.dPort)
  {
    hide FixedUp, Sorted;
    DestinationServes(socket, a.direction);
  }

  // ---------------------------------------------------------------- the probes

  class Tracker {
    const highVolume: bool
    var ongoing: map<PidConn, Info>
    var backup: map<Conn, Info>
    var events: seq<Info>
    var next: nat
    var clock: nat

    ghost function Now(): State
      reads this
    {
      State(ongoing, backup, events, next, clock)
    }

    /** What every run keeps. */
    ghost predicate Valid()
      reads this
    {
      Inv(Now())
    }

    constructor (highVolume: bool)
      ensures Valid() && Now() == State(map[], map[], [], 0, 0) && this.highVolume == highVolume
    {
      this.highVolume := highVolume;
      ongoing, backup, events, next, clock := map[], map[], [], 0, 0;
    }

    method FinishHttp(i: Info, key: PidConn, room: bool)
      modifies this
      ensures Now() == Finished(old(Now()), i, key, room)
    {
      if Complete(i) {
        if room {
          events := events + [i];
        }
        ongoing := ongoing - {key};
      }
    }

    method GetOrSetHttpInfo(a: Args)
      requires Valid()
      modifies this
      ensures Valid() && Now() == AfterGetOrSet(old(Now()), a)
    {
      hide Inv;
      GetOrSetKeepsInv(Now(), a);
      if a.kind == PACKET_TYPE_REQUEST {
        var empty := Info(next, false, a.key.conn, 0, 0, 0, 0, 0, false, 0);
        if a.key in ongoing {
          FinishHttp(ongoing[a.key], a.key, a.rooms.0);
        }
        if a.inserted {
          ongoing, next := ongoing[a.key := empty], next + 1;
        }
      }
    }

    method ProtocolHttp(a: Args)
      requires Valid() && a.now >= clock
      modifies this
      ensures Valid() && Now() == HttpStep(old(Now()), a, highVolume)
    {
      hide StatusOf, Finished, Inv;
      HttpKeepsInv(Now(), a, highVolume);
      GetOrSetHttpInfo(a);
      if a.key in ongoing {
        var i := ongoing[a.key];
        if a.kind == PACKET_TYPE_REQUEST && i.status == 0 && i.start == 0 {
          ongoing := ongoing[a.key := Requested(i, a)];
        } else if a.kind == PACKET_TYPE_RESPONSE && i.status == 0 {
          var r := Responded(i, a);
          ongoing := ongoing[a.key := r];
          if FinishesAtOnce(a, highVolume) {
            FinishHttp(r, a.key, a.rooms.1);
          }
        } else if StillReading(i) {
          ongoing := ongoing[a.key := i.(len := i.len + a.len)];
        }
      } else if a.key.conn in backup {
        var i := backup[a.key.conn].(hostPid := a.hostPid, client := a.direction == TCP_RECV);
        if a.kind == PACKET_TYPE_RESPONSE && i.status == 0 {
          var r := Responded(i, a);
          if FinishesAtOnce(a, highVolume) {
            FinishHttp(r, a.key, a.rooms.1);
          }
          FinishHttp(r, a.key, a.rooms.2);
        }
      } else {
        clock := a.now;
        return;
      }
      backup, clock := backup - {a.key.conn}, a.now;
    }

    method FinishPossibleDelayed(key: PidConn, tls: bool, room: bool)
      requires Valid()
      modifies this
      ensures Valid() && Now() == DelayedStep(old(Now()), key, highVolume, tls, room)
    {
      hide Inv;
      StepKeepsInv(Now(), Delayed(key, tls, room), highVolume);
      if highVolume && !tls {
        return;
      }
      if key in ongoing {
        FinishHttp(ongoing[key], key, room);
      }
    }
  }
}
