/** The pool of reporters, one a service: least recently used out when full, and a sweep of the ones
    not used for a while. The reporter of the last service is remembered beside the pool. */
module ReporterPool {
  import opened Options

  type Uid = string
  type Reporter = nat
  type Time = int

  // ---------------------------------------------------------------- the pool as a value

  datatype Row = Row(uid: Uid, reporter: Reporter, lastAccess: Time)

  /** Rows from the least to the most recently used, what was evicted so far, and what is remembered. */
  datatype State = State(rows: seq<Row>, gone: seq<(Uid, Reporter)>,
                         lastUid: Uid, lastReporter: Option<Reporter>, lastExpiration: Time)

  /** A request: the two readings of the clock and what the constructor would give. */
  datatype Call = Call(uid: Uid, checked: Time, accessed: Time, made: Option<Reporter>)

  datatype Config = Config(size: nat, ttl: Time)

  predicate IsStale(r: Row, now: Time, ttl: Time) {
    now - r.lastAccess >= ttl
  }

  /** How many rows at the old end are stale. */
  function Cut(rows: seq<Row>, now: Time, ttl: Time): (k: nat)
    ensures k <= |rows|
    ensures forall i :: 0 <= i < k ==> IsStale(rows[i], now, ttl)
    ensures k < |rows| ==> !IsStale(rows[k], now, ttl)
  {
    if rows == [] || !IsStale(rows[0], now, ttl) then 0 else 1 + Cut(rows[1..], now, ttl)
  }

  predicate InOrder(rows: seq<Row>) {
    forall i, j :: 0 <= i < j < |rows| ==> rows[i].lastAccess <= rows[j].lastAccess
  }

  predicate Distinct(rows: seq<Row>) {
    forall i, j :: 0 <= i < j < |rows| ==> rows[i].uid != rows[j].uid
  }

  /** In access order the loop that looks only at the oldest row finds every stale one. */
  lemma SweepIsExact(rows: seq<Row>, now: Time, ttl: Time)
    requires InOrder(rows)
    ensures forall i :: 0 <= i < |rows| ==> (IsStale(rows[i], now, ttl) <==> i < Cut(rows, now, ttl))
  {
    var k := Cut(rows, now, ttl);
    forall i | k <= i < |rows|
      ensures !IsStale(rows[i], now, ttl)
    {
      assert rows[k].lastAccess <= rows[i].lastAccess;
    }
  }

  function Pairs(rows: seq<Row>): (p: seq<(Uid, Reporter)>)
    ensures |p| == |rows|
  {
    seq(|rows|, i requires 0 <= i < |rows| => (rows[i].uid, rows[i].reporter))
  }

  function Swept(c: Config, s: State, now: Time): State {
    if now - s.lastExpiration < c.ttl then s
    else
      var k := Cut(s.rows, now, c.ttl);
      s.(rows := s.rows[k..], gone := s.gone + Pairs(s.rows[..k]), lastExpiration := now)
  }

  function Find(rows: seq<Row>, uid: Uid): (k: nat)
    ensures k <= |rows|
    ensures k < |rows| ==> rows[k].uid == uid
    ensures forall i :: 0 <= i < k ==> rows[i].uid != uid
  {
    if rows == [] || rows[0].uid == uid then 0 else 1 + Find(rows[1..], uid)
  }

  // ---------------------------------------------------------------- the plain pool

  /** Look the service up, or make its reporter; either way it becomes the most recently used. */
  function LookupOrCreate(c: Config, s: State, call: Call): (State, Option<Reporter>) {
    var k := Find(s.rows, call.uid);
    if k < |s.rows| then
      var row := s.rows[k].(lastAccess := call.accessed);
      (s.(rows := s.rows[..k] + s.rows[k + 1..] + [row], lastUid := call.uid, lastReporter := Some(row.reporter)),
       Some(row.reporter))
    else
      match call.made
      case None => (s, None)
      case Some(reporter) =>
        var rows := s.rows + [Row(call.uid, reporter, call.accessed)];
        var over := if |rows| > c.size then 1 else 0;
        (s.(rows := rows[over..], gone := s.gone + Pairs(rows[..over]),
            lastUid := call.uid, lastReporter := Some(reporter)),
         Some(reporter))
  }

  function PlainStep(c: Config, s: State, call: Call): (State, Option<Reporter>) {
    LookupOrCreate(c, Swept(c, s, call.checked), call)
  }

  // ---------------------------------------------------------------- the pool with its shortcut

  predicate Remembers(s: State, uid: Uid) {
    s.lastUid != "" && s.lastUid == uid
  }

  /** The remembered reporter, without a lookup; its access time is the newest row's, if any. */
  function Shortcut(s: State, call: Call): (State, Option<Reporter>) {
    if s.rows == [] then (s, s.lastReporter)
    else
      var n := |s.rows| - 1;
      (s.(rows := s.rows[..n] + [s.rows[n].(lastAccess := call.accessed)]), s.lastReporter)
  }

  function Step(c: Config, s: State, call: Call): (State, Option<Reporter>) {
    var swept := Swept(c, s, call.checked);
    if Remembers(s, call.uid) then Shortcut(swept, call) else LookupOrCreate(c, swept, call)
  }

  // ---------------------------------------------------------------- what every run keeps

  /** Least recently used first, one row a service. */
  ghost predicate Orderly(rows: seq<Row>, now: Time) {
    InOrder(rows) && Distinct(rows) && forall i :: 0 <= i < |rows| ==> rows[i].lastAccess <= now
  }

  ghost predicate Inv(c: Config, s: State, now: Time) {
    && Orderly(s.rows, now) && |s.rows| <= c.size
    && s.lastExpiration <= now
    && (s.rows != [] ==> LastIsNewest(s))
    && (s.lastUid != "" && s.rows == [] ==> LastIsGone(s))
  }

  /** The remembered reporter is that of the most recently used row. */
  ghost predicate LastIsNewest(s: State)
    requires s.rows != []
  {
    var newest := s.rows[|s.rows| - 1];
    s.lastUid == newest.uid && s.lastReporter == Some(newest.reporter)
  }

  ghost predicate LastIsGone(s: State) {
    s.lastReporter.Some? && (s.lastUid, s.lastReporter.value) in s.gone
  }

  /** The remembered reporter has left the pool. */
  predicate Detached(s: State) {
    s.lastUid != "" && s.rows == []
  }

  lemma DropKeepsOrder(rows: seq<Row>, k: nat, now: Time)
    requires k <= |rows| && Orderly(rows, now)
    ensures Orderly(rows[k..], now)
  {
  }

  lemma SweepKeepsInv(c: Config, s: State, now: Time)
    requires Inv(c, s, now)
    ensures Inv(c, Swept(c, s, now), now)
  {
    hide Orderly;
    var k := Cut(s.rows, now, c.ttl);
    DropKeepsOrder(s.rows, k, now);
    if now - s.lastExpiration >= c.ttl && k == |s.rows| > 0 {
      var p := Pairs(s.rows[..k]);
      assert p[k - 1] == (s.lastUid, s.lastReporter.value);
      assert (s.gone + p)[|s.gone| + k - 1] == p[k - 1];
    }
  }

  lemma RemoveKeepsOrder(rows: seq<Row>, k: nat, rest: seq<Row>, now: Time)
    requires k < |rows| && Orderly(rows, now) && rest == rows[..k] + rows[k + 1..]
    ensures Orderly(rest, now)
    ensures forall i :: 0 <= i < |rest| ==> rest[i].uid != rows[k].uid
  {
    assert forall i :: 0 <= i < |rest| ==> rest[i] == rows[if i < k then i else i + 1];
  }

  lemma AppendKeepsOrder(rows: seq<Row>, row: Row, now: Time)
    requires Orderly(rows, now) && now <= row.lastAccess
    requires forall i :: 0 <= i < |rows| ==> rows[i].uid != row.uid
    ensures Orderly(rows + [row], row.lastAccess)
  {
  }

  lemma FoundKeepsInv(c: Config, s: State, call: Call, now: Time)
    requires Inv(c, s, now) && now <= call.accessed && Find(s.rows, call.uid) < |s.rows|
    ensures Inv(c, LookupOrCreate(c, s, call).0, call.accessed)
  {
    hide Orderly, Pairs;
    var k := Find(s.rows, call.uid);
    var rest := s.rows[..k] + s.rows[k + 1..];
    RemoveKeepsOrder(s.rows, k, rest, now);
    AppendKeepsOrder(rest, s.rows[k].(lastAccess := call.accessed), now);
  }

  lemma MadeKeepsInv(c: Config, s: State, call: Call, now: Time)
    requires c.size > 0 && Inv(c, s, now) && now <= call.accessed
    requires Find(s.rows, call.uid) == |s.rows| && call.made.Some?
    ensures Inv(c, LookupOrCreate(c, s, call).0, call.accessed)
  {
    hide Orderly, Pairs;
    var rows := s.rows + [Row(call.uid, call.made.value, call.accessed)];
    AppendKeepsOrder(s.rows, Row(call.uid, call.made.value, call.accessed), now);
    var over := if |rows| > c.size then 1 else 0;
    DropKeepsOrder(rows, over, call.accessed);
    assert rows[over..][|rows| - over - 1] == rows[|rows| - 1];
  }

  lemma LookupKeepsInv(c: Config, s: State, call: Call, now: Time)
    requires c.size > 0 && Inv(c, s, now) && now <= call.accessed
    ensures Inv(c, LookupOrCreate(c, s, call).0, call.accessed)
  {
    hide Find, Inv, Pairs;
    if Find(s.rows, call.uid) < |s.rows| {
      FoundKeepsInv(c, s, call, now);
    } else if call.made.Some? {
      MadeKeepsInv(c, s, call, now);
    } else {
      InvLater(c, s, now, call.accessed);
    }
  }

  lemma ShortcutKeepsInv(c: Config, s: State, call: Call, now: Time)
    requires Inv(c, s, now) && now <= call.accessed
    ensures Inv(c, Shortcut(s, call).0, call.accessed)
  {
  }

  /** While the remembered reporter is in the pool the shortcut does what the lookup would. */
  lemma ShortcutIsLookup(c: Config, s: State, call: Call, now: Time)
    requires Inv(c, s, now) && Remembers(s, call.uid) && s.rows != []
    ensures Shortcut(s, call) == LookupOrCreate(c, s, call)
  {
    var n := |s.rows| - 1;
    var k := Find(s.rows, call.uid);
    assert s.rows[n].uid == call.uid;
    assert k == n;
    assert s.rows[..n] + s.rows[n + 1..] == s.rows[..n];
  }

  lemma InvLater(c: Config, s: State, now: Time, later: Time)
    requires Inv(c, s, now) && now <= later
    ensures Inv(c, s, later)
  {
  }

  /** When a check leaves the remembered reporter out of the pool: it was out already, or the sweep is
      due and it was last used a whole period ago. */
  lemma DetachedIff(c: Config, s: State, now: Time, checked: Time)
    requires Inv(c, s, now)
    ensures Detached(Swept(c, s, checked)) <==>
              s.lastUid != "" && (s.rows == [] || (checked - s.lastExpiration >= c.ttl &&
                                                   IsStale(s.rows[|s.rows| - 1], checked, c.ttl)))
  {
    SweepIsExact(s.rows, checked, c.ttl);
  }

  lemma DetachedDiffers(c: Config, s: State, call: Call)
    requires c.size > 0 && s.rows == [] && s.lastReporter.Some?
    ensures Shortcut(s, call) != LookupOrCreate(c, s, call)
  {
    if call.made.Some? {
      assert Find(s.rows, call.uid) == 0;
      assert LookupOrCreate(c, s, call).0.rows == [Row(call.uid, call.made.value, call.accessed)];
    }
  }

  /** The pool with its shortcut does what the plain one does, exactly unless the service is the
      remembered one and its reporter is out of the pool once the sweep is done. */
  lemma StepIsPlainIff(c: Config, s: State, call: Call, now: Time)
    requires c.size > 0 && Inv(c, s, now) && now <= call.checked
    ensures Step(c, s, call) == PlainStep(c, s, call)
       <==> !(Remembers(s, call.uid) && Detached(Swept(c, s, call.checked)))
  {
    hide Cut, Find, Shortcut, LookupOrCreate, Orderly;
    var swept := Swept(c, s, call.checked);
    InvLater(c, s, now, call.checked);
    SweepKeepsInv(c, s, call.checked);
    if Remembers(s, call.uid) {
      if swept.rows != [] {
        ShortcutIsLookup(c, swept, call, call.checked);
      } else {
        DetachedDiffers(c, swept, call);
      }
    }
  }

  /** What it then hands out was evicted before. */
  lemma DetachedWasEvicted(c: Config, s: State, call: Call, now: Time)
    requires Inv(c, s, now) && now <= call.checked
    requires Remembers(s, call.uid) && Detached(Swept(c, s, call.checked))
    ensures Step(c, s, call).1.Some?
    ensures (call.uid, Step(c, s, call).1.value) in Step(c, s, call).0.gone
  {
    hide Cut, Find, LookupOrCreate, Orderly;
    InvLater(c, s, now, call.checked);
    SweepKeepsInv(c, s, call.checked);
  }

  lemma StepKeepsInv(c: Config, s: State, call: Call, now: Time)
    requires c.size > 0 && Inv(c, s, now) && now <= call.checked <= call.accessed
    ensures Inv(c, Step(c, s, call).0, call.accessed)
  {
    hide Inv, Swept, Shortcut, LookupOrCreate;
    var swept := Swept(c, s, call.checked);
    InvLater(c, s, now, call.checked);
    SweepKeepsInv(c, s, call.checked);
    ShortcutKeepsInv(c, swept, call, call.checked);
    LookupKeepsInv(c, swept, call, call.checked);
  }

  // ---------------------------------------------------------------- runs

  function Initial(now: Time): State {
    State([], [], "", None, now)
  }

  function Run(c: Config, s: State, calls: seq<Call>): (State, seq<Option<Reporter>>)
    decreases |calls|
  {
    if calls == [] then (s, [])
    else
      var (s', r) := Step(c, s, calls[0]);
      var (s'', rs) := Run(c, s', calls[1..]);
      (s'', [r] + rs)
  }

  function PlainRun(c: Config, s: State, calls: seq<Call>): (State, seq<Option<Reporter>>)
    decreases |calls|
  {
    if calls == [] then (s, [])
    else
      var (s', r) := PlainStep(c, s, calls[0]);
      var (s'', rs) := PlainRun(c, s', calls[1..]);
      (s'', [r] + rs)
  }

  /** The clock never goes back. */
  predicate Monotone(now: Time, calls: seq<Call>)
    decreases |calls|
  {
    calls != [] ==> now <= calls[0].checked <= calls[0].accessed && Monotone(calls[0].accessed, calls[1..])
  }

  function Latest(now: Time, calls: seq<Call>): Time
    decreases |calls|
  {
    if calls == [] then now else Latest(calls[0].accessed, calls[1..])
  }

  /** Less than a period from the last access to each check. */
  predicate Prompt(c: Config, s: State, calls: seq<Call>)
    decreases |calls|
  {
    calls != [] ==>
      && (s.rows != [] ==> !IsStale(s.rows[|s.rows| - 1], calls[0].checked, c.ttl))
      && Prompt(c, Step(c, s, calls[0]).0, calls[1..])
  }

  lemma {:induction false} RunKeepsInv(c: Config, s: State, calls: seq<Call>, now: Time)
    requires c.size > 0 && Inv(c, s, now) && Monotone(now, calls)
    ensures Inv(c, Run(c, s, calls).0, Latest(now, calls))
    decreases |calls|
  {
    hide Inv, Step;
    if calls == [] {
    } else {
      StepKeepsInv(c, s, calls[0], now);
      RunKeepsInv(c, Step(c, s, calls[0]).0, calls[1..], calls[0].accessed);
    }
  }

  lemma NotDetachedYet(c: Config, s: State, call: Call, now: Time)
    requires c.size > 0 && Inv(c, s, now) && !Detached(s) && now <= call.checked
    requires s.rows != [] ==> !IsStale(s.rows[|s.rows| - 1], call.checked, c.ttl)
    ensures Step(c, s, call) == PlainStep(c, s, call)
    ensures !Detached(Step(c, s, call).0)
  {
    hide Inv, Cut, Find;
    DetachedIff(c, s, now, call.checked);
    StepIsPlainIff(c, s, call, now);
  }

  /** A run that is prompt throughout gives every caller what the plain pool gives. */
  lemma {:induction false} PromptRunIsPlain(c: Config, s: State, calls: seq<Call>, now: Time)
    requires c.size > 0 && Inv(c, s, now) && Monotone(now, calls)
    requires !Detached(s) && Prompt(c, s, calls)
    ensures Run(c, s, calls) == PlainRun(c, s, calls)
    decreases |calls|
  {
    hide Inv, Step, PlainStep, Detached, IsStale;
    if calls == [] {
    } else {
      NotDetachedYet(c, s, calls[0], now);
      StepKeepsInv(c, s, calls[0], now);
      PromptRunIsPlain(c, Step(c, s, calls[0]).0, calls[1..], calls[0].accessed);
    }
  }

  // ---------------------------------------------------------------- nothing lost

  function Everyone(s: State): multiset<(Uid, Reporter)> {
    multiset(s.gone) + multiset(Pairs(s.rows))
  }

  /** The reporters a call makes. */
  function Created(c: Config, s: State, call: Call): multiset<(Uid, Reporter)> {
    var rows := Swept(c, s, call.checked).rows;
    if !Remembers(s, call.uid) && Find(rows, call.uid) == |rows| && call.made.Some?
    then multiset{(call.uid, call.made.value)} else multiset{}
  }

  lemma PairsOfTwo(a: seq<Row>, b: seq<Row>)
    ensures multiset(Pairs(a + b)) == multiset(Pairs(a)) + multiset(Pairs(b))
  {
    assert Pairs(a + b) == Pairs(a) + Pairs(b);
  }

  lemma SweepConserves(c: Config, s: State, now: Time)
    ensures Everyone(Swept(c, s, now)) == Everyone(s)
  {
    hide Cut, Pairs;
    var k := Cut(s.rows, now, c.ttl);
    PairsOfTwo(s.rows[..k], s.rows[k..]);
    assert s.rows[..k] + s.rows[k..] == s.rows;
  }

  lemma TouchConserves(rows: seq<Row>, k: nat, t: Time)
    requires k < |rows|
    ensures multiset(Pairs(rows[..k] + rows[k + 1..] + [rows[k].(lastAccess := t)])) == multiset(Pairs(rows))
  {
    hide Pairs;
    var row := rows[k].(lastAccess := t);
    PairsOfTwo(rows[..k] + rows[k + 1..], [row]);
    PairsOfTwo(rows[..k], rows[k + 1..]);
    PairOfOne(row);
    PairOfOne(rows[k]);
    PairsOfTwo(rows[..k], [rows[k]]);
    PairsOfTwo(rows[..k] + [rows[k]], rows[k + 1..]);
    assert rows[..k] + [rows[k]] + rows[k + 1..] == rows;
  }

  lemma PairOfOne(row: Row)
    ensures multiset(Pairs([row])) == multiset{(row.uid, row.reporter)}
  {
    assert Pairs([row]) == [(row.uid, row.reporter)];
  }

  lemma AddsUp<T>(a: multiset<T>, b: multiset<T>, c: multiset<T>)
    ensures a + b + c == a + (b + c)
  {
  }

  lemma LookupConserves(c: Config, s: State, call: Call)
    ensures Everyone(LookupOrCreate(c, s, call).0) == Everyone(s) +
              if Find(s.rows, call.uid) == |s.rows| && call.made.Some?
              then multiset{(call.uid, call.made.value)} else multiset{}
  {
    hide Pairs, Find;
    var k := Find(s.rows, call.uid);
    if k < |s.rows| {
      TouchConserves(s.rows, k, call.accessed);
    } else if call.made.Some? {
      var row := Row(call.uid, call.made.value, call.accessed);
      var rows := s.rows + [row];
      var over := if |rows| > c.size then 1 else 0;
      PairsOfTwo(s.rows, [row]);
      PairOfOne(row);
      AddsUp(multiset(s.gone), multiset(Pairs(s.rows)), multiset(Pairs([row])));
      PairsOfTwo(rows[..over], rows[over..]);
      assert rows[..over] + rows[over..] == rows;
      var t := LookupOrCreate(c, s, call).0;
      assert t.rows == rows[over..] && t.gone == s.gone + Pairs(rows[..over]);
      AddsUp(multiset(s.gone), multiset(Pairs(rows[..over])), multiset(Pairs(rows[over..])));
    }
  }

  lemma ShortcutConserves(s: State, call: Call)
    ensures Everyone(Shortcut(s, call).0) == Everyone(s)
  {
    hide Pairs;
    if s.rows != [] {
      var n := |s.rows| - 1;
      TouchConserves(s.rows, n, call.accessed);
      assert s.rows[..n] + s.rows[n + 1..] == s.rows[..n];
    }
  }

  /** A reporter that was made is in the pool or was evicted, once. */
  lemma StepConserves(c: Config, s: State, call: Call)
    ensures Everyone(Step(c, s, call).0) == Everyone(s) + Created(c, s, call)
  {
    hide Everyone, Find, Swept, Shortcut, LookupOrCreate;
    var swept := Swept(c, s, call.checked);
    SweepConserves(c, s, call.checked);
    ShortcutConserves(swept, call);
    LookupConserves(c, swept, call);
  }

  function CreatedIn(c: Config, s: State, calls: seq<Call>): multiset<(Uid, Reporter)>
    decreases |calls|
  {
    if calls == [] then multiset{}
    else Created(c, s, calls[0]) + CreatedIn(c, Step(c, s, calls[0]).0, calls[1..])
  }

  /** Over a whole run: what is pooled or was evicted is what was made. */
  lemma {:induction false} RunConserves(c: Config, s: State, calls: seq<Call>)
    ensures Everyone(Run(c, s, calls).0) == Everyone(s) + CreatedIn(c, s, calls)
    decreases |calls|
  {
    hide Everyone, Step, Created;
    if calls == [] {
    } else {
      var s' := Step(c, s, calls[0]).0;
      StepConserves(c, s, calls[0]);
      RunConserves(c, s', calls[1..]);
      AddsUp(Everyone(s), Created(c, s, calls[0]), CreatedIn(c, s', calls[1..]));
    }
  }
}
