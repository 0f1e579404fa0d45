/** The expirer of OpenTelemetry metrics: it sweeps its map of data points at most once a period. */
module MetricExpirer {
  import opened Expiry

  // ---------------------------------------------------------------- as a value

  datatype State<T> = State(entries: map<string, Entry<T>>, lastExpiration: Time)

  /** A record: its attributes and the clock as read for the decision, the sweep and the access. */
  datatype Record<T> = Record(labels: seq<string>, attrs: T, decided: Time, swept: Time, accessed: Time)

  function Accessed<T>(entries: map<string, Entry<T>>, r: Record<T>): map<string, Entry<T>> {
    var h := LabelsKey(r.labels);
    entries[h := if h in entries then entries[h].(lastAccess := r.accessed)
                 else Entry(r.accessed, r.labels, r.attrs)]
  }

  function Swept<T>(ttl: Time, s: State<T>, r: Record<T>): State<T> {
    if r.decided - s.lastExpiration >= ttl then State(Kept(s.entries, r.swept, ttl), r.decided) else s
  }

  function Step<T>(ttl: Time, s: State<T>, r: Record<T>): State<T> {
    var swept := Swept(ttl, s, r);
    swept.(entries := Accessed(swept.entries, r))
  }

  predicate InTime<T>(now: Time, r: Record<T>) {
    now <= r.decided <= r.swept <= r.accessed
  }

  /** No entry is older than a period at the time of the last sweep. */
  ghost predicate Inv<T>(ttl: Time, s: State<T>, now: Time) {
    && s.lastExpiration <= now
    && forall k :: k in s.entries ==> s.lastExpiration - ttl <= s.entries[k].lastAccess <= now
  }

  ghost predicate YoungerThan<T>(s: State<T>, now: Time, age: Time) {
    forall k :: k in s.entries ==> now - s.entries[k].lastAccess < age
  }

  /** After every record, nothing that stays has gone two periods without an update. */
  lemma StepBounds<T>(ttl: Time, s: State<T>, r: Record<T>, now: Time)
    requires ttl > 0 && Inv(ttl, s, now) && InTime(now, r)
    ensures Inv(ttl, Step(ttl, s, r), r.accessed)
    ensures YoungerThan(Step(ttl, s, r), r.decided, 2 * ttl)
  {
    var swept := Swept(ttl, s, r);
    assert forall k :: k in swept.entries ==> k in s.entries && swept.entries[k] == s.entries[k];
  }

  /** Whether a data point is still there after the decision to sweep or not. */
  lemma SurvivesIff<T>(ttl: Time, s: State<T>, r: Record<T>, k: string)
    requires k in s.entries
    ensures k in Swept(ttl, s, r).entries <==>
              r.decided - s.lastExpiration < ttl || r.swept - s.entries[k].lastAccess <= ttl
  {
  }

  predicate InTimeAll<T>(now: Time, rs: seq<Record<T>>)
    decreases |rs|
  {
    rs != [] ==> InTime(now, rs[0]) && InTimeAll(rs[0].accessed, rs[1..])
  }

  function Run<T>(ttl: Time, s: State<T>, rs: seq<Record<T>>): State<T>
    decreases |rs|
  {
    if rs == [] then s else Run(ttl, Step(ttl, s, rs[0]), rs[1..])
  }

  /** The bound after the last of any number of records. */
  lemma {:induction false} RunBounds<T>(ttl: Time, s: State<T>, rs: seq<Record<T>>, now: Time)
    requires ttl > 0 && Inv(ttl, s, now) && InTimeAll(now, rs) && rs != []
    ensures YoungerThan(Run(ttl, s, rs), rs[|rs| - 1].decided, 2 * ttl)
    decreases |rs|
  {
    hide Inv, Step, YoungerThan;
    StepBounds(ttl, s, rs[0], now);
    if |rs| > 1 {
      assert rs[1..][|rs| - 2] == rs[|rs| - 1];
      RunBounds(ttl, Step(ttl, s, rs[0]), rs[1..], rs[0].accessed);
    } else {
      assert rs[1..] == [];
    }
  }

  function At<T>(labels: seq<string>, attrs: T, t: Time): Record<T> {
    Record(labels, attrs, t, t, t)
  }

  /** Every age short of two periods is reached: one record at the start, another after a period, just
      before the first would go, and again before the next sweep. */
  lemma BoundIsTight<T>(ttl: Time, age: Time, a: seq<string>, b: seq<string>, x: T) returns (rs: seq<Record<T>>)
    requires ttl > 0 && 0 <= age < 2 * ttl && LabelsKey(a) != LabelsKey(b)
    ensures rs != [] && InTimeAll(0, rs) && rs[|rs| - 1].decided == age
    ensures var s := Run(ttl, State(map[], 0), rs);
            LabelsKey(a) in s.entries && rs[|rs| - 1].decided - s.entries[LabelsKey(a)].lastAccess == age
  {
    var s0: State<T> := State(map[], 0);
    var s1 := Step(ttl, s0, At(a, x, 0));
    if age < ttl {
      rs := [At(a, x, 0), At(b, x, age)];
      RunOfTwo(ttl, s0, rs[0], rs[1]);
    } else {
      var s2 := Step(ttl, s1, At(b, x, ttl));
      rs := [At(a, x, 0), At(b, x, ttl), At(b, x, age)];
      assert rs[1..] == [rs[1], rs[2]] && InTimeAll(ttl, rs[1..]);
      RunOfTwo(ttl, s1, rs[1], rs[2]);
    }
  }

  lemma RunOfTwo<T>(ttl: Time, s: State<T>, r: Record<T>, t: Record<T>)
    ensures Run(ttl, s, [r, t]) == Step(ttl, Step(ttl, s, r), t)
    ensures InTimeAll(r.accessed, [t]) <==> InTime(r.accessed, t)
  {
    hide Step;
    assert [r, t][1..] == [t] && [t][1..] == [];
    assert Run(ttl, Step(ttl, s, r), [t]) == Run(ttl, Step(ttl, Step(ttl, s, r), t), []);
  }

  // ---------------------------------------------------------------- as it is

  class Expirer<T(!new)> {
    const ttl: Time
    const entries: ExpiryMap<T>
    var lastExpiration: Time
    var removed: seq<T>

    ghost function Abs(): State<T>
      reads this, entries
    {
      State(entries.entries, lastExpiration)
    }

    ghost predicate Valid(now: Time)
      reads this, entries
    {
      ttl > 0 && entries.ttl == ttl && Inv(ttl, Abs(), now)
    }

    constructor (ttl: Time, now: Time)
      requires ttl > 0
      ensures Valid(now) && this.ttl == ttl && Abs() == State(map[], now) && removed == [] && fresh(entries)
    {
      this.ttl, lastExpiration, removed := ttl, now, [];
      entries := new ExpiryMap<T>(ttl);
    }

    /** Removes the metric of every attribute set in turn. */
    method DeleteMetricInstances(attrs: seq<T>)
      modifies this`removed
      ensures removed == old(removed) + attrs
    {
      for i := 0 to |attrs|
        invariant removed == old(removed) + attrs[..i]
      {
        removed := removed + [attrs[i]];
      }
      assert attrs[..|attrs|] == attrs;
    }

    /** The metrics removed are those of the entries deleted, each once. */
    method RemoveOutdated(now: Time) returns (ghost keys: seq<string>)
      requires entries.ttl == ttl
      modifies this`removed, entries
      ensures entries.entries == Kept(old(entries.entries), now, ttl)
      ensures |old(removed)| <= |removed| && removed[..|old(removed)|] == old(removed)
      ensures Lists(removed[|old(removed)|..], old(entries.entries), keys,
                    old(entries.entries).Keys - entries.entries.Keys)
    {
      var deleted;
      deleted, keys := entries.DeleteExpired(now);
      DeleteMetricInstances(deleted);
    }

    method ForRecord(r: Record<T>, ghost now: Time) returns (attrs: T, ghost keys: seq<string>)
      requires Valid(now) && InTime(now, r)
      modifies this, entries
      ensures Valid(r.accessed) && Abs() == Step(ttl, old(Abs()), r)
      ensures YoungerThan(Abs(), r.decided, 2 * ttl)
      ensures |old(removed)| <= |removed| && removed[..|old(removed)|] == old(removed)
      ensures Lists(removed[|old(removed)|..], old(entries.entries), keys,
                    old(entries.entries).Keys - Swept(ttl, old(Abs()), r).entries.Keys)
      ensures var h := LabelsKey(r.labels); h in entries.entries && attrs == entries.entries[h].val
    {
      StepBounds(ttl, Abs(), r, now);
      keys := [];
      if r.decided - lastExpiration >= ttl {
        keys := RemoveOutdated(r.swept);
        lastExpiration := r.decided;
      }
      attrs := entries.GetOrCreate(r.labels, r.attrs, r.accessed);
    }

    method RemoveAllMetrics() returns (ghost keys: seq<string>)
      modifies this`removed, entries
      ensures entries.entries == map[]
      ensures |old(removed)| <= |removed| && removed[..|old(removed)|] == old(removed)
      ensures Lists(removed[|old(removed)|..], old(entries.entries), keys, old(entries.entries).Keys)
    {
      var deleted;
      deleted, keys := entries.DeleteAll();
      DeleteMetricInstances(deleted);
    }
  }
}
