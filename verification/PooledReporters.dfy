/** The reporter pool as it is: reporters shared by reference between the cache and the memory of the
    last service. Every method is proved against the pool as a value. */
module PooledReporters {
  import opened ReporterPool
  import opened Options

  class Expirable {
    var lastAccess: Time
    const reporter: Reporter

    constructor (reporter: Reporter)
      ensures this.reporter == reporter && lastAccess == 0
    {
      this.reporter, lastAccess := reporter, 0;
    }
  }

  datatype Slot = Slot(uid: Uid, item: Expirable)

  ghost function RowOf(s: Slot): Row
    reads s.item
  {
    Row(s.uid, s.item.reporter, s.item.lastAccess)
  }

  ghost function ItemsOf(slots: seq<Slot>): set<Expirable> {
    set i | 0 <= i < |slots| :: slots[i].item
  }

  ghost function RowsOf(slots: seq<Slot>): (rows: seq<Row>)
    reads ItemsOf(slots)
    ensures |rows| == |slots|
    ensures forall i :: 0 <= i < |slots| ==> rows[i] == RowOf(slots[i])
  {
    seq(|slots|, i requires 0 <= i < |slots| reads ItemsOf(slots) => RowOf(slots[i]))
  }

  /** No reporter is in two slots. */
  ghost predicate Separate(slots: seq<Slot>) {
    forall i, j :: 0 <= i < j < |slots| ==> slots[i].item != slots[j].item
  }

  lemma CutIs(rows: seq<Row>, now: Time, ttl: Time, k: nat)
    requires k <= |rows| && forall i :: 0 <= i < k ==> IsStale(rows[i], now, ttl)
    requires k < |rows| ==> !IsStale(rows[k], now, ttl)
    ensures Cut(rows, now, ttl) == k
  {
  }

  lemma FindIs(rows: seq<Row>, uid: Uid, k: nat)
    requires k <= |rows| && forall i :: 0 <= i < k ==> rows[i].uid != uid
    requires k < |rows| ==> rows[k].uid == uid
    ensures Find(rows, uid) == k
  {
  }

  class Pool {
    const config: Config
    var slots: seq<Slot>
    var gone: seq<(Uid, Reporter)>
    var lastUid: Uid
    var lastReporter: Expirable?
    var lastExpiration: Time

    ghost function Items(): set<Expirable>
      reads this
    {
      ItemsOf(slots) + if lastReporter == null then {} else {lastReporter}
    }

    ghost function Abs(): State
      reads this, Items()
    {
      State(RowsOf(slots), gone, lastUid, if lastReporter == null then None else Some(lastReporter.reporter),
            lastExpiration)
    }

    /** No reporter is in two slots, and the remembered one is the newest slot's own. */
    ghost predicate Linked()
      reads this
    {
      && config.size > 0 && Separate(slots)
      && (lastUid != "" ==> lastReporter != null)
      && (slots != [] ==> lastReporter == slots[|slots| - 1].item)
    }

    ghost predicate Valid(now: Time)
      reads this, Items()
    {
      Linked() && Inv(config, Abs(), now)
    }

    constructor (size: nat, ttl: Time, now: Time)
      requires size > 0
      ensures Valid(now) && config == Config(size, ttl) && Abs() == Initial(now)
    {
      config := Config(size, ttl);
      slots, gone, lastUid, lastReporter, lastExpiration := [], [], "", null, now;
    }

    /** `expireOldReporters`: a due sweep takes out the oldest reporter as long as it is stale. */
    method ExpireOldReporters(now: Time)
      modifies this`slots, this`gone, this`lastExpiration
      ensures Abs() == Swept(config, old(Abs()), now)
      ensures |slots| <= |old(slots)| && slots == old(slots)[|old(slots)| - |slots|..]
    {
      hide Pairs, Cut, ItemsOf;
      if now - lastExpiration < config.ttl { return; }
      ghost var rows, k := RowsOf(slots), 0;
      lastExpiration := now;
      NoPairs(rows);
      while slots != [] && now - slots[0].item.lastAccess >= config.ttl
        invariant 0 <= k <= |old(slots)| && slots == old(slots)[k..]
        invariant gone == old(gone) + Pairs(rows[..k]) && lastExpiration == now
        invariant forall i :: 0 <= i < k ==> IsStale(rows[i], now, config.ttl)
        decreases |slots|
      {
        PairsGrow(rows, k);
        gone := gone + [(slots[0].uid, slots[0].item.reporter)];
        slots := slots[1..];
        k := k + 1;
      }
      CutIs(rows, now, config.ttl, k);
      assert RowsOf(slots) == rows[k..];
    }

    /** A miss: a new slot becomes the newest, and one too many evicts the oldest. */
    method Create(uid: Uid, reporter: Reporter) returns (e: Expirable)
      requires Separate(slots) && config.size > 0
      modifies this`slots, this`gone
      ensures fresh(e) && e.reporter == reporter
      ensures slots != [] && slots[|slots| - 1].item == e && Separate(slots)
      ensures var all := old(RowsOf(slots)) + [Row(uid, reporter, 0)];
              var over := if |all| > config.size then 1 else 0;
              RowsOf(slots) == all[over..] && gone == old(gone) + Pairs(all[..over])
    {
      hide Pairs, ItemsOf;
      ghost var rows := RowsOf(slots);
      e := new Expirable(reporter);
      slots := slots + [Slot(uid, e)];
      ghost var all := RowsOf(slots);
      assert all == rows + [Row(uid, reporter, 0)];
      if |slots| > config.size {
        PairOfFirst(all);
        gone := gone + [(slots[0].uid, slots[0].item.reporter)];
        slots := slots[1..];
        assert RowsOf(slots) == all[1..];
      } else {
        NoPairs(all);
      }
    }

    /** `get`: the service's slot, or a new one, becomes the newest. Null when there is none and the
        constructor fails. */
    method Lookup(uid: Uid, made: Option<Reporter>) returns (e: Expirable?)
      requires Separate(slots) && config.size > 0
      modifies this`slots, this`gone
      ensures e != null ==> slots != [] && slots[|slots| - 1].item == e && Separate(slots)
      ensures e != null ==> e in old(ItemsOf(slots)) || fresh(e)
      ensures LookedUp(config, old(RowsOf(slots)), old(gone), uid, made, RowsOf(slots), gone,
                       if e == null then None else Some(e.reporter))
      ensures e == null ==> slots == old(slots)
    {
      hide Pairs, ItemsOf;
      var k := 0;
      ghost var rows := RowsOf(slots);
      while k < |slots| && slots[k].uid != uid
        invariant k <= |slots|
        invariant forall i :: 0 <= i < k ==> rows[i].uid != uid
      {
        k := k + 1;
      }
      FindIs(rows, uid, k);
      if k < |slots| {
        e := slots[k].item;
        InItems(slots, k);
        MoveKeeps(slots, k);
        slots := slots[..k] + slots[k + 1..] + [slots[k]];
      } else if made.None? {
        e := null;
      } else {
        e := Create(uid, made.value);
      }
    }

    /** The access shows in the newest row, and in no other. */
    method Touch(t: Time)
      requires Linked() && lastReporter != null
      modifies lastReporter
      ensures lastReporter.lastAccess == t
      ensures RowsOf(slots) == Touched(old(RowsOf(slots)), t)
    {
      hide ItemsOf;
      ghost var rows := RowsOf(slots);
      lastReporter.lastAccess := t;
      assert RowsOf(slots) == Touched(rows, t);
    }

    /** The path that looks the service up. */
    method LookupAndTouch(call: Call) returns (r: Option<Reporter>)
      requires Linked()
      modifies this, Items()
      ensures Linked() && (Abs(), r) == LookupOrCreate(config, old(Abs()), call)
    {
      hide Pairs, Find, ItemsOf, Touched, RowsOf, LookupOrCreate, LookedUp;
      ghost var s := Abs();
      var e := Lookup(call.uid, call.made);
      ghost var rows := RowsOf(slots);
      TouchedLookup(config, s, call, rows, gone, if e == null then None else Some(e.reporter));
      if e == null {
        return None;
      }
      lastUid, lastReporter := call.uid, e;
      assert RowsOf(slots) == rows;
      Touch(call.accessed);
      assert RowsOf(slots) == Touched(rows, call.accessed);
      r := Some(lastReporter.reporter);
    }

    /** `For`, with the clock read once for the sweep and once for the access. */
    method For(call: Call, ghost now: Time) returns (r: Option<Reporter>)
      requires Valid(now) && now <= call.checked <= call.accessed
      modifies this, Items()
      ensures Valid(call.accessed)
      ensures (Abs(), r) == Step(config, old(Abs()), call)
    {
      hide Inv, Swept, LookupOrCreate, ItemsOf, RowsOf;
      StepKeepsInv(config, Abs(), call, now);
      ExpireOldReporters(call.checked);
      ItemsShrink(old(slots), |old(slots)| - |slots|);
      if lastUid == "" || call.uid != lastUid {
        r := LookupAndTouch(call);
      } else {
        Touch(call.accessed);
        r := Some(lastReporter.reporter);
      }
    }
  }

  ghost function Touched(rows: seq<Row>, t: Time): seq<Row> {
    if rows == [] then [] else rows[..|rows| - 1] + [rows[|rows| - 1].(lastAccess := t)]
  }

  /** What a lookup makes of the rows, the newest not yet touched. */
  ghost predicate LookedUp(c: Config, rows: seq<Row>, gone: seq<(Uid, Reporter)>, uid: Uid, made: Option<Reporter>,
                           rows': seq<Row>, gone': seq<(Uid, Reporter)>, r: Option<Reporter>)
  {
    var k := Find(rows, uid);
    if k < |rows| then
      rows' == rows[..k] + rows[k + 1..] + [rows[k]] && gone' == gone && r == Some(rows[k].reporter)
    else if made.None? then rows' == rows && gone' == gone && r == None
    else
      var all := rows + [Row(uid, made.value, 0)];
      var over := if |all| > c.size then 1 else 0;
      rows' == all[over..] && gone' == gone + Pairs(all[..over]) && r == made
  }

  lemma TouchedLookup(c: Config, s: State, call: Call, rows: seq<Row>, gone: seq<(Uid, Reporter)>, r: Option<Reporter>)
    requires c.size > 0 && LookedUp(c, s.rows, s.gone, call.uid, call.made, rows, gone, r)
    ensures LookupOrCreate(c, s, call) ==
              if r.None? then (s, r) else (s.(rows := Touched(rows, call.accessed), gone := gone,
                                              lastUid := call.uid, lastReporter := r), r)
    ensures r.None? ==> rows == s.rows && gone == s.gone
  {
    hide Pairs, Find;
    var k := Find(s.rows, call.uid);
    if k == |s.rows| && call.made.Some? {
      var all, all' := s.rows + [Row(call.uid, call.made.value, 0)],
                       s.rows + [Row(call.uid, call.made.value, call.accessed)];
      var over := if |all| > c.size then 1 else 0;
      assert all[..over] == all'[..over];
      assert Touched(all[over..], call.accessed) == all'[over..];
    }
  }

  lemma InItems(slots: seq<Slot>, k: nat)
    requires k < |slots|
    ensures slots[k].item in ItemsOf(slots)
  {
  }

  lemma ItemsShrink(slots: seq<Slot>, k: nat)
    requires k <= |slots|
    ensures ItemsOf(slots[k..]) <= ItemsOf(slots)
  {
    forall i | 0 <= i < |slots[k..]|
      ensures slots[k..][i].item in ItemsOf(slots)
    {
      assert slots[k..][i] == slots[k + i];
    }
  }

  lemma MoveKeeps(slots: seq<Slot>, k: nat)
    requires k < |slots| && Separate(slots)
    ensures var moved, rows := slots[..k] + slots[k + 1..] + [slots[k]], RowsOf(slots);
            Separate(moved) && RowsOf(moved) == rows[..k] + rows[k + 1..] + [rows[k]]
  {
    var moved := slots[..k] + slots[k + 1..] + [slots[k]];
    assert forall i :: 0 <= i < |moved| ==>
      moved[i] == slots[if i < k then i else if i < |slots| - 1 then i + 1 else k];
  }

  lemma PairOfFirst(rows: seq<Row>)
    requires rows != []
    ensures Pairs(rows[..1]) == [(rows[0].uid, rows[0].reporter)]
  {
  }

  lemma NoPairs(rows: seq<Row>)
    ensures Pairs(rows[..0]) == []
  {
  }

  lemma PairsGrow(rows: seq<Row>, k: nat)
    requires k < |rows|
    ensures Pairs(rows[..k + 1]) == Pairs(rows[..k]) + [(rows[k].uid, rows[k].reporter)]
  {
  }
}
